/**
 The FM configuration file parser: a block-wise reader, a line scanner that walks over C strings,
 and the table it fills.  A C string is a Dafny string without NUL; `At` sees its terminator.
 */
module ConfFile {
  import opened Common
  import opened ConfTable
  import opened ConfSyntax

  function At(s: string, i: nat): char
  {
    if i < |s| then s[i] else NUL
  }

  lemma AtEnd(s: string, i: nat)
    requires NUL !in s && i <= |s| && At(s, i) == NUL
    ensures i == |s|
  {
  }

  method LineIsComment(str: string) returns (comment: bool)
    requires NUL !in str
    ensures comment <==> str == "" || str[0] == '#' || str[0] == LF
  {
    comment := At(str, 0) == '#' || At(str, 0) == NUL || At(str, 0) == LF;
  }

  /** The name between the brackets, if the line is a well-formed header. */
  method HeaderName(str: string) returns (name: Option<string>)
    requires NUL !in str && str != ""
    ensures name == if str[0] == '[' && ClassifyHeader(str).Header? then Some(ClassifyHeader(str).name) else None
  {
    if At(str, 0) != '[' {
      return None;
    }
    var i := 1;
    while At(str, i) != NUL && At(str, i) != ']'
      invariant 1 <= i <= |str| && ']' !in str[..i]
      decreases |str| - i
    {
      i := i + 1;
    }
    if At(str, i) != ']' {
      NotFound(str, ']');
      return None;
    }
    FindIs(str, ']', i);
    var end := i;
    i := i + 1;
    while At(str, i) == ' ' || At(str, i) == '\t'
      invariant end < i <= |str| && All(IsBlank, str[end + 1..i])
      decreases |str| - i
    {
      assert str[end + 1..i + 1] == str[end + 1..i] + [str[i]];
      i := i + 1;
    }
    if At(str, i) != NUL {
      assert str[end + 1..][i - end - 1] == str[i] && !IsBlank(str[i]);
      return None;
    }
    AtEnd(str, i);
    var alnum := NameIsAlnum(str, end);
    name := if alnum then Some(str[1..end]) else None;
  }

  /** The walk over the name of a header that closes at `end`. */
  method NameIsAlnum(str: string, end: nat) returns (ok: bool)
    requires NUL !in str && 1 <= end < |str|
    ensures ok <==> end > 1 && All(IsAlnum, str[1..end])
  {
    var g := 1;
    while At(str, g) != NUL && g != end - 1 && IsAlnum(At(str, g))
      invariant 1 <= g <= |str| && (end > 1 ==> g <= end - 1)
      invariant forall j :: 1 <= j < g ==> IsAlnum(str[j])
      decreases |str| - g
    {
      g := g + 1;
    }
    ok := g == end - 1 && IsAlnum(At(str, g));
    assert ok ==> forall j :: 0 <= j < end - 1 ==> str[1..end][j] == str[j + 1];
    assert !ok && end > 1 ==> str[1..end][g - 1] == str[g] && !IsAlnum(str[g]);
  }

  lemma {:induction false} NotFound(s: string, c: char)
    requires c !in s
    ensures Find(s, c) == |s|
  {
    if s != "" {
      NotFound(s[1..], c);
    }
  }

  method LineIsGrp(key_file: GroupTable, str: string, cur_grp: Option<string>) returns (ok: bool, grp: Option<string>)
    requires key_file.Valid() && NUL !in str && str != ""
    modifies key_file, key_file.grps_hash
    ensures key_file.Valid() && key_file.Grown()
    ensures var line := if str[0] == '[' then ClassifyHeader(str) else Bad;
      && (ok <==> line.Header? && line.name !in old(key_file.contents))
      && key_file.contents == (if ok then old(key_file.contents)[line.name := map[]] else old(key_file.contents))
      && grp == if ok then Some(line.name) else cur_grp
  {
    ok, grp := false, cur_grp;
    var name := HeaderName(str);
    if name.Some? {
      ok := key_file.AddGrp(name.value);
      if ok {
        grp := name;
      }
    }
  }

  /** The key and the value, if the line is a well-formed pair. */
  method KeyAndValue(str: string) returns (pair: Option<(string, string)>)
    requires NUL !in str
    ensures pair == match ClassifyPair(str) case Pair(k, v) => Some((k, v)) case _ => None
  {
    var equal_start := Find(str, '=');
    if equal_start == |str| || equal_start == 0 {
      return None;
    }
    var i := 0;
    while i != equal_start && IsAlnum(At(str, i))
      invariant 0 <= i <= equal_start && forall j :: 0 <= j < i ==> IsAlnum(str[j])
      decreases equal_start - i
    {
      i := i + 1;
    }
    if i == equal_start {
      pair := Some((str[..equal_start], str[equal_start + 1..]));
    } else {
      assert str[..equal_start][i] == str[i];
      pair := None;
    }
  }

  method LineIsKeyValuePair(key_file: GroupTable, str: string, cur_grp: Option<string>) returns (ok: bool)
    requires key_file.Valid() && NUL !in str
    modifies key_file.Footprint()
    ensures key_file.Valid() && key_file.Grown()
    ensures var line, was := ClassifyPair(str), old(key_file.contents);
      && (ok <==> line.Pair? && cur_grp.Some? && cur_grp.value != "" && cur_grp.value in was && line.key !in was[cur_grp.value])
      && key_file.contents ==
           if ok then was[cur_grp.value := was[cur_grp.value][line.key := line.value]] else was
  {
    ok := false;
    if cur_grp.Some? && cur_grp.value != "" {
      var pair := KeyAndValue(str);
      if pair.Some? {
        ok := key_file.AddKeyValuePair(cur_grp.value, pair.value.0, pair.value.1);
      }
    }
  }

  /** `cur_grp` never names the empty group: headers have a name. */
  method ParseLine(key_file: GroupTable, line: string, cur_grp: Option<string>) returns (ok: bool, grp: Option<string>)
    requires key_file.Valid() && NUL !in line && cur_grp != Some("")
    modifies key_file.Footprint()
    ensures key_file.Valid() && key_file.Grown()
    ensures var next := Apply(Config(old(key_file.contents), cur_grp), Classify(line));
      && (ok <==> next.Some?)
      && (ok ==> Config(key_file.contents, grp) == next.value)
      && (!ok ==> key_file.contents == old(key_file.contents))
    ensures grp != Some("")
  {
    hide GroupTable.Valid, ClassifyText;
    var line_begin := 0;
    while IsSpace(At(line, line_begin))
      invariant 0 <= line_begin <= |line| && SpaceUpTo(line, line_begin)
      decreases |line| - line_begin
    {
      assert line[..line_begin + 1] == line[..line_begin] + [line[line_begin]];
      line_begin := line_begin + 1;
    }
    assert line_begin < |line| ==> !IsSpace(line[line_begin]);
    SpaceEndIs(line, line_begin);
    ok, grp := ParseText(key_file, line[line_begin..], cur_grp);
  }

  method ParseText(key_file: GroupTable, str: string, cur_grp: Option<string>) returns (ok: bool, grp: Option<string>)
    requires key_file.Valid() && NUL !in str && cur_grp != Some("") && (str != "" ==> !IsSpace(str[0]))
    modifies key_file.Footprint()
    ensures key_file.Valid() && key_file.Grown()
    ensures var next := Apply(Config(old(key_file.contents), cur_grp), ClassifyText(str));
      && (ok <==> next.Some?)
      && (ok ==> Config(key_file.contents, grp) == next.value)
      && (!ok ==> key_file.contents == old(key_file.contents))
    ensures grp != Some("")
  {
    hide ClassifyHeader, ClassifyPair, GroupTable.Valid;
    PairsDoNotOpen(str);
    ghost var next := Apply(Config(key_file.contents, cur_grp), ClassifyText(str));
    var comment := LineIsComment(str);
    if comment {
      return true, cur_grp;
    }
    assert str[0] != '[' ==> ClassifyText(str) == ClassifyPair(str);
    ok, grp := LineIsGrp(key_file, str, cur_grp);
    assert str[0] == '[' ==> (ok <==> next.Some?) && (ok ==> Config(key_file.contents, grp) == next.value);
    if !ok {
      ok := LineIsKeyValuePair(key_file, str, cur_grp);
      assert str[0] == '[' ==> !ok;
    }
  }

  lemma PairsDoNotOpen(str: string)
    ensures str != "" && str[0] == '[' ==> ClassifyPair(str) == Bad
    ensures str != "" && str[0] == '[' && ClassifyHeader(str).Header? ==> ClassifyHeader(str).name != ""
    ensures str != "" && str[0] == '[' ==> ClassifyHeader(str).Header? || ClassifyHeader(str) == Bad
    ensures ClassifyPair(str).Pair? || ClassifyPair(str) == Bad
  {
    if str != "" && str[0] == '[' && Find(str, '=') > 0 {
      assert str[..Find(str, '=')][0] == '[';
    }
  }

  /** What `fread` delivers: blocks of any size, up to the first empty one. */
  function Delivered(blocks: seq<string>): string
  {
    if blocks == [] || blocks[0] == "" then "" else blocks[0] + Delivered(blocks[1..])
  }

  /** What the table holds when loading stops. */
  function GroupsOf(r: Reader): Groups
  {
    if r.Failed? then r.groups else r.cfg.groups
  }

  /**
   The reading loop, one byte at a time across block borders.  It ends where the byte-wise reader
   ends, so neither the table nor the verdict depends on the blocks.
   */
  method ParseLoadFrmFhandler(key_file: GroupTable, blocks: seq<string>) returns (ret: bool)
    requires key_file.Valid()
    modifies key_file.Footprint()
    ensures key_file.Valid() && key_file.Grown()
    ensures var r := FeedAll(Reading(Config(old(key_file.contents), None), "", false), Delivered(blocks));
      (ret <==> r.Reading?) && key_file.contents == GroupsOf(r)
  {
    hide GroupTable.Valid, Apply, Classify, FeedAll;
    NothingFed(Reading(Config(key_file.contents, None), "", false));
    ret := true;
    ghost var start := Reading(Config(key_file.contents, None), "", false);
    ghost var seen := "";
    var line, cur_grp, has_carriage_rtn := "", None, false;
    var k := 0;
    while ret && k < |blocks| && blocks[k] != ""
      invariant k <= |blocks| && key_file.Valid() && key_file.Grown() && cur_grp != Some("")
      invariant ret ==> seen + Delivered(blocks[k..]) == Delivered(blocks)
      invariant ret ==> FeedAll(start, seen) == Reading(Config(key_file.contents, cur_grp), line, has_carriage_rtn)
      invariant !ret ==> FeedAll(start, Delivered(blocks)) == Failed(key_file.contents)
      decreases |blocks| - k, ret
    {
      ret, line, cur_grp, has_carriage_rtn := ParseBlock(key_file, blocks[k], line, cur_grp, has_carriage_rtn);
      BlockStep(start, seen, blocks, k);
      seen := seen + blocks[k];
      k := k + 1;
    }
    assert ret ==> Delivered(blocks[k..]) == "" && seen + "" == seen;
  }

  lemma NothingFed(r: Reader)
    ensures FeedAll(r, "") == r
  {
  }

  /** Reading one more block reads its bytes on top of what was seen; once failed, the rest is not looked at. */
  lemma BlockStep(start: Reader, seen: string, blocks: seq<string>, k: nat)
    requires k < |blocks| && blocks[k] != ""
    ensures FeedAll(start, seen + blocks[k]) == FeedAll(FeedAll(start, seen), blocks[k])
    ensures seen + blocks[k] + Delivered(blocks[k + 1..]) == seen + Delivered(blocks[k..])
    ensures FeedAll(start, seen + blocks[k]).Failed?
      ==> FeedAll(start, seen + Delivered(blocks[k..])) == FeedAll(start, seen + blocks[k])
  {
    hide FeedAll;
    var rest := Delivered(blocks[k + 1..]);
    FeedAppend(start, seen, blocks[k]);
    FeedAppend(start, seen + blocks[k], rest);
    assert seen + blocks[k] + rest == seen + Delivered(blocks[k..]);
    if FeedAll(start, seen + blocks[k]).Failed? {
      FailedStays(FeedAll(start, seen + blocks[k]), rest);
    }
  }

  lemma {:induction false} FailedStays(r: Reader, s: string)
    requires r.Failed?
    ensures FeedAll(r, s) == r
  {
    if s != "" {
      FailedStays(r, s[..|s| - 1]);
    }
  }

  /** The bytes of one block. */
  method ParseBlock(key_file: GroupTable, buf: string, line0: string, cur_grp0: Option<string>, rtn0: bool)
    returns (ret: bool, line: string, cur_grp: Option<string>, has_carriage_rtn: bool)
    requires key_file.Valid() && cur_grp0 != Some("")
    modifies key_file.Footprint()
    ensures key_file.Valid() && key_file.Grown() && cur_grp != Some("")
    ensures FeedAll(Reading(Config(old(key_file.contents), cur_grp0), line0, rtn0), buf)
      == if ret then Reading(Config(key_file.contents, cur_grp), line, has_carriage_rtn) else Failed(key_file.contents)
  {
    hide GroupTable.Valid, Apply, Classify;
    ghost var start := Reading(Config(key_file.contents, cur_grp0), line0, rtn0);
    ret, line, cur_grp, has_carriage_rtn := true, line0, cur_grp0, rtn0;
    var i := 0;
    while ret && i < |buf|
      invariant i <= |buf| && key_file.Valid() && key_file.Grown() && cur_grp != Some("")
      invariant ret ==> FeedAll(start, buf[..i]) == Reading(Config(key_file.contents, cur_grp), line, has_carriage_rtn)
      invariant !ret ==> FeedAll(start, buf) == Failed(key_file.contents)
      decreases |buf| - i, ret
    {
      assert buf[..i + 1][..i] == buf[..i];
      if buf[i] == LF {
        has_carriage_rtn := false;
        ret, cur_grp := ParseLine(key_file, CString(line), cur_grp);
        line := "";
      } else if buf[i] == CR {
        has_carriage_rtn := true;
      } else if has_carriage_rtn {
        ret := false;
      } else {
        line := line + [buf[i]];
      }
      i := i + 1;
      if !ret {
        FeedAppend(start, buf[..i], buf[i..]);
        FailedStays(FeedAll(start, buf[..i]), buf[i..]);
        assert buf[..i] + buf[i..] == buf;
      }
    }
    assert buf[..|buf|] == buf;
  }

  /**
   Loading an opened file succeeds exactly when every carriage return is followed by a line feed or
   another one and each newline-terminated line is blank, a comment, a new header, or a new key under a
   current group; the table is then the fold of the lines, and holds exactly their pairs besides what it
   held before.  A file that cannot be opened (None) changes nothing.
   */
  method ParseLoadFile(key_file: GroupTable, file: Option<seq<string>>) returns (ret: bool)
    requires key_file.Valid()
    modifies key_file.Footprint()
    ensures key_file.Valid()
    ensures file.None? ==> !ret && key_file.contents == old(key_file.contents)
    ensures file.Some? ==>
      var text := Delivered(file.value);
      var lines := FoldLines(Config(old(key_file.contents), None), Lines(text));
      && (ret <==> CarriageReturnsOk(text) && lines.Some?)
      && (ret ==> key_file.contents == lines.value.groups)
    ensures file.Some? ==>
      var text := Delivered(file.value);
      var lines := Lines(text);
      && (ret <==> CarriageReturnsOk(text) && forall i :: 0 <= i < |lines| ==> Fine(old(key_file.contents), lines, i))
      && (ret ==> Holds(old(key_file.contents), lines, |lines|, Config(key_file.contents, GroupAt(lines, |lines|))))
  {
    ret := false;
    if file.Some? {
      hide Fine, Holds, FoldLines, CarriageReturnsOk, GroupTable.Valid;
      ghost var lines := Lines(Delivered(file.value));
      ReaderFoldsLines(Config(key_file.contents, None), Delivered(file.value));
      FoldIsExact(key_file.contents, lines, |lines|);
      assert lines[..|lines|] == lines;
      ret := ParseLoadFrmFhandler(key_file, file.value);
    }
  }
}
