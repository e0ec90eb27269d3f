/**
 The language of the FM configuration file: what each line means, and what a file means as a fold
 over its newline-terminated lines.
 */
module ConfSyntax {
  import opened Common

  const NUL: char := '\0'
  const CR: char := '\r'
  const LF: char := '\n'

  predicate IsSpace(c: char)
  {
    c == ' ' || '\t' <= c <= '\r'
  }

  predicate IsAlnum(c: char)
  {
    '0' <= c <= '9' || 'A' <= c <= 'Z' || 'a' <= c <= 'z'
  }

  predicate IsBlank(c: char)
  {
    c == ' ' || c == '\t'
  }

  predicate All(p: char -> bool, s: string)
  {
    forall i :: 0 <= i < |s| ==> p(s[i])
  }

  /** The C string at the start of a buffer. */
  function CString(s: string): (r: string)
    ensures |r| <= |s| && r == s[..|r|] && NUL !in r && (|r| < |s| ==> s[|r|] == NUL)
  {
    if s == "" || s[0] == NUL then "" else [s[0]] + CString(s[1..])
  }

  /** The first position of a character, or the length. */
  function Find(s: string, c: char): (i: nat)
    ensures i <= |s| && c !in s[..i] && (i < |s| ==> s[i] == c)
  {
    if s == "" || s[0] == c then 0 else
      assert s[..1 + Find(s[1..], c)] == [s[0]] + s[1..][..Find(s[1..], c)];
      1 + Find(s[1..], c)
  }

  /** The first position that is not white space, or the length. */
  function SpaceEnd(s: string): (i: nat)
    ensures i <= |s| && All(IsSpace, s[..i]) && (i < |s| ==> !IsSpace(s[i]))
  {
    if s == "" || !IsSpace(s[0]) then 0 else 1 + SpaceEnd(s[1..])
  }

  // ---------------------------------------------------------------- lines

  datatype Line = Nothing | Header(name: string) | Pair(key: string, value: string) | Bad

  function Classify(line: string): Line
  {
    ClassifyText(line[SpaceEnd(line)..])
  }

  /** A line from its first character that is not white space. */
  function ClassifyText(s: string): Line
  {
    if s == "" || s[0] == '#' then Nothing
    else if s[0] == '[' then ClassifyHeader(s)
    else ClassifyPair(s)
  }

  function ClassifyHeader(s: string): Line
    requires s != "" && s[0] == '['
  {
    var e := Find(s, ']');
    if e == |s| || !All(IsBlank, s[e + 1..]) || e == 1 || !All(IsAlnum, s[1..e]) then Bad else Header(s[1..e])
  }

  function ClassifyPair(s: string): Line
  {
    var e := Find(s, '=');
    if e == |s| || e == 0 || !All(IsAlnum, s[..e]) then Bad else Pair(s[..e], s[e + 1..])
  }

  // The grammar the comments of the file describe, as a relation between a line and what it says.

  predicate HeaderText(s: string, name: string)
  {
    name != "" && All(IsAlnum, name) && "[" + name + "]" <= s && All(IsBlank, s[|name| + 2..])
  }

  predicate PairText(s: string, key: string, value: string)
  {
    key != "" && All(IsAlnum, key) && s == key + "=" + value
  }

  predicate NothingText(s: string)
  {
    s == "" || (s[0] == '#')
  }

  /** The line is white space up to here. */
  predicate SpaceUpTo(line: string, i: int)
  {
    0 <= i <= |line| && All(IsSpace, line[..i])
  }

  ghost predicate IsHeaderLine(line: string, name: string)
  {
    exists i :: SpaceUpTo(line, i) && HeaderText(line[i..], name)
  }

  ghost predicate IsPairLine(line: string, key: string, value: string)
  {
    exists i :: SpaceUpTo(line, i) && PairText(line[i..], key, value)
  }

  ghost predicate IsNothingLine(line: string)
  {
    exists i :: SpaceUpTo(line, i) && NothingText(line[i..])
  }

  lemma {:induction false} SpaceEndIs(line: string, i: nat)
    requires SpaceUpTo(line, i) && (i < |line| ==> !IsSpace(line[i]))
    ensures SpaceEnd(line) == i
  {
    if i > 0 {
      assert IsSpace(line[..i][0]) && line[1..][..i - 1] == line[..i][1..];
      SpaceEndIs(line[1..], i - 1);
    }
  }

  lemma {:induction false} FindIs(s: string, c: char, i: nat)
    requires i < |s| && s[i] == c && c !in s[..i]
    ensures Find(s, c) == i
  {
    if i > 0 {
      assert s[..i][0] != c && s[1..][..i - 1] == s[..i][1..];
      FindIs(s[1..], c, i - 1);
    }
  }

  lemma HeaderIsClassified(s: string, name: string)
    requires HeaderText(s, name)
    ensures s != "" && s[0] == '[' && ClassifyHeader(s) == Header(name)
  {
    var h := "[" + name + "]";
    assert s[|name| + 1] == h[|name| + 1] && s[..|name| + 1] == h[..|name| + 1] == "[" + name;
    assert ']' !in name by {
      assert forall j :: 0 <= j < |name| ==> IsAlnum(name[j]);
    }
    FindIs(s, ']', |name| + 1);
    assert s[1..|name| + 1] == name;
  }

  lemma ClassifiedIsHeader(s: string, name: string)
    requires s != "" && s[0] == '[' && ClassifyHeader(s) == Header(name)
    ensures HeaderText(s, name)
  {
    var e := Find(s, ']');
    assert "[" + name + "]" == s[..e + 1];
  }

  /** The scanner's verdict is the grammar's: headers. */
  lemma ClassifiesHeaders(line: string, name: string)
    ensures Classify(line) == Header(name) <==> IsHeaderLine(line, name)
  {
    hide ClassifyHeader, HeaderText;
    var e := SpaceEnd(line);
    if Classify(line) == Header(name) {
      ClassifiedIsHeader(line[e..], name);
      assert SpaceUpTo(line, e) && HeaderText(line[e..], name);
    }
    if IsHeaderLine(line, name) {
      var i: nat :| SpaceUpTo(line, i) && HeaderText(line[i..], name);
      HeaderIsClassified(line[i..], name);
      SpaceEndIs(line, i);
    }
  }

  lemma PairIsClassified(s: string, key: string, value: string)
    requires PairText(s, key, value)
    ensures s != "" && IsAlnum(s[0]) && ClassifyPair(s) == Pair(key, value)
  {
    assert s[0] == key[0] && s[..|key|] == key && s[|key| + 1..] == value;
    forall j | 0 <= j < |key| ensures s[..|key|][j] != '=' {
      assert IsAlnum(key[j]);
    }
    FindIs(s, '=', |key|);
  }

  lemma ClassifiedIsPair(s: string, key: string, value: string)
    requires ClassifyPair(s) == Pair(key, value)
    ensures PairText(s, key, value)
  {
    assert s == s[..Find(s, '=')] + "=" + s[Find(s, '=') + 1..];
  }

  /** The scanner's verdict is the grammar's: key-value pairs. */
  lemma ClassifiesPairs(line: string, key: string, value: string)
    ensures Classify(line) == Pair(key, value) <==> IsPairLine(line, key, value)
  {
    hide ClassifyPair, ClassifyHeader, PairText;
    var e := SpaceEnd(line);
    if Classify(line) == Pair(key, value) {
      HeadersAreNotPairs(line[e..], key, value);
      ClassifiedIsPair(line[e..], key, value);
      assert SpaceUpTo(line, e) && PairText(line[e..], key, value);
    }
    if IsPairLine(line, key, value) {
      var i: nat :| SpaceUpTo(line, i) && PairText(line[i..], key, value);
      PairIsClassified(line[i..], key, value);
      SpaceEndIs(line, i);
    }
  }

  lemma HeadersAreNotPairs(s: string, key: string, value: string)
    ensures s != "" && s[0] == '[' ==> ClassifyHeader(s) != Pair(key, value)
  {
  }

  /** The scanner's verdict is the grammar's: blank lines and comments. */
  lemma ClassifiesNothing(line: string)
    ensures Classify(line) == Nothing <==> IsNothingLine(line)
  {
    var e := SpaceEnd(line);
    if Classify(line) == Nothing {
      assert SpaceUpTo(line, e);
    }
    if IsNothingLine(line) {
      var i: nat :| SpaceUpTo(line, i) && NothingText(line[i..]);
      SpaceEndIs(line, i);
    }
  }

  // ---------------------------------------------------------------- files

  type Groups = map<string, map<string, string>>

  /** The groups so far and the group that key-value pairs go to. */
  datatype Config = Config(groups: Groups, current: Option<string>)

  /** What a line does; None where parsing stops. */
  function Apply(cfg: Config, line: Line): Option<Config>
  {
    match line
    case Nothing => Some(cfg)
    case Header(name) => if name in cfg.groups then None else Some(Config(cfg.groups[name := map[]], Some(name)))
    case Pair(key, value) =>
      if cfg.current.None? || cfg.current.value !in cfg.groups || key in cfg.groups[cfg.current.value] then None
      else Some(cfg.(groups := cfg.groups[cfg.current.value := cfg.groups[cfg.current.value][key := value]]))
    case Bad => None
  }

  /** The byte-wise reader: a line under way, and whether a carriage return waits for its line feed. */
  datatype Reader = Reading(cfg: Config, line: string, hasCarriageRtn: bool) | Failed(groups: Groups)

  function Feed(r: Reader, c: char): Reader
  {
    if r.Failed? then r
    else if c == LF then
      var next := Apply(r.cfg, Classify(CString(r.line)));
      if next.Some? then Reading(next.value, "", false) else Failed(r.cfg.groups)
    else if c == CR then r.(hasCarriageRtn := true)
    else if r.hasCarriageRtn then Failed(r.cfg.groups)
    else r.(line := r.line + [c])
  }

  function FeedAll(r: Reader, s: string): Reader
  {
    if s == "" then r else Feed(FeedAll(r, s[..|s| - 1]), s[|s| - 1])
  }

  lemma {:induction false} FeedAppend(r: Reader, s: string, t: string)
    ensures FeedAll(r, s + t) == FeedAll(FeedAll(r, s), t)
  {
    if t == "" {
      assert s + t == s;
    } else {
      FeedAppend(r, s, t[..|t| - 1]);
      assert (s + t)[..|s + t| - 1] == s + t[..|t| - 1];
    }
  }

  // The same without a reader: split into lines, then fold.

  /** The text behind the last line feed, without carriage returns. */
  function Unfinished(s: string): string
  {
    if s == "" then ""
    else
      var c := s[|s| - 1];
      if c == LF then "" else if c == CR then Unfinished(s[..|s| - 1]) else Unfinished(s[..|s| - 1]) + [c]
  }

  /** The newline-terminated lines, as C strings without carriage returns. */
  function Lines(s: string): seq<string>
  {
    if s == "" then []
    else
      var before := s[..|s| - 1];
      if s[|s| - 1] == LF then Lines(before) + [CString(Unfinished(before))] else Lines(before)
  }

  function FoldLines(cfg: Config, lines: seq<string>): Option<Config>
  {
    if lines == [] then Some(cfg)
    else
      var before := FoldLines(cfg, lines[..|lines| - 1]);
      if before.None? then None else Apply(before.value, Classify(lines[|lines| - 1]))
  }

  // And without a fold: what each line must be, and what the table then holds.

  predicate HeaderAt(lines: seq<string>, i: int, g: string)
  {
    0 <= i < |lines| && Classify(lines[i]) == Header(g)
  }

  /** The group that the last header among the first n lines names. */
  function GroupAt(lines: seq<string>, n: nat): Option<string>
    requires n <= |lines|
  {
    if n == 0 then None
    else if Classify(lines[n - 1]).Header? then Some(Classify(lines[n - 1]).name)
    else GroupAt(lines, n - 1)
  }

  predicate PairAt(lines: seq<string>, i: int, g: string, key: string)
  {
    0 <= i < |lines| && Classify(lines[i]).Pair? && Classify(lines[i]).key == key && GroupAt(lines, i) == Some(g)
  }

  /** Blank or a comment, a header with a new name, or a new key under a current group. */
  ghost predicate Fine(groups: Groups, lines: seq<string>, i: nat)
    requires i < |lines|
  {
    match Classify(lines[i])
    case Nothing => true
    case Header(g) => g !in groups && forall j :: 0 <= j < i ==> !HeaderAt(lines, j, g)
    case Pair(key, _) =>
      GroupAt(lines, i).Some? && forall j :: 0 <= j < i ==> !PairAt(lines, j, GroupAt(lines, i).value, key)
    case Bad => false
  }

  ghost predicate HasHeader(lines: seq<string>, n: nat, g: string)
  {
    exists i :: 0 <= i < n && HeaderAt(lines, i, g)
  }

  ghost predicate HasPair(lines: seq<string>, n: nat, g: string, key: string)
  {
    exists i :: 0 <= i < n && PairAt(lines, i, g, key)
  }

  /** The table holds the old groups as they were and, in new ones, exactly the pairs of the first n lines. */
  ghost predicate Holds(groups: Groups, lines: seq<string>, n: nat, cfg: Config)
    requires n <= |lines|
  {
    && cfg.current == GroupAt(lines, n)
    && (cfg.current.Some? ==> cfg.current.value in cfg.groups && cfg.current.value !in groups)
    && (forall g :: g in cfg.groups <==> g in groups || HasHeader(lines, n, g))
    && (forall g :: g in groups ==> cfg.groups[g] == groups[g])
    && (forall g, key :: g in cfg.groups && g !in groups ==> (key in cfg.groups[g] <==> HasPair(lines, n, g, key)))
    && (forall i, g, key :: 0 <= i < n && PairAt(lines, i, g, key) ==>
          g in cfg.groups && g !in groups && key in cfg.groups[g] && cfg.groups[g][key] == Classify(lines[i]).value)
  }

  /** Lines fold without a stop exactly when each of them is fine, and the table is what they say. */
  lemma {:induction false} FoldIsExact(groups: Groups, lines: seq<string>, n: nat)
    requires n <= |lines|
    ensures var r := FoldLines(Config(groups, None), lines[..n]);
      && (r.Some? <==> forall i :: 0 <= i < n ==> Fine(groups, lines, i))
      && (r.Some? ==> Holds(groups, lines, n, r.value))
  {
    hide Classify;
    if n > 0 {
      assert lines[..n][..n - 1] == lines[..n - 1];
      FoldIsExact(groups, lines, n - 1);
      var before := FoldLines(Config(groups, None), lines[..n - 1]);
      if before.Some? {
        OneMoreLine(groups, lines, n - 1, before.value);
      }
    }
  }

  lemma HasOneMore(lines: seq<string>, i: nat)
    requires i < |lines|
    ensures forall g :: HasHeader(lines, i + 1, g) <==> HasHeader(lines, i, g) || HeaderAt(lines, i, g)
    ensures forall g, key :: HasPair(lines, i + 1, g, key) <==> HasPair(lines, i, g, key) || PairAt(lines, i, g, key)
    ensures forall g :: HasHeader(lines, i, g) <==> !(forall j :: 0 <= j < i ==> !HeaderAt(lines, j, g))
    ensures forall g, key :: HasPair(lines, i, g, key) <==> !(forall j :: 0 <= j < i ==> !PairAt(lines, j, g, key))
  {
    hide HeaderAt, PairAt;
  }

  /** A group has a header before the pairs under it. */
  lemma {:induction false} GroupHasHeader(lines: seq<string>, i: nat)
    requires i <= |lines| && GroupAt(lines, i).Some?
    ensures HasHeader(lines, i, GroupAt(lines, i).value)
  {
    hide Classify;
    HasOneMore(lines, i - 1);
    if Classify(lines[i - 1]).Header? {
      assert HeaderAt(lines, i - 1, GroupAt(lines, i).value);
    } else {
      GroupHasHeader(lines, i - 1);
    }
  }

  lemma {:induction false} NoPairsWithoutHeader(lines: seq<string>, i: nat, g: string, key: string)
    requires i <= |lines| && HasPair(lines, i, g, key)
    ensures HasHeader(lines, i, g)
  {
    hide Classify;
    HasOneMore(lines, i - 1);
    if PairAt(lines, i - 1, g, key) {
      GroupHasHeader(lines, i - 1);
    } else {
      NoPairsWithoutHeader(lines, i - 1, g, key);
    }
  }

  lemma OneMoreHeader(groups: Groups, lines: seq<string>, i: nat, cfg: Config, g: string)
    requires i < |lines| && Holds(groups, lines, i, cfg) && Classify(lines[i]) == Header(g) && g !in cfg.groups
    ensures Holds(groups, lines, i + 1, Config(cfg.groups[g := map[]], Some(g)))
  {
    hide Classify, HasHeader, HasPair;
    HasOneMore(lines, i);
    forall key ensures !HasPair(lines, i, g, key) {
      if HasPair(lines, i, g, key) {
        NoPairsWithoutHeader(lines, i, g, key);
      }
    }
    assert forall h :: HeaderAt(lines, i, h) <==> h == g;
    assert forall h, key :: !PairAt(lines, i, h, key);
    var next := Config(cfg.groups[g := map[]], Some(g));
    forall h, key | h in next.groups && h !in groups ensures key in next.groups[h] <==> HasPair(lines, i + 1, h, key) {
      assert HasPair(lines, i + 1, h, key) <==> HasPair(lines, i, h, key);
      assert h != g ==> next.groups[h] == cfg.groups[h];
    }
  }

  lemma OneMorePair(groups: Groups, lines: seq<string>, i: nat, cfg: Config, key: string, value: string)
    requires i < |lines| && Holds(groups, lines, i, cfg) && Classify(lines[i]) == Pair(key, value)
    requires cfg.current.Some? && key !in cfg.groups[cfg.current.value]
    ensures var g := cfg.current.value;
      Holds(groups, lines, i + 1, cfg.(groups := cfg.groups[g := cfg.groups[g][key := value]]))
  {
    hide Classify, HasHeader, HasPair;
    HasOneMore(lines, i);
  }

  lemma OneMoreLine(groups: Groups, lines: seq<string>, i: nat, cfg: Config)
    requires i < |lines| && Holds(groups, lines, i, cfg)
    ensures var next := Apply(cfg, Classify(lines[i]));
      (next.Some? <==> Fine(groups, lines, i)) && (next.Some? ==> Holds(groups, lines, i + 1, next.value))
  {
    hide Classify, HasHeader, HasPair, HeaderAt, PairAt;
    HasOneMore(lines, i);
    match Classify(lines[i])
    case Nothing => OneMoreNothing(groups, lines, i, cfg);
    case Header(g) =>
      if g !in cfg.groups {
        OneMoreHeader(groups, lines, i, cfg, g);
      }
    case Pair(key, value) =>
      if cfg.current.Some? && key !in cfg.groups[cfg.current.value] {
        OneMorePair(groups, lines, i, cfg, key, value);
      }
    case Bad =>
  }

  lemma OneMoreNothing(groups: Groups, lines: seq<string>, i: nat, cfg: Config)
    requires i < |lines| && Holds(groups, lines, i, cfg) && Classify(lines[i]) == Nothing
    ensures Holds(groups, lines, i + 1, cfg)
  {
    hide Classify, HasHeader, HasPair;
    HasOneMore(lines, i);
  }

  /** Every carriage return that something follows is followed by a line feed or another one. */
  predicate CarriageReturnsOk(s: string)
  {
    forall i :: 0 <= i < |s| - 1 && s[i] == CR ==> s[i + 1] == LF || s[i + 1] == CR
  }

  /** The reader's state, in terms of lines. */
  lemma {:induction false} ReaderFoldsLines(cfg: Config, s: string)
    ensures var r, lines := FeedAll(Reading(cfg, "", false), s), FoldLines(cfg, Lines(s));
      && (r.Reading? <==> CarriageReturnsOk(s) && lines.Some?)
      && (r.Reading? ==> r.cfg == lines.value && r.line == Unfinished(s)
                         && (r.hasCarriageRtn <==> s != "" && s[|s| - 1] == CR))
  {
    if s != "" {
      var n := |s| - 1;
      var before := s[..n];
      ReaderFoldsLines(cfg, before);
      OneMoreCharacter(s);
      if s[n] == LF {
        var line := CString(Unfinished(before));
        assert (Lines(before) + [line])[..|Lines(before)|] == Lines(before);
      }
    }
  }

  lemma OneMoreCharacter(s: string)
    requires s != ""
    ensures var before, c := s[..|s| - 1], s[|s| - 1];
      CarriageReturnsOk(s) <==>
        CarriageReturnsOk(before) && (before != "" && before[|before| - 1] == CR ==> c == LF || c == CR)
  {
    var n := |s| - 1;
    var before := s[..n];
    if CarriageReturnsOk(s) {
      forall i | 0 <= i < n - 1 && before[i] == CR ensures before[i + 1] == LF || before[i + 1] == CR {
        assert s[i] == CR;
      }
    }
    if CarriageReturnsOk(before) && (before != "" && before[|before| - 1] == CR ==> s[n] == LF || s[n] == CR) {
      forall i | 0 <= i < n && s[i] == CR ensures s[i + 1] == LF || s[i + 1] == CR {
        assert before[i] == CR;
      }
    }
  }
}
