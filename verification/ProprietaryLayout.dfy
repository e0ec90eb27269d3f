/**
 The layout of the proprietary file list: every line stands under the header of its file's first matching group, kept
 lines stay as they were, and the path of a line is found whatever is written around it.
 */
module ProprietaryLayout {
  import opened Common
  import opened PythonText
  import opened Proprietary

  // ---------------------------------------------------------------- the form of a line

  /** A line with a source path, attributes and a hash, each of them optional. */
  function Written(source: Option<string>, path: string, attributes: Option<string>, hash: Option<string>): string
  {
    (if source.Some? then source.value + ":" else "") + path
    + (if attributes.Some? then ";" + attributes.value else "")
    + (if hash.Some? then "|" + hash.value else "")
  }

  /** Only the hash may be anything; attributes may hold colons behind a source path. */
  predicate Writable(source: Option<string>, path: string, attributes: Option<string>)
  {
    && Plain(path)
    && (source.Some? ==> ':' !in source.value && '|' !in source.value)
    && (attributes.Some? ==> '|' !in attributes.value && (source.None? ==> ':' !in attributes.value))
  }

  lemma BeforeMark(s: string, c: char, rest: string)
    requires c !in s
    ensures Before(s, c) == s && Before(s + [c] + rest, c) == s
    ensures c in s + [c] + rest && After(s + [c] + rest, c) == rest
  {
    BeforeIs(s, c, s);
    BeforeIs(s + [c] + rest, c, s);
    assert (s + [c] + rest)[|s|] == c;
    assert (s + [c] + rest)[|s| + 1..] == rest;
  }

  /** A mark and what stands behind it, if anything. */
  function Tail(mark: char, rest: Option<string>): string
  {
    if rest.Some? then [mark] + rest.value else ""
  }

  lemma CutTail(s: string, c: char, rest: Option<string>)
    requires c !in s
    ensures Before(s + Tail(c, rest), c) == s
  {
    hide Before;
    if rest.Some? {
      BeforeMark(s, c, rest.value);
      assert s + Tail(c, rest) == s + [c] + rest.value;
    } else {
      BeforeIs(s, c, s);
      assert s + "" == s;
    }
  }

  lemma DestFound(source: Option<string>, dest: string)
    requires source.Some? ==> ':' !in source.value
    requires source.None? ==> ':' !in dest
    ensures var core := (if source.Some? then source.value + ":" else "") + dest;
      (if ':' in core then After(core, ':') else core) == dest
  {
    hide Before, After;
    if source.Some? {
      BeforeMark(source.value, ':', dest);
      assert (source.value + ":") + dest == source.value + [':'] + dest;
    } else {
      assert "" + dest == dest;
    }
  }

  lemma NoHashMark(source: Option<string>, path: string, attributes: Option<string>)
    requires Writable(source, path, attributes)
    ensures '|' !in (if source.Some? then source.value + ":" else "") + (path + Tail(';', attributes))
    ensures source.None? ==> ':' !in path + Tail(';', attributes)
  {
  }

  lemma WrittenIs(source: Option<string>, path: string, attributes: Option<string>, hash: Option<string>)
    ensures Written(source, path, attributes, hash)
      == (if source.Some? then source.value + ":" else "") + (path + Tail(';', attributes)) + Tail('|', hash)
  {
    assert attributes.Some? ==> ";" + attributes.value == [';'] + attributes.value;
    assert hash.Some? ==> "|" + hash.value == ['|'] + hash.value;
  }

  /** The path is found, whatever stands around it. */
  lemma PathIsFound(source: Option<string>, path: string, attributes: Option<string>, hash: Option<string>)
    requires Writable(source, path, attributes)
    ensures ParseDestPath(Written(source, path, attributes, hash)) == path
  {
    var dest := path + Tail(';', attributes);
    var core := (if source.Some? then source.value + ":" else "") + dest;
    WrittenIs(source, path, attributes, hash);
    NoHashMark(source, path, attributes);
    CutTail(core, '|', hash);
    DestFound(source, dest);
    CutTail(path, ';', attributes);
    hide Before, After, Tail, Written;
    assert ParseDestPath(core + Tail('|', hash)) == Before(dest, ';');
  }

  // ---------------------------------------------------------------- the index of the old list

  ghost predicate LastLineFor(entries: seq<string>, path: string, i: int)
  {
    0 <= i < |entries| && ParseDestPath(entries[i]) == path
    && forall j :: i < j < |entries| ==> ParseDestPath(entries[j]) != path
  }

  /** The old list is known by its paths, and the last line for a path is the one kept. */
  lemma {:induction false} IndexIsLast(entries: seq<string>, path: string)
    ensures path in Index(entries) <==> exists i :: LastLineFor(entries, path, i)
    ensures forall i :: LastLineFor(entries, path, i) ==> Index(entries)[path] == entries[i]
  {
    hide ParseDestPath;
    if entries != [] {
      var n := |entries| - 1;
      IndexIsLast(entries[..n], path);
      if ParseDestPath(entries[n]) == path {
        assert LastLineFor(entries, path, n);
      } else {
        assert forall i :: LastLineFor(entries[..n], path, i) <==> LastLineFor(entries, path, i);
      }
    }
  }

  // ---------------------------------------------------------------- what is built for a file

  /** The line for a file: the kept one; else an exact one, or the path with its attributes; else by the kind of its name. */
  lemma LineFor(t: Tables, path: string, references: map<string, string>)
    ensures BuildEntry(t, path, references) ==
      if path in references then references[path]
      else if path in t.exact then t.exact[path]
      else if path in t.suffixes then path + t.suffixes[path]
      else if "vendor/lib/libchromatix_" <= path && |path| >= 3 && path[|path| - 3..] == ".so" then path + ";DISABLE_CHECKELF"
      else path
  {
  }

  // ---------------------------------------------------------------- the layout

  /** A line with the header it stands under. */
  datatype Placed = Placed(header: string, line: string)

  /** The last comment among the lines, or nothing. */
  function HeaderOver(lines: seq<string>): string
  {
    if lines == [] then ""
    else
      var last := lines[|lines| - 1];
      if last != "" && last[0] == '#' then last else HeaderOver(lines[..|lines| - 1])
  }

  function Layout(lines: seq<string>): seq<Placed>
  {
    if lines == [] then []
    else
      var before, last := lines[..|lines| - 1], lines[|lines| - 1];
      if last == "" || last[0] == '#' then Layout(before) else Layout(before) + [Placed(HeaderOver(before), last)]
  }

  /** The header of the file's group, or the one for the files left over. */
  function HeaderOf(t: Tables, f: string): string
  {
    var g := GroupOf(f, t.groups);
    if g < |t.groups| then t.groups[g].header else "# Ungrouped"
  }

  /** The prefix begins the path. */
  predicate Begins(prefix: string, path: string)
  {
    |prefix| <= |path| && path[..|prefix|] == prefix
  }

  /** Some prefix of the group begins the file's path. */
  predicate StartsIn(t: Tables, f: string, g: int)
  {
    0 <= g < |t.groups| && exists i :: 0 <= i < |t.groups[g].prefixes| && Begins(t.groups[g].prefixes[i], f)
  }

  lemma StartsWhereMatching(t: Tables, f: string, g: nat)
    requires g < |t.groups|
    ensures StartsIn(t, f, g) <==> Matches(f, t.groups[g].prefixes)
  {
    var prefixes := t.groups[g].prefixes;
    assert forall i :: 0 <= i < |prefixes| ==> (Begins(prefixes[i], f) <==> prefixes[i] <= f);
  }

  ghost predicate FirstStart(t: Tables, f: string, g: int)
  {
    StartsIn(t, f, g) && forall k :: k < g ==> !StartsIn(t, f, k)
  }

  lemma FirstGroup(t: Tables, f: string)
    ensures if exists g :: StartsIn(t, f, g)
            then exists g :: FirstStart(t, f, g) && HeaderOf(t, f) == t.groups[g].header
            else HeaderOf(t, f) == "# Ungrouped"
  {
    hide GroupOf, Matches, StartsIn;
    var g := GroupOf(f, t.groups);
    forall k: nat | k < |t.groups| ensures StartsIn(t, f, k) <==> Matches(f, t.groups[k].prefixes) {
      StartsWhereMatching(t, f, k);
    }
    NoOtherStarts(t, f);
    if g < |t.groups| {
      assert FirstStart(t, f, g);
    }
  }

  lemma NoOtherStarts(t: Tables, f: string)
    ensures forall k :: StartsIn(t, f, k) ==> 0 <= k < |t.groups|
  {
  }

  function PlacedAt(t: Tables, files: seq<string>, references: map<string, string>): (r: seq<Placed>)
    ensures |r| == |files|
    ensures forall i :: 0 <= i < |files| ==> r[i] == Placed(HeaderOf(t, files[i]), BuildEntry(t, files[i], references))
  {
    seq(|files|, i requires 0 <= i < |files| => Placed(HeaderOf(t, files[i]), BuildEntry(t, files[i], references)))
  }

  lemma LayoutOneMore(before: seq<string>, line: string)
    requires line != ""
    ensures var all := before + [line];
      if line[0] == '#' then HeaderOver(all) == line && Layout(all) == Layout(before)
      else HeaderOver(all) == HeaderOver(before) && Layout(all) == Layout(before) + [Placed(HeaderOver(before), line)]
  {
    assert (before + [line])[..|before|] == before;
  }

  function Under(header: string, lines: seq<string>): seq<Placed>
  {
    if lines == [] then [] else Under(header, lines[..|lines| - 1]) + [Placed(header, lines[|lines| - 1])]
  }

  lemma {:induction false} UnderIs(header: string, lines: seq<string>)
    ensures |Under(header, lines)| == |lines| && forall i :: 0 <= i < |lines| ==> Under(header, lines)[i] == Placed(header, lines[i])
  {
    if lines != [] {
      UnderIs(header, lines[..|lines| - 1]);
    }
  }

  lemma {:induction false} LayoutLines(before: seq<string>, header: string, lines: seq<string>)
    requires CommentLine(header) && EntryLines(lines)
    ensures var all := before + [header] + lines;
      HeaderOver(all) == header && Layout(all) == Layout(before) + Under(header, lines)
  {
    hide Layout, HeaderOver;
    if lines == [] {
      LayoutOneMore(before, header);
      assert before + [header] + lines == before + [header];
    } else {
      var n := |lines| - 1;
      LayoutLines(before, header, lines[..n]);
      assert EntryLine(lines[n]);
      LayoutOneMore(before + [header] + lines[..n], lines[n]);
      assert before + [header] + lines == before + [header] + lines[..n] + [lines[n]];
    }
  }

  lemma LayoutBlank(lines: seq<string>)
    ensures Layout(lines + [""]) == Layout(lines) && HeaderOver(lines + [""]) == HeaderOver(lines)
  {
    assert (lines + [""])[..|lines|] == lines;
  }

  lemma {:induction false} LayoutComments(lines: seq<string>)
    requires forall i :: 0 <= i < |lines| ==> CommentLine(lines[i]) || lines[i] == ""
    ensures Layout(lines) == []
  {
    if lines != [] {
      LayoutComments(lines[..|lines| - 1]);
    }
  }

  lemma LayoutBlock(t: Tables, before: seq<string>, placed: seq<Placed>, header: string, members: seq<string>, references: map<string, string>)
    requires GoodTables(t) && GoodReferences(references) && GoodFiles(members, references) && CommentLine(header)
    requires Layout(before) == placed && forall f :: f in members ==> HeaderOf(t, f) == header
    ensures Layout(before + Block(t, header, members, references)) == placed + PlacedAt(t, members, references)
  {
    hide GoodTables, GoodReferences, GoodFiles, BuildEntry, BuildEntries, EntryLines, CommentLine, Layout, HeaderOver, HeaderOf, Under, PlacedAt;
    var block := Block(t, header, members, references);
    if members == [] {
      assert before + block == before;
    } else {
      var lines := BuildEntries(t, members, references);
      BuiltAreEntries(t, members, references);
      LayoutLines(before, header, lines);
      LayoutBlank(before + [header] + lines);
      assert before + block == before + [header] + lines + [""];
      UnderIs(header, lines);
      forall i | 0 <= i < |members| ensures Under(header, lines)[i] == PlacedAt(t, members, references)[i] {
        assert members[i] in members;
      }
      assert Under(header, lines) == PlacedAt(t, members, references);
    }
  }

  lemma PlacedAppend(t: Tables, a: seq<string>, b: seq<string>, references: map<string, string>)
    ensures PlacedAt(t, a + b, references) == PlacedAt(t, a, references) + PlacedAt(t, b, references)
  {
    hide BuildEntry, HeaderOf;
  }

  lemma MembersHeader(t: Tables, files: seq<string>, g: nat)
    requires g <= |t.groups|
    ensures forall f :: f in Members(files, t.groups, g) ==>
      HeaderOf(t, f) == if g < |t.groups| then t.groups[g].header else "# Ungrouped"
  {
    hide GroupOf;
  }

  lemma {:induction false} LayoutBlocks(t: Tables, files: seq<string>, references: map<string, string>, upto: nat)
    requires GoodTables(t) && GoodReferences(references) && GoodFiles(files, references) && upto <= |t.groups|
    ensures Layout(Blocks(t, files, references, upto)) == PlacedAt(t, Arranged(files, t.groups, upto), references)
  {
    hide GoodReferences, GoodFiles, Block, BuildEntry, Members, CommentLine, Layout, HeaderOf, PlacedAt;
    if upto == 0 {
      LayoutComments(t.title);
      NothingPlaced(t, references);
    } else {
      var g := upto - 1;
      LayoutBlocks(t, files, references, g);
      hide GoodTables;
      MembersHeader(t, files, g);
      MembersAreGood(files, t.groups, references);
      GoodHeader(t, g);
      LayoutBlock(t, Blocks(t, files, references, g), PlacedAt(t, Arranged(files, t.groups, g), references),
                  t.groups[g].header, Members(files, t.groups, g), references);
      PlacedAppend(t, Arranged(files, t.groups, g), Members(files, t.groups, g), references);
    }
  }

  lemma GoodHeader(t: Tables, g: nat)
    requires GoodTables(t) && g < |t.groups|
    ensures CommentLine(t.groups[g].header)
  {
    hide CommentLine;
  }

  lemma NothingPlaced(t: Tables, references: map<string, string>)
    ensures PlacedAt(t, [], references) == []
  {
  }

  lemma LayoutOutput(t: Tables, files: seq<string>, references: map<string, string>)
    requires GoodTables(t) && GoodReferences(references) && GoodFiles(files, references)
    ensures Layout(Output(t, files, references)) == PlacedAt(t, Arranged(files, t.groups, |t.groups| + 1), references)
  {
    hide GoodTables, GoodReferences, GoodFiles, Block, BuildEntry, Members, CommentLine, Layout, HeaderOf, PlacedAt;
    var n := |t.groups|;
    LayoutBlocks(t, files, references, n);
    MembersHeader(t, files, n);
    MembersAreGood(files, t.groups, references);
    UngroupedIsComment();
    LayoutBlock(t, Blocks(t, files, references, n), PlacedAt(t, Arranged(files, t.groups, n), references),
                UNGROUPED, Members(files, t.groups, n), references);
    PlacedAppend(t, Arranged(files, t.groups, n), Members(files, t.groups, n), references);
  }

  /**
   In the list that is written, every file's line stands under the header of its first matching group, the groups in
   their order and the files of each in theirs, and no other line stands anywhere.
   */
  lemma ListLayout(t: Tables, files: seq<string>, previous: Option<string>)
    requires GoodTables(t) && GoodFiles(files, References(previous))
    ensures Layout(SplitLines(Regenerated(t, files, previous)))
      == PlacedAt(t, Arranged(files, t.groups, |t.groups| + 1), References(previous))
  {
    hide GoodTables, GoodReferences, GoodFiles, References, Layout, Output, PlacedAt, Join, RStrip, Pieces, IsBreak, IsSpace, BreakFree, Entries;
    ReferencesAreGood(previous);
    OutputReads(t, files, References(previous));
    LayoutOutput(t, files, References(previous));
    var lines := Output(t, files, References(previous));
    var n := |lines| - 1;
    RStripJoin(lines);
    PiecesOfJoin(lines);
    LayoutBlank(lines[..n]);
    assert lines == lines[..n] + [""];
  }

  /** So whatever line a file had in the old list, it has in the new one. */
  lemma KeptLinesStay(t: Tables, files: seq<string>, previous: Option<string>, f: string)
    requires GoodTables(t) && GoodFiles(files, References(previous)) && f in files && f in References(previous)
    ensures Placed(HeaderOf(t, f), References(previous)[f]) in Layout(SplitLines(Regenerated(t, files, previous)))
  {
    hide GoodTables, GoodFiles, References, Regenerated, Layout, SplitLines, HeaderOf, Arranged;
    ListLayout(t, files, previous);
    ArrangedMembers(files, t.groups);
    var arranged := Arranged(files, t.groups, |t.groups| + 1);
    var i :| 0 <= i < |arranged| && arranged[i] == f;
    assert PlacedAt(t, arranged, References(previous))[i] == Placed(HeaderOf(t, f), References(previous)[f]);
  }
}
