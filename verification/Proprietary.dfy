/**
 The generator of the proprietary file list: lines are kept from the old list by the path they install to, files
 are grouped by prefix, and the list it writes is the one it reads on its next run.
 */
module Proprietary {
  import opened Common
  import opened PythonText

  datatype Group = Group(header: string, prefixes: seq<string>)

  /** The literal tables of the script. */
  datatype Tables = Tables(title: seq<string>, groups: seq<Group>, exact: map<string, string>, suffixes: map<string, string>)

  const UNGROUPED := "# Ungrouped"
  const CHROMATIX_PREFIX := "vendor/lib/libchromatix_"
  const CHROMATIX_SUFFIX := ".so"
  const DISABLE_CHECKELF := ";DISABLE_CHECKELF"

  // ---------------------------------------------------------------- entries

  /** The path a line installs to: without its hash, without a source path, without its attributes. */
  function ParseDestPath(entry: string): string
  {
    var core := Before(entry, '|');
    var dest := if ':' in core then After(core, ':') else core;
    Before(dest, ';')
  }

  predicate EndsWith(s: string, t: string)
  {
    |t| <= |s| && s[|s| - |t|..] == t
  }

  function FallbackEntryFor(t: Tables, path: string): string
  {
    if path in t.exact then t.exact[path]
    else if path in t.suffixes then path + t.suffixes[path]
    else if CHROMATIX_PREFIX <= path && EndsWith(path, CHROMATIX_SUFFIX) then path + DISABLE_CHECKELF
    else path
  }

  function BuildEntry(t: Tables, path: string, references: map<string, string>): string
  {
    if path in references then references[path] else FallbackEntryFor(t, path)
  }

  /** Nothing in the path means anything to the parser of lines. */
  predicate Plain(path: string)
  {
    '|' !in path && ':' !in path && ';' !in path
  }

  /** A line that the loader takes as it is. */
  predicate EntryLine(line: string)
  {
    line != "" && line[0] != '#' && Stripped(line) && BreakFree(line)
  }

  predicate EntryLines(lines: seq<string>)
  {
    forall i :: 0 <= i < |lines| ==> EntryLine(lines[i])
  }

  predicate CommentLine(line: string)
  {
    line != "" && line[0] == '#' && !IsSpace(line[|line| - 1]) && BreakFree(line)
  }

  predicate Attributes(s: string)
  {
    s != "" && s[0] == ';' && !IsSpace(s[|s| - 1]) && BreakFree(s)
  }

  /** What the literal tables are like: comments as headers, mappings to their own key, attributes as suffixes. */
  ghost predicate GoodTables(t: Tables)
  {
    && |t.title| >= 2 && t.title[|t.title| - 1] == ""
    && (forall i :: 0 <= i < |t.title| - 1 ==> CommentLine(t.title[i]))
    && (forall i :: 0 <= i < |t.groups| ==> CommentLine(t.groups[i].header))
    && (forall p :: p in t.exact ==> Plain(p) && EntryLine(t.exact[p]) && Maps(t.exact[p], p))
    && (forall p :: p in t.suffixes ==> Plain(p) && Attributes(t.suffixes[p]) && Plain(t.suffixes[p][1..]))
  }

  /** A line of the form source:path. */
  predicate Maps(line: string, path: string)
  {
    '|' !in line && ':' in line && After(line, ':') == path
  }

  /** Every kept line is one the loader takes and installs to the path it is kept under. */
  ghost predicate GoodReferences(references: map<string, string>)
  {
    forall d :: d in references ==> EntryLine(references[d]) && ParseDestPath(references[d]) == d
  }

  lemma ParsePlain(path: string)
    ensures ParseDestPath(path) == path <==> Plain(path)
  {
  }

  lemma ParseWithAttributes(path: string, attributes: string)
    requires attributes != "" && attributes[0] == ';' && '|' !in attributes && ':' !in attributes
    ensures ParseDestPath(path + attributes) == path <==> Plain(path)
  {
    hide Before;
    var line := path + attributes;
    BeforeAppend(path, attributes, '|');
    if '|' in path {
      assert |Before(line, '|')| < |path|;
    } else {
      assert Before(line, '|') == line;
      BeforeAppend(path, attributes, ':');
      BeforeIs(attributes, ';', "");
      if ':' in path {
        AfterAppend(path, attributes, ':');
        BeforeAppend(After(path, ':'), attributes, ';');
        assert |ParseDestPath(line)| <= |After(path, ':')|;
      } else {
        assert ':' !in line;
        BeforeAppend(path, attributes, ';');
      }
    }
  }

  /** Parsing what is built gives back the path, exactly when it is a kept one or plain. */
  lemma ParseOfBuild(t: Tables, path: string, references: map<string, string>)
    requires GoodTables(t) && GoodReferences(references)
    ensures ParseDestPath(BuildEntry(t, path, references)) == path <==> path in references || Plain(path)
  {
    if path !in references {
      if path in t.exact {
        assert Plain(path) && Maps(t.exact[path], path);
      } else if path in t.suffixes {
        var attributes := t.suffixes[path];
        assert attributes == [';'] + attributes[1..];
        ParseWithAttributes(path, attributes);
      } else if CHROMATIX_PREFIX <= path && EndsWith(path, CHROMATIX_SUFFIX) {
        ParseWithAttributes(path, DISABLE_CHECKELF);
      } else {
        ParsePlain(path);
      }
    }
  }

  lemma AttributedIsEntry(path: string, attributes: string)
    requires EntryLine(path) && Attributes(attributes)
    ensures EntryLine(path + attributes)
  {
    hide IsSpace, IsBreak;
    var line := path + attributes;
    assert line[0] == path[0] && line[|line| - 1] == attributes[|attributes| - 1];
    assert forall i :: 0 <= i < |line| ==> line[i] == if i < |path| then path[i] else attributes[i - |path|];
  }

  lemma CheckElfIsAttributes()
    ensures Attributes(DISABLE_CHECKELF)
  {
  }

  /** What is built for a kept path, or for one the loader would take, is a line the loader takes. */
  lemma BuildIsEntry(t: Tables, path: string, references: map<string, string>)
    requires GoodTables(t) && GoodReferences(references)
    requires path in references || EntryLine(path)
    ensures EntryLine(BuildEntry(t, path, references))
  {
    hide EntryLine, Attributes, Plain, CommentLine, Maps, EndsWith;
    CheckElfIsAttributes();
    if path !in references && path !in t.exact {
      if path in t.suffixes {
        AttributedIsEntry(path, t.suffixes[path]);
      } else {
        AttributedIsEntry(path, DISABLE_CHECKELF);
      }
    }
  }

  lemma ExampleComments()
    ensures CommentLine("# T") && CommentLine("# G")
  {
  }

  lemma ExampleMapping()
    ensures Plain("a/b") && EntryLine("b:a/b") && Maps("b:a/b", "a/b")
  {
    hide Before;
    BeforeIs("b:a/b", ':', "b");
    assert "b:a/b"[2..] == "a/b";
  }

  lemma ExampleAttribute()
    ensures Plain("a/c") && Attributes(";X") && Plain(";X"[1..])
  {
    assert ";X"[1..] == "X";
  }

  /** Tables in the script's form: a title, a group, a line that maps a source path, and an attribute. */
  lemma GoodTablesExample()
    ensures GoodTables(Tables(["# T", ""], [Group("# G", ["a/"])], map["a/b" := "b:a/b"], map["a/c" := ";X"]))
  {
    hide Plain, EntryLine, Maps, Attributes, CommentLine;
    ExampleComments();
    ExampleMapping();
    ExampleAttribute();
  }

  // ---------------------------------------------------------------- loading

  /** The line as the loader keeps it, or nothing. */
  function Taken(line: string): (r: seq<string>)
    ensures EntryLine(line) ==> r == [line]
    ensures line == "" || CommentLine(line) ==> r == []
    ensures BreakFree(line) ==> forall i :: 0 <= i < |r| ==> EntryLine(r[i])
  {
    var l := Strip(line);
    assert CommentLine(line) ==> Stripped(line);
    if l == "" || l[0] == '#' then [] else [l]
  }

  /** The lines that count, stripped. */
  function Entries(lines: seq<string>): seq<string>
  {
    if lines == [] then []
    else Entries(lines[..|lines| - 1]) + Taken(lines[|lines| - 1])
  }

  /** Later lines for the same path win. */
  function Index(entries: seq<string>): map<string, string>
  {
    if entries == [] then map[]
    else
      var line := entries[|entries| - 1];
      Index(entries[..|entries| - 1])[ParseDestPath(line) := line]
  }

  function References(previous: Option<string>): map<string, string>
  {
    if previous.None? then map[] else Index(Entries(SplitLines(previous.value)))
  }

  lemma {:induction false} IndexIsGood(entries: seq<string>)
    requires EntryLines(entries)
    ensures GoodReferences(Index(entries))
  {
    if entries != [] {
      IndexIsGood(entries[..|entries| - 1]);
    }
  }

  lemma {:induction false} EntriesAreLines(lines: seq<string>)
    requires forall i :: 0 <= i < |lines| ==> BreakFree(lines[i])
    ensures EntryLines(Entries(lines))
  {
    hide EntryLine, BreakFree, CommentLine;
    if lines != [] {
      EntriesAreLines(lines[..|lines| - 1]);
    }
  }

  /** Whatever the old list held, every kept line is good. */
  lemma ReferencesAreGood(previous: Option<string>)
    ensures GoodReferences(References(previous))
  {
    if previous.Some? {
      EntriesAreLines(SplitLines(previous.value));
      IndexIsGood(Entries(SplitLines(previous.value)));
    }
  }

  lemma {:induction false} EntriesAppend(a: seq<string>, b: seq<string>)
    ensures Entries(a + b) == Entries(a) + Entries(b)
  {
    hide Taken, EntryLine, CommentLine, BreakFree;
    if b == [] {
      assert a + b == a;
    } else {
      var n := |b| - 1;
      EntriesAppend(a, b[..n]);
      assert (a + b)[..|a + b| - 1] == a + b[..n];
    }
  }

  // ---------------------------------------------------------------- grouping

  predicate Matches(f: string, prefixes: seq<string>)
  {
    exists i :: 0 <= i < |prefixes| && prefixes[i] <= f
  }

  /** The first group with a prefix of the file, or one past the last. */
  function GroupOf(f: string, groups: seq<Group>, from: nat := 0): (g: nat)
    requires from <= |groups|
    ensures from <= g <= |groups|
    ensures g < |groups| ==> Matches(f, groups[g].prefixes)
    ensures forall i :: from <= i < g ==> !Matches(f, groups[i].prefixes)
    decreases |groups| - from
  {
    if from == |groups| || Matches(f, groups[from].prefixes) then from else GroupOf(f, groups, from + 1)
  }

  function Members(files: seq<string>, groups: seq<Group>, g: nat): (ms: seq<string>)
    ensures forall f :: f in ms <==> f in files && GroupOf(f, groups) == g
  {
    if files == [] then []
    else
      var f := files[|files| - 1];
      Members(files[..|files| - 1], groups, g) + if GroupOf(f, groups) == g then [f] else []
  }

  /** All files in the order the list gives them: group by group. */
  function Arranged(files: seq<string>, groups: seq<Group>, upto: nat): seq<string>
  {
    if upto == 0 then [] else Arranged(files, groups, upto - 1) + Members(files, groups, upto - 1)
  }

  function BuildEntries(t: Tables, files: seq<string>, references: map<string, string>): (lines: seq<string>)
    ensures |lines| == |files| && forall i :: 0 <= i < |files| ==> lines[i] == BuildEntry(t, files[i], references)
  {
    if files == [] then []
    else BuildEntries(t, files[..|files| - 1], references) + [BuildEntry(t, files[|files| - 1], references)]
  }

  function Block(t: Tables, header: string, members: seq<string>, references: map<string, string>): seq<string>
  {
    if members == [] then [] else [header] + BuildEntries(t, members, references) + [""]
  }

  function Blocks(t: Tables, files: seq<string>, references: map<string, string>, upto: nat): seq<string>
    requires upto <= |t.groups|
  {
    if upto == 0 then t.title
    else
      Blocks(t, files, references, upto - 1)
      + Block(t, t.groups[upto - 1].header, Members(files, t.groups, upto - 1), references)
  }

  function Output(t: Tables, files: seq<string>, references: map<string, string>): seq<string>
  {
    Blocks(t, files, references, |t.groups|) + Block(t, UNGROUPED, Members(files, t.groups, |t.groups|), references)
  }

  function Regenerated(t: Tables, files: seq<string>, previous: Option<string>): string
  {
    RStrip(Join(Output(t, files, References(previous)))) + "\n"
  }

  /** A group lists each of its files as often as it was found, and no file of another group. */
  lemma {:induction false} MembersCount(files: seq<string>, groups: seq<Group>, g: nat, f: string)
    ensures multiset(Members(files, groups, g))[f] == if GroupOf(f, groups) == g then multiset(files)[f] else 0
  {
    if files != [] {
      var n := |files| - 1;
      MembersCount(files[..n], groups, g, f);
      assert files == files[..n] + [files[n]];
    }
  }

  lemma {:induction false} ArrangedCount(files: seq<string>, groups: seq<Group>, upto: nat, f: string)
    ensures multiset(Arranged(files, groups, upto))[f] == if GroupOf(f, groups) < upto then multiset(files)[f] else 0
  {
    hide GroupOf, Members;
    if upto > 0 {
      ArrangedCount(files, groups, upto - 1, f);
      MembersCount(files, groups, upto - 1, f);
    }
  }

  /** Over all groups nothing is lost and nothing is listed twice. */
  lemma EachFileOnce(files: seq<string>, groups: seq<Group>)
    ensures multiset(Arranged(files, groups, |groups| + 1)) == multiset(files)
  {
    forall f ensures multiset(Arranged(files, groups, |groups| + 1))[f] == multiset(files)[f] {
      ArrangedCount(files, groups, |groups| + 1, f);
    }
  }

  // ---------------------------------------------------------------- reading the list back

  /** The files whose lines the loader will take as they were written. */
  ghost predicate GoodFiles(files: seq<string>, references: map<string, string>)
  {
    forall f :: f in files ==> f in references || EntryLine(f)
  }

  ghost predicate PlainFiles(files: seq<string>, references: map<string, string>)
  {
    forall f :: f in files ==> f in references || Plain(f)
  }

  lemma {:induction false} EntriesOfEntries(lines: seq<string>)
    requires EntryLines(lines)
    ensures Entries(lines) == lines
  {
    hide Taken, EntryLine, CommentLine, BreakFree;
    if lines != [] {
      EntriesOfEntries(lines[..|lines| - 1]);
    }
  }

  lemma {:induction false} EntriesOfComments(lines: seq<string>)
    requires forall i :: 0 <= i < |lines| ==> CommentLine(lines[i]) || lines[i] == ""
    ensures Entries(lines) == []
  {
    hide Taken, EntryLine, CommentLine, BreakFree;
    if lines != [] {
      EntriesOfComments(lines[..|lines| - 1]);
    }
  }

  /** Lines free of breaks, closed by one empty line behind a line that ends in no blank. */
  ghost predicate Closed(lines: seq<string>)
  {
    && |lines| >= 2 && lines[|lines| - 1] == ""
    && (forall i :: 0 <= i < |lines| ==> BreakFree(lines[i]))
    && var last := lines[|lines| - 2]; last != "" && !IsSpace(last[|last| - 1])
  }

  lemma BuildEntriesAppend(t: Tables, a: seq<string>, b: seq<string>, references: map<string, string>)
    ensures BuildEntries(t, a + b, references) == BuildEntries(t, a, references) + BuildEntries(t, b, references)
  {
    hide BuildEntries, BuildEntry;
  }

  lemma ClosedBlock(header: string, lines: seq<string>)
    requires CommentLine(header) && lines != [] && EntryLines(lines)
    ensures Closed([header] + lines + [""])
  {
    hide IsBreak, IsSpace;
    var block := [header] + lines + [""];
    assert block[|block| - 2] == lines[|lines| - 1];
  }

  lemma BlockLines(header: string, lines: seq<string>)
    requires CommentLine(header) && EntryLines(lines)
    ensures Entries([header] + lines + [""]) == lines
  {
    hide EntryLines, CommentLine, Entries;
    EntriesOfEntries(lines);
    EntriesOfComments([header]);
    EntriesOfComments([""]);
    EntriesAppend([header], lines);
    EntriesAppend([header] + lines, [""]);
  }

  lemma BuiltAreEntries(t: Tables, members: seq<string>, references: map<string, string>)
    requires GoodTables(t) && GoodReferences(references) && GoodFiles(members, references)
    ensures EntryLines(BuildEntries(t, members, references))
  {
    hide BuildEntry, BuildEntries, GoodTables, GoodReferences, EntryLine, Plain;
    var lines := BuildEntries(t, members, references);
    forall i | 0 <= i < |lines| ensures EntryLine(lines[i]) {
      assert members[i] in members;
      BuildIsEntry(t, members[i], references);
    }
  }

  lemma BlockReads(t: Tables, header: string, members: seq<string>, references: map<string, string>)
    requires GoodTables(t) && GoodReferences(references) && GoodFiles(members, references) && CommentLine(header)
    ensures var block := Block(t, header, members, references);
      Entries(block) == BuildEntries(t, members, references) && (block == [] || Closed(block))
  {
    hide GoodTables, GoodReferences, GoodFiles, BuildEntry, EntryLines, CommentLine, Closed, Entries;
    BuiltAreEntries(t, members, references);
    var lines := BuildEntries(t, members, references);
    if members == [] {
      EntriesOfEntries([]);
      assert lines == [];
    } else {
      BlockLines(header, lines);
      ClosedBlock(header, lines);
    }
  }

  lemma ClosedAppend(a: seq<string>, b: seq<string>)
    requires Closed(a) && (b == [] || Closed(b))
    ensures Closed(a + b)
  {
    if b == [] {
      assert a + b == a;
    }
  }

  lemma MembersAreGood(files: seq<string>, groups: seq<Group>, references: map<string, string>)
    requires GoodFiles(files, references)
    ensures forall g :: GoodFiles(Members(files, groups, g), references)
  {
    hide Plain, EntryLine, GroupOf;
  }

  lemma UngroupedIsComment()
    ensures CommentLine(UNGROUPED)
  {
  }

  lemma {:induction false} BlocksRead(t: Tables, files: seq<string>, references: map<string, string>, upto: nat)
    requires GoodTables(t) && GoodReferences(references) && GoodFiles(files, references) && upto <= |t.groups|
    ensures var lines := Blocks(t, files, references, upto);
      Entries(lines) == BuildEntries(t, Arranged(files, t.groups, upto), references) && Closed(lines)
  {
    hide GoodReferences, GoodFiles, BuildEntry, BuildEntries, IsSpace, IsBreak, Block, EntryLine, Entries;
    assert forall g :: GoodFiles(Members(files, t.groups, g), references) by {
      MembersAreGood(files, t.groups, references);
    }
    if upto == 0 {
      EntriesOfComments(t.title);
      assert CommentLine(t.title[|t.title| - 2]);
    } else {
      var members := Members(files, t.groups, upto - 1);
      BlocksRead(t, files, references, upto - 1);
      BlockReads(t, t.groups[upto - 1].header, members, references);
      hide GoodTables, Closed;
      var before, block := Blocks(t, files, references, upto - 1), Block(t, t.groups[upto - 1].header, members, references);
      EntriesAppend(before, block);
      ClosedAppend(before, block);
      BuildEntriesAppend(t, Arranged(files, t.groups, upto - 1), members, references);
    }
  }

  lemma OutputReads(t: Tables, files: seq<string>, references: map<string, string>)
    requires GoodTables(t) && GoodReferences(references) && GoodFiles(files, references)
    ensures var lines := Output(t, files, references);
      Entries(lines) == BuildEntries(t, Arranged(files, t.groups, |t.groups| + 1), references) && Closed(lines)
  {
    hide GoodTables, GoodReferences, GoodFiles, BuildEntry, BuildEntries, CommentLine, Block, Closed, Blocks, Entries;
    var n := |t.groups|;
    var members := Members(files, t.groups, n);
    BlocksRead(t, files, references, n);
    UngroupedIsComment();
    MembersAreGood(files, t.groups, references);
    BlockReads(t, UNGROUPED, members, references);
    var before, block := Blocks(t, files, references, n), Block(t, UNGROUPED, members, references);
    EntriesAppend(before, block);
    ClosedAppend(before, block);
    BuildEntriesAppend(t, Arranged(files, t.groups, n), members, references);
  }

  lemma ClosedText(lines: seq<string>)
    requires Closed(lines)
    ensures var text := RStrip(Join(lines)) + "\n"; Entries(SplitLines(text)) == Entries(lines)
  {
    hide IsBreak, IsSpace, Entries, Join, RStrip, Pieces, BreakFree;
    var n := |lines| - 1;
    RStripJoin(lines);
    PiecesOfJoin(lines);
    EntriesAppend(lines[..n], [""]);
    EntriesOfComments([""]);
    assert lines == lines[..n] + [""];
  }

  /** The loader reads back one line for each file, the one that was built for it, in the order of the groups. */
  lemma ReadBack(t: Tables, files: seq<string>, previous: Option<string>)
    requires GoodTables(t) && GoodFiles(files, References(previous))
    ensures Entries(SplitLines(Regenerated(t, files, previous)))
            == BuildEntries(t, Arranged(files, t.groups, |t.groups| + 1), References(previous))
  {
    ReferencesAreGood(previous);
    OutputReads(t, files, References(previous));
    ClosedText(Output(t, files, References(previous)));
  }

  lemma {:induction false} IndexOfBuilt(t: Tables, files: seq<string>, references: map<string, string>)
    requires GoodTables(t) && GoodReferences(references) && PlainFiles(files, references)
    ensures Index(BuildEntries(t, files, references)) == map f | f in files :: BuildEntry(t, f, references)
  {
    hide GoodTables, GoodReferences, BuildEntry, ParseDestPath, EntryLine;
    if files != [] {
      var n := |files| - 1;
      var lines := BuildEntries(t, files, references);
      assert lines[..n] == BuildEntries(t, files[..n], references);
      IndexOfBuilt(t, files[..n], references);
      ParseOfBuild(t, files[n], references);
      hide PlainFiles, Plain;
      assert files == files[..n] + [files[n]];
    }
  }

  lemma {:induction false} BlocksAgree(t: Tables, files: seq<string>, r1: map<string, string>, r2: map<string, string>, upto: nat)
    requires upto <= |t.groups| && forall f :: f in files ==> BuildEntry(t, f, r1) == BuildEntry(t, f, r2)
    ensures Blocks(t, files, r1, upto) == Blocks(t, files, r2, upto)
  {
    hide BuildEntry, BuildEntries, Block;
    if upto > 0 {
      BlocksAgree(t, files, r1, r2, upto - 1);
      BlockAgrees(t, Members(files, t.groups, upto - 1), r1, r2);
    }
  }

  lemma BlockAgrees(t: Tables, members: seq<string>, r1: map<string, string>, r2: map<string, string>)
    requires forall f :: f in members ==> BuildEntry(t, f, r1) == BuildEntry(t, f, r2)
    ensures forall header :: Block(t, header, members, r1) == Block(t, header, members, r2)
  {
    hide BuildEntry;
    assert BuildEntries(t, members, r1) == BuildEntries(t, members, r2);
  }

  /** Where a path is found in the index of the built lines, it is kept with its own. */
  ghost predicate OwnLines(t: Tables, files: seq<string>, references: map<string, string>)
  {
    var index := Index(BuildEntries(t, Arranged(files, t.groups, |t.groups| + 1), references));
    forall f :: f in files && f in index ==> index[f] == BuildEntry(t, f, references)
  }

  lemma {:induction false} Indexed(lines: seq<string>, i: nat)
    requires i < |lines|
    ensures ParseDestPath(lines[i]) in Index(lines)
  {
    hide ParseDestPath;
    var n := |lines| - 1;
    if i < n {
      Indexed(lines[..n], i);
      assert lines[..n][i] == lines[i];
    }
  }

  lemma ArrangedMembers(files: seq<string>, groups: seq<Group>)
    ensures forall f :: f in Arranged(files, groups, |groups| + 1) <==> f in files
  {
    EachFileOnce(files, groups);
    SameElements(Arranged(files, groups, |groups| + 1), files);
  }

  /** A kept line is found again, since it parses to its own path. */
  lemma KeptIndexed(t: Tables, files: seq<string>, references: map<string, string>, f: string)
    requires GoodReferences(references) && f in files && f in references
    ensures f in Index(BuildEntries(t, Arranged(files, t.groups, |t.groups| + 1), references))
  {
    hide ParseDestPath, Arranged, BuildEntries, EntryLine, FallbackEntryFor;
    var arranged := Arranged(files, t.groups, |t.groups| + 1);
    var lines := BuildEntries(t, arranged, references);
    ArrangedMembers(files, t.groups);
    var i :| 0 <= i < |arranged| && arranged[i] == f;
    Indexed(lines, i);
    assert lines[i] == references[f];
  }

  /** The next run builds the same line for a file exactly when the index does not hold another one under its path. */
  lemma SameLine(t: Tables, files: seq<string>, references: map<string, string>, f: string)
    requires GoodReferences(references) && f in files
    ensures var index := Index(BuildEntries(t, Arranged(files, t.groups, |t.groups| + 1), references));
      BuildEntry(t, f, index) == BuildEntry(t, f, references)
      <==> (f in index ==> index[f] == BuildEntry(t, f, references))
  {
    hide GoodReferences, FallbackEntryFor, Index, Arranged, BuildEntries;
    if f in references {
      KeptIndexed(t, files, references, f);
    }
  }

  /** Equal texts come from equal lines. */
  lemma SameText(t: Tables, files: seq<string>, r1: map<string, string>, r2: map<string, string>)
    requires GoodTables(t) && GoodReferences(r1) && GoodReferences(r2) && GoodFiles(files, r1) && GoodFiles(files, r2)
    requires RStrip(Join(Output(t, files, r1))) + "\n" == RStrip(Join(Output(t, files, r2))) + "\n"
    ensures forall f :: f in files ==> BuildEntry(t, f, r1) == BuildEntry(t, f, r2)
  {
    hide GoodTables, GoodReferences, GoodFiles, Output, Join, RStrip, BuildEntry, BuildEntries, Entries, Arranged;
    var arranged := Arranged(files, t.groups, |t.groups| + 1);
    OutputReads(t, files, r1);
    OutputReads(t, files, r2);
    SameLines(Output(t, files, r1), Output(t, files, r2));
    ArrangedMembers(files, t.groups);
    forall f | f in files ensures BuildEntry(t, f, r1) == BuildEntry(t, f, r2) {
      var i :| 0 <= i < |arranged| && arranged[i] == f;
      assert BuildEntries(t, arranged, r1)[i] == BuildEntries(t, arranged, r2)[i];
    }
  }

  lemma SameLines(a: seq<string>, b: seq<string>)
    requires Closed(a) && Closed(b) && RStrip(Join(a)) + "\n" == RStrip(Join(b)) + "\n"
    ensures a == b
  {
    hide Join, RStrip, Pieces, IsSpace, IsBreak;
    RStripJoin(a);
    RStripJoin(b);
    PiecesOfJoin(a);
    PiecesOfJoin(b);
  }

  /**
   For files whose lines the loader takes: the list that was written is the one the next run writes if and only
   if every path that the index of the built lines holds is kept with its own line.
   */
  lemma FixpointExactly(t: Tables, files: seq<string>, previous: Option<string>)
    requires GoodTables(t) && GoodFiles(files, References(previous))
    ensures var text := Regenerated(t, files, previous);
      Regenerated(t, files, Some(text)) == text <==> OwnLines(t, files, References(previous))
  {
    var r1 := References(previous);
    var text := Regenerated(t, files, previous);
    var r2 := References(Some(text));
    ReferencesAreGood(previous);
    ReferencesAreGood(Some(text));
    ReadBack(t, files, previous);
    hide GoodTables, GoodReferences, References, Index, SplitLines, BuildEntry, BuildEntries, Arranged, Output, Entries, EntryLine;
    assert r2 == Index(BuildEntries(t, Arranged(files, t.groups, |t.groups| + 1), r1));
    forall f | f in files ensures BuildEntry(t, f, r2) == BuildEntry(t, f, r1) <==> (f in r2 ==> r2[f] == BuildEntry(t, f, r1)) {
      SameLine(t, files, r1, f);
    }
    forall f | f in files && f in r1 ensures f in r2 {
      KeptIndexed(t, files, r1, f);
    }
    if OwnLines(t, files, r1) {
      SameOutput(t, files, r1, r2);
    }
    if Regenerated(t, files, Some(text)) == text {
      SameText(t, files, r1, r2);
    }
  }

  lemma SameOutput(t: Tables, files: seq<string>, r1: map<string, string>, r2: map<string, string>)
    requires forall f :: f in files ==> BuildEntry(t, f, r1) == BuildEntry(t, f, r2)
    ensures Output(t, files, r1) == Output(t, files, r2)
  {
    hide BuildEntry, BuildEntries, Block, Blocks;
    BlocksAgree(t, files, r1, r2, |t.groups|);
    BlockAgrees(t, Members(files, t.groups, |t.groups|), r1, r2);
  }

  /** With plain names the list that was written is the one the next run writes. */
  lemma Fixpoint(t: Tables, files: seq<string>, previous: Option<string>)
    requires GoodTables(t) && GoodFiles(files, References(previous)) && PlainFiles(files, References(previous))
    ensures var text := Regenerated(t, files, previous); Regenerated(t, files, Some(text)) == text
  {
    hide GoodTables, GoodReferences, References, Regenerated, PlainFiles, GoodFiles;
    ReferencesAreGood(previous);
    FixpointExactly(t, files, previous);
    PlainOwnLines(t, files, References(previous));
  }

  lemma PlainOwnLines(t: Tables, files: seq<string>, references: map<string, string>)
    requires GoodTables(t) && GoodReferences(references) && PlainFiles(files, references)
    ensures OwnLines(t, files, references)
  {
    hide GoodTables, GoodReferences, BuildEntry, BuildEntries, Plain, Arranged;
    ArrangedMembers(files, t.groups);
    IndexOfBuilt(t, Arranged(files, t.groups, |t.groups| + 1), references);
  }

  /** Tables with nothing but a title. */
  function Bare(): Tables
  {
    Tables(["# T", ""], [], map[], map[])
  }

  lemma BareLines(files: seq<string>)
    requires forall f :: f in files ==> |f| < |CHROMATIX_PREFIX|
    ensures Arranged(files, Bare().groups, |Bare().groups| + 1) == files
    ensures BuildEntries(Bare(), files, map[]) == files
  {
    AllUngrouped(files);
    assert [] + Members(files, [], 0) == files;
    forall i | 0 <= i < |files| ensures BuildEntry(Bare(), files[i], map[]) == files[i] {
      assert files[i] in files;
    }
  }

  lemma NoGroup(f: string)
    ensures GroupOf(f, []) == 0
  {
  }

  lemma {:induction false} AllUngrouped(files: seq<string>)
    ensures Members(files, [], 0) == files
  {
    hide GroupOf;
    if files != [] {
      var n := |files| - 1;
      AllUngrouped(files[..n]);
      NoGroup(files[n]);
      assert files == files[..n] + [files[n]];
    }
  }

  /** The file "c:b" takes the line of "b" away, and the next run lists it twice. */
  lemma ColonExample()
    ensures var text := Regenerated(Bare(), ["b", "c:b"], None); Regenerated(Bare(), ["b", "c:b"], Some(text)) != text
  {
    ColonParses();
    hide ParseDestPath, Regenerated;
    BareGood();
    BareLines(["b", "c:b"]);
    FixpointExactly(Bare(), ["b", "c:b"], None);
    assert ["b", "c:b"][..1] == ["b"];
    assert Index(["b", "c:b"])["b"] == "c:b";
    assert "b" in ["b", "c:b"];
  }

  lemma BareGood()
    ensures GoodTables(Bare()) && GoodFiles(["b", "c:b"], References(None))
  {
    ExampleComments();
  }

  lemma ColonParses()
    ensures ParseDestPath("c:b") == "b"
  {
    hide Before;
    BeforeIs("c:b", '|', "c:b");
    BeforeIs("c:b", ':', "c");
    BeforeIs("b", ';', "b");
    assert "c:b"[2..] == "b";
  }

  lemma SameElements(a: seq<string>, b: seq<string>)
    requires multiset(a) == multiset(b)
    ensures forall f :: f in a <==> f in b
  {
    forall f ensures f in a <==> f in b {
      assert f in a <==> f in multiset(a);
    }
  }

  // ---------------------------------------------------------------- the loops of the script

  lemma NoEntries()
    ensures Index(Entries([])) == map[]
  {
  }

  lemma IndexStep(lines: seq<string>, i: nat)
    requires i < |lines|
    ensures var before, line := Index(Entries(lines[..i])), Strip(lines[i]);
      Index(Entries(lines[..i + 1])) == if line == "" || line[0] == '#' then before else before[ParseDestPath(line) := line]
  {
    hide ParseDestPath, CommentLine, EntryLine, Strip;
    assert lines[..i + 1][..i] == lines[..i];
    var line := Strip(lines[i]);
    var before, after := Entries(lines[..i]), Entries(lines[..i + 1]);
    assert after == before + if line == "" || line[0] == '#' then [] else [line];
    if !(line == "" || line[0] == '#') {
      assert after[..|after| - 1] == before;
    } else {
      assert after == before;
    }
  }

  method LoadReferenceEntries(previous: Option<string>) returns (entries: map<string, string>)
    ensures entries == References(previous)
  {
    hide ParseDestPath, Index, Entries, CommentLine, EntryLine, BreakFree, Stripped;
    NoEntries();
    entries := map[];
    if previous.Some? {
      var lines := SplitLines(previous.value);
      for i := 0 to |lines|
        invariant entries == Index(Entries(lines[..i]))
      {
        IndexStep(lines, i);
        var line := Strip(lines[i]);
        if line == "" || line[0] == '#' {
          continue;
        }
        entries := entries[ParseDestPath(line) := line];
      }
      assert lines[..|lines|] == lines;
    }
  }

  /** The files of a group that no earlier group has taken. */
  method GroupFiles(files: seq<string>, done: set<string>, groups: seq<Group>, g: nat) returns (groupFiles: seq<string>)
    requires g < |groups| && forall f :: f in files ==> (f in done <==> GroupOf(f, groups) < g)
    ensures groupFiles == Members(files, groups, g)
  {
    hide Matches;
    groupFiles := [];
    for i := 0 to |files|
      invariant groupFiles == Members(files[..i], groups, g)
    {
      assert files[..i + 1][..i] == files[..i];
      assert files[i] in files;
      if files[i] !in done && Matches(files[i], groups[g].prefixes) {
        groupFiles := groupFiles + [files[i]];
      }
    }
    assert files[..|files|] == files;
  }

  method AppendBlock(t: Tables, output: seq<string>, header: string, members: seq<string>, references: map<string, string>)
    returns (lines: seq<string>)
    ensures lines == output + Block(t, header, members, references)
  {
    hide BuildEntry;
    lines := output;
    if members != [] {
      lines := lines + [header];
      for i := 0 to |members|
        invariant lines == output + [header] + BuildEntries(t, members[..i], references)
      {
        assert members[..i + 1][..i] == members[..i];
        lines := lines + [BuildEntry(t, members[i], references)];
      }
      assert members[..|members|] == members;
      lines := lines + [""];
    }
  }

  method Regenerate(t: Tables, files: seq<string>, previous: Option<string>) returns (text: string)
    ensures text == Regenerated(t, files, previous)
  {
    hide Block, GroupOf, References, BuildEntry, BuildEntries, Members, Join, RStrip, Matches;
    var references := LoadReferenceEntries(previous);
    var done: set<string> := {};
    var output := t.title;
    for g := 0 to |t.groups|
      invariant output == Blocks(t, files, references, g)
      invariant forall f :: f in files ==> (f in done <==> GroupOf(f, t.groups) < g)
    {
      var groupFiles := GroupFiles(files, done, t.groups, g);
      output := AppendBlock(t, output, t.groups[g].header, groupFiles, references);
      done := done + set f | f in groupFiles;
    }
    var remaining := Remaining(files, done, t.groups);
    output := AppendBlock(t, output, UNGROUPED, remaining, references);
    text := RStrip(Join(output)) + "\n";
  }

  method Remaining(files: seq<string>, done: set<string>, groups: seq<Group>) returns (remaining: seq<string>)
    requires forall f :: f in files ==> (f in done <==> GroupOf(f, groups) < |groups|)
    ensures remaining == Members(files, groups, |groups|)
  {
    hide Matches;
    remaining := [];
    for i := 0 to |files|
      invariant remaining == Members(files[..i], groups, |groups|)
    {
      assert files[..i + 1][..i] == files[..i];
      assert files[i] in files;
      if files[i] !in done {
        remaining := remaining + [files[i]];
      }
    }
    assert files[..|files|] == files;
  }
}
