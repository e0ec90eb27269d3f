/**
 Writing a configuration file and reading it back: any table of sections, with either line ending on each line, loads
 into just that table.
 */
module ConfText {
  import opened Common
  import opened ConfSyntax

  /** The character classes of the C locale. */
  lemma CharacterClasses(c: char)
    ensures IsSpace(c) <==> c == ' ' || c == '\t' || c == '\n' || c == '\U{0B}' || c == '\U{0C}' || c == '\r'
    ensures IsAlnum(c) <==> 48 <= c as int <= 57 || 65 <= c as int <= 90 || 97 <= c as int <= 122
    ensures IsBlank(c) <==> c == ' ' || c == '\t'
  {
  }

  // ---------------------------------------------------------------- what is written

  datatype Section = Section(name: string, pairs: seq<(string, string)>)

  predicate Word(s: string)
  {
    s != "" && forall i :: 0 <= i < |s| ==> IsAlnum(s[i])
  }

  /** No character that would end the line or cut it short. */
  predicate OneLine(s: string)
  {
    '\0' !in s && '\r' !in s && '\n' !in s
  }

  predicate GoodPairs(pairs: seq<(string, string)>)
  {
    && (forall i :: 0 <= i < |pairs| ==> Word(pairs[i].0) && OneLine(pairs[i].1))
    && (forall i, j :: 0 <= i < j < |pairs| ==> pairs[i].0 != pairs[j].0)
  }

  predicate GoodSections(sections: seq<Section>)
  {
    && (forall i :: 0 <= i < |sections| ==> Word(sections[i].name) && GoodPairs(sections[i].pairs))
    && (forall i, j :: 0 <= i < j < |sections| ==> sections[i].name != sections[j].name)
  }

  function PairLines(pairs: seq<(string, string)>): (lines: seq<string>)
  {
    if pairs == [] then [] else PairLines(pairs[..|pairs| - 1]) + [pairs[|pairs| - 1].0 + "=" + pairs[|pairs| - 1].1]
  }

  function SectionLines(s: Section): seq<string>
  {
    ["[" + s.name + "]"] + PairLines(s.pairs)
  }

  function AllLines(sections: seq<Section>): seq<string>
  {
    if sections == [] then [] else AllLines(sections[..|sections| - 1]) + SectionLines(sections[|sections| - 1])
  }

  predicate Ending(e: string)
  {
    e == "\n" || e == "\r\n"
  }

  predicate Endings(ends: seq<string>)
  {
    forall i :: 0 <= i < |ends| ==> Ending(ends[i])
  }

  function Text(lines: seq<string>, ends: seq<string>): string
    requires |lines| == |ends|
  {
    if lines == [] then "" else Text(lines[..|lines| - 1], ends[..|lines| - 1]) + lines[|lines| - 1] + ends[|lines| - 1]
  }

  function PairMap(pairs: seq<(string, string)>): map<string, string>
  {
    if pairs == [] then map[] else PairMap(pairs[..|pairs| - 1])[pairs[|pairs| - 1].0 := pairs[|pairs| - 1].1]
  }

  function TableOf(sections: seq<Section>): Groups
  {
    if sections == [] then map[]
    else
      var s := sections[|sections| - 1];
      TableOf(sections[..|sections| - 1])[s.name := PairMap(s.pairs)]
  }

  // ---------------------------------------------------------------- the lines of the text

  lemma {:induction false} WholeString(s: string)
    requires '\0' !in s
    ensures CString(s) == s
  {
    if s != "" {
      assert s == [s[0]] + s[1..];
      WholeString(s[1..]);
    }
  }

  lemma {:induction false} LineUnderWay(a: string, line: string)
    requires OneLine(line)
    ensures Unfinished(a + line) == Unfinished(a) + line && Lines(a + line) == Lines(a)
  {
    if line == "" {
      assert a + line == a;
    } else {
      var n := |line| - 1;
      assert line == line[..n] + [line[n]];
      LineUnderWay(a, line[..n]);
      assert (a + line)[..|a + line| - 1] == a + line[..n];
      assert line[n] in line;
    }
  }

  lemma LineEnds(a: string, line: string, end: string)
    requires OneLine(line) && Ending(end) && Unfinished(a) == ""
    ensures Unfinished(a + line + end) == "" && Lines(a + line + end) == Lines(a) + [line]
  {
    hide CString;
    LineUnderWay(a, line);
    assert "" + line == line;
    WholeString(line);
    if end == "\n" {
      OneMoreLF(a + line);
    } else {
      assert (a + line + "\r")[..|a + line|] == a + line;
      OneMoreLF(a + line + "\r");
      assert a + line + "\r\n" == a + line + "\r" + "\n";
    }
  }

  lemma OneMoreLF(s: string)
    ensures Unfinished(s + "\n") == "" && Lines(s + "\n") == Lines(s) + [CString(Unfinished(s))]
  {
    assert (s + "\n")[..|s|] == s;
  }

  predicate Unbroken(lines: seq<string>)
  {
    forall i :: 0 <= i < |lines| ==> OneLine(lines[i])
  }

  /** Written lines are read back, whatever their endings. */
  lemma {:induction false} LinesOfText(lines: seq<string>, ends: seq<string>)
    requires |lines| == |ends| && Unbroken(lines) && Endings(ends)
    ensures Lines(Text(lines, ends)) == lines && Unfinished(Text(lines, ends)) == ""
  {
    hide OneLine, Lines, Unfinished;
    if lines == [] {
      EmptyText();
    } else {
      var n := |lines| - 1;
      LinesOfText(lines[..n], ends[..n]);
      LineEnds(Text(lines[..n], ends[..n]), lines[n], ends[n]);
      assert lines == lines[..n] + [lines[n]];
    }
  }

  lemma EmptyText()
    ensures Lines("") == [] && Unfinished("") == ""
  {
  }

  lemma EndsInLF(a: string, line: string, end: string)
    requires Ending(end) && CarriageReturnsOk(a) && (a == "" || a[|a| - 1] == '\n') && OneLine(line)
    ensures CarriageReturnsOk(a + line + end)
  {
    var s := a + line + end;
    assert forall j :: 0 <= j < |line| ==> s[|a| + j] == line[j] && line[j] in line;
    forall i | 0 <= i < |s| - 1 && s[i] == CR ensures s[i + 1] == LF || s[i + 1] == CR {
      if i < |a| {
        assert a[i] == CR;
      } else {
        assert i >= |a| + |line|;
      }
    }
  }

  lemma {:induction false} ReturnsAreOk(lines: seq<string>, ends: seq<string>)
    requires |lines| == |ends| && Unbroken(lines) && Endings(ends)
    ensures var s := Text(lines, ends); CarriageReturnsOk(s) && (s == "" || s[|s| - 1] == '\n')
  {
    hide OneLine, CarriageReturnsOk;
    if lines != [] {
      var n := |lines| - 1;
      ReturnsAreOk(lines[..n], ends[..n]);
      EndsInLF(Text(lines[..n], ends[..n]), lines[n], ends[n]);
    } else {
      NoReturns();
    }
  }

  lemma NoReturns()
    ensures CarriageReturnsOk("")
  {
  }

  // ---------------------------------------------------------------- what the lines say

  lemma WordIsOneLine(s: string)
    requires Word(s)
    ensures OneLine(s)
  {
    assert forall i :: 0 <= i < |s| ==> IsAlnum(s[i]);
  }

  lemma HeaderLine(name: string)
    requires Word(name)
    ensures Classify("[" + name + "]") == Header(name) && OneLine("[" + name + "]")
  {
    hide Classify, IsAlnum, IsSpace, IsBlank;
    var line := "[" + name + "]";
    WordIsOneLine(name);
    assert line[0..] == line && line[..0] == "" && line[|name| + 2..] == "";
    assert SpaceUpTo(line, 0) && HeaderText(line[0..], name);
    ClassifiesHeaders(line, name);
  }

  lemma PairLine(key: string, value: string)
    requires Word(key) && OneLine(value)
    ensures Classify(key + "=" + value) == Pair(key, value) && OneLine(key + "=" + value)
  {
    hide Classify, IsAlnum, IsSpace;
    var line := key + "=" + value;
    WordIsOneLine(key);
    assert line[0..] == line && line[..0] == "";
    assert SpaceUpTo(line, 0) && PairText(line[0..], key, value);
    ClassifiesPairs(line, key, value);
  }

  lemma {:induction false} FoldAppend(cfg: Config, a: seq<string>, b: seq<string>)
    ensures FoldLines(cfg, a + b)
      == if FoldLines(cfg, a).None? then None else FoldLines(FoldLines(cfg, a).value, b)
  {
    hide Classify, Apply;
    if b == [] {
      assert a + b == a;
    } else {
      FoldAppend(cfg, a, b[..|b| - 1]);
      assert (a + b)[..|a + b| - 1] == a + b[..|b| - 1];
    }
  }

  lemma {:induction false} PairKeys(pairs: seq<(string, string)>)
    ensures forall k :: k in PairMap(pairs) <==> exists i :: 0 <= i < |pairs| && pairs[i].0 == k
  {
    if pairs != [] {
      var n := |pairs| - 1;
      PairKeys(pairs[..n]);
      assert forall i :: 0 <= i < n ==> pairs[..n][i] == pairs[i];
    }
  }

  /** The table when the current group holds these pairs. */
  function Filled(cfg: Config, pairs: map<string, string>): Config
    requires cfg.current.Some?
  {
    cfg.(groups := cfg.groups[cfg.current.value := pairs])
  }

  lemma OneMorePair(cfg: Config, pairs: map<string, string>, key: string, value: string)
    requires cfg.current.Some? && key !in pairs
    ensures Apply(Filled(cfg, pairs), Pair(key, value)) == Some(Filled(cfg, pairs[key := value]))
  {
    var g := cfg.current.value;
    assert cfg.groups[g := pairs][g := pairs[key := value]] == cfg.groups[g := pairs[key := value]];
  }

  lemma FoldOneMore(cfg: Config, lines: seq<string>, line: string)
    ensures FoldLines(cfg, lines + [line])
      == if FoldLines(cfg, lines).None? then None else Apply(FoldLines(cfg, lines).value, Classify(line))
  {
    hide Apply, Classify;
    assert (lines + [line])[..|lines|] == lines;
  }

  lemma LastPair(pairs: seq<(string, string)>)
    requires GoodPairs(pairs) && pairs != []
    ensures var n := |pairs| - 1;
      GoodPairs(pairs[..n]) && Word(pairs[n].0) && OneLine(pairs[n].1) && pairs[n].0 !in PairMap(pairs[..n])
  {
    hide Word, OneLine, PairMap;
    PairKeys(pairs[..|pairs| - 1]);
  }

  lemma {:induction false} PairsFold(cfg: Config, pairs: seq<(string, string)>)
    requires GoodPairs(pairs) && cfg.current.Some? && cfg.current.value in cfg.groups && cfg.groups[cfg.current.value] == map[]
    ensures Unbroken(PairLines(pairs))
    ensures FoldLines(cfg, PairLines(pairs)) == Some(Filled(cfg, PairMap(pairs)))
  {
    hide Classify, Word, OneLine, GoodPairs, FoldLines, Apply, Filled;
    if pairs != [] {
      var n := |pairs| - 1;
      LastPair(pairs);
      PairsFold(cfg, pairs[..n]);
      PairLine(pairs[n].0, pairs[n].1);
      FoldOneMore(cfg, PairLines(pairs[..n]), pairs[n].0 + "=" + pairs[n].1);
      OneMorePair(cfg, PairMap(pairs[..n]), pairs[n].0, pairs[n].1);
    } else {
      NothingFilled(cfg);
    }
  }

  lemma NothingFilled(cfg: Config)
    requires cfg.current.Some? && cfg.current.value in cfg.groups && cfg.groups[cfg.current.value] == map[]
    ensures FoldLines(cfg, []) == Some(Filled(cfg, map[]))
  {
    assert cfg.groups[cfg.current.value := map[]] == cfg.groups;
  }

  lemma OneLineFold(cfg: Config, line: string)
    ensures FoldLines(cfg, [line]) == Apply(cfg, Classify(line))
  {
    hide Classify, Apply;
    assert [line][..0] == [];
  }

  lemma SectionFold(cfg: Config, s: Section)
    requires Word(s.name) && GoodPairs(s.pairs) && s.name !in cfg.groups
    ensures Unbroken(SectionLines(s))
    ensures FoldLines(cfg, SectionLines(s)) == Some(Config(cfg.groups[s.name := PairMap(s.pairs)], Some(s.name)))
  {
    hide Classify, Word, OneLine, FoldLines, PairLines, GoodPairs;
    var header, next := "[" + s.name + "]", Config(cfg.groups[s.name := map[]], Some(s.name));
    HeaderLine(s.name);
    OneLineFold(cfg, header);
    PairsFold(next, s.pairs);
    FoldAppend(cfg, [header], PairLines(s.pairs));
    assert next.groups[s.name := PairMap(s.pairs)] == cfg.groups[s.name := PairMap(s.pairs)];
  }

  lemma {:induction false} TableKeys(sections: seq<Section>)
    ensures forall k :: k in TableOf(sections) <==> exists i :: 0 <= i < |sections| && sections[i].name == k
  {
    if sections != [] {
      var n := |sections| - 1;
      TableKeys(sections[..n]);
      assert forall i :: 0 <= i < n ==> sections[..n][i] == sections[i];
    }
  }

  lemma SectionsBefore(sections: seq<Section>)
    requires GoodSections(sections) && sections != []
    ensures var before, s := sections[..|sections| - 1], sections[|sections| - 1];
      GoodSections(before) && Word(s.name) && GoodPairs(s.pairs) && s.name !in TableOf(before)
  {
    hide Word, GoodPairs, TableOf;
    TableKeys(sections[..|sections| - 1]);
  }

  lemma LastSection(groups: Groups, sections: seq<Section>)
    requires TableOf(sections).Keys !! groups.Keys && sections != []
    ensures var before, s := sections[..|sections| - 1], sections[|sections| - 1];
      && TableOf(before).Keys !! groups.Keys && s.name !in groups
      && (groups + TableOf(before))[s.name := PairMap(s.pairs)] == groups + TableOf(sections)
  {
    hide PairMap;
    assert sections[|sections| - 1].name in TableOf(sections);
  }

  lemma {:induction false} SectionsFold(groups: Groups, sections: seq<Section>)
    requires GoodSections(sections) && TableOf(sections).Keys !! groups.Keys
    ensures Unbroken(AllLines(sections))
    ensures var r := FoldLines(Config(groups, None), AllLines(sections)); r.Some? && r.value.groups == groups + TableOf(sections)
  {
    hide FoldLines, SectionLines, Word, OneLine, GoodPairs, GoodSections, TableOf;
    if sections == [] {
      NothingFolded(groups);
    } else {
      var n := |sections| - 1;
      SectionsBefore(sections);
      LastSection(groups, sections);
      SectionsFold(groups, sections[..n]);
      SectionFold(FoldLines(Config(groups, None), AllLines(sections[..n])).value, sections[n]);
      FoldAppend(Config(groups, None), AllLines(sections[..n]), SectionLines(sections[n]));
    }
  }

  lemma NothingFolded(groups: Groups)
    ensures FoldLines(Config(groups, None), []) == Some(Config(groups, None)) && groups + TableOf([]) == groups
  {
  }

  /**
   Any sections with new names of letters and digits, distinct keys of letters and digits and values on one line,
   written with either ending on each line, are accepted and add just those sections to the table.
   */
  lemma WrittenIsRead(groups: Groups, sections: seq<Section>, ends: seq<string>)
    requires GoodSections(sections) && TableOf(sections).Keys !! groups.Keys
    requires |ends| == |AllLines(sections)| && Endings(ends)
    ensures var text := Text(AllLines(sections), ends);
      var lines := FoldLines(Config(groups, None), Lines(text));
      CarriageReturnsOk(text) && lines.Some? && lines.value.groups == groups + TableOf(sections)
  {
    SectionsFold(groups, sections);
    LinesOfText(AllLines(sections), ends);
    ReturnsAreOk(AllLines(sections), ends);
  }
}
