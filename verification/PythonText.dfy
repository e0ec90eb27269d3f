/** The string operations of Python that the generator of the file list uses. */
module PythonText {

  /** A boundary of `str.splitlines`; text read in text mode has no carriage return before a newline. */
  predicate IsBreak(c: char)
  {
    c == '\n' || c == '\r' || c == '\U{0B}' || c == '\U{0C}' || '\U{1C}' <= c <= '\U{1E}'
    || c == '\U{85}' || c == '\U{2028}' || c == '\U{2029}'
  }

  /** What `str.strip` takes away. */
  predicate IsSpace(c: char)
  {
    '\t' <= c <= '\r' || '\U{1C}' <= c <= ' ' || c == '\U{85}' || c == '\U{A0}' || c == '\U{1680}'
    || '\U{2000}' <= c <= '\U{200A}' || c == '\U{2028}' || c == '\U{2029}' || c == '\U{202F}' || c == '\U{205F}' || c == '\U{3000}'
  }

  /** The boundaries by their code points; each of them is white space as well. */
  lemma Boundaries(c: char)
    ensures IsBreak(c) <==> c as int in {0x0A, 0x0B, 0x0C, 0x0D, 0x1C, 0x1D, 0x1E, 0x85, 0x2028, 0x2029}
    ensures IsBreak(c) ==> IsSpace(c)
  {
  }

  predicate BreakFree(s: string)
  {
    forall i :: 0 <= i < |s| ==> !IsBreak(s[i])
  }

  predicate Stripped(s: string)
  {
    s == "" || (!IsSpace(s[0]) && !IsSpace(s[|s| - 1]))
  }

  // ---------------------------------------------------------------- split once

  /** The text before the first occurrence of c, or all of it: `s.split(c, 1)[0]`. */
  function Before(s: string, c: char): (r: string)
    ensures r <= s && c !in r
    ensures if c in s then |r| < |s| && s[|r|] == c else r == s
  {
    if s == "" || s[0] == c then "" else [s[0]] + Before(s[1..], c)
  }

  /** The text after the first occurrence of c: `s.split(c, 1)[1]`. */
  function After(s: string, c: char): string
    requires c in s
  {
    s[|Before(s, c)| + 1..]
  }

  lemma BeforeIs(s: string, c: char, r: string)
    requires r <= s && c !in r && (|r| < |s| ==> s[|r|] == c)
    ensures Before(s, c) == r
  {
    hide Before;
    var b := Before(s, c);
    assert |b| == |r|;
  }

  lemma BeforeAppend(s: string, t: string, c: char)
    ensures Before(s + t, c) == if c in s then Before(s, c) else s + Before(t, c)
  {
    hide Before;
    if c in s {
      BeforeIs(s + t, c, Before(s, c));
    } else {
      BeforeIs(s + t, c, s + Before(t, c));
    }
  }

  lemma AfterAppend(s: string, t: string, c: char)
    requires c in s
    ensures c in s + t && After(s + t, c) == After(s, c) + t && |After(s, c)| < |s|
  {
    BeforeAppend(s, t, c);
    assert (s + t)[|Before(s, c)| + 1..] == s[|Before(s, c)| + 1..] + t;
  }

  // ---------------------------------------------------------------- strip

  function RStrip(s: string): (r: string)
    ensures r <= s && (r != "" ==> !IsSpace(r[|r| - 1]))
  {
    if s == "" || !IsSpace(s[|s| - 1]) then s else RStrip(s[..|s| - 1])
  }

  function LStrip(s: string): (r: string)
    ensures |r| <= |s| && r == s[|s| - |r|..] && (r != "" ==> !IsSpace(r[0]))
  {
    if s == "" || !IsSpace(s[0]) then s else LStrip(s[1..])
  }

  function Strip(s: string): (r: string)
    ensures Stripped(r)
    ensures Stripped(s) ==> r == s
    ensures BreakFree(s) ==> BreakFree(r)
  {
    StripIs(s);
    LStrip(RStrip(s))
  }

  lemma StripIs(s: string)
    ensures var r := LStrip(RStrip(s));
      Stripped(r) && (Stripped(s) ==> r == s) && (BreakFree(s) ==> BreakFree(r))
  {
    hide RStrip, LStrip, Stripped, BreakFree;
    StripCuts(s);
    if Stripped(s) {
      StripKeeps(s);
    }
  }

  lemma StripKeeps(s: string)
    requires Stripped(s)
    ensures LStrip(RStrip(s)) == s
  {
    hide IsSpace;
  }

  lemma StripCuts(s: string)
    ensures var r := LStrip(RStrip(s)); Stripped(r) && (BreakFree(s) ==> BreakFree(r))
  {
    hide RStrip, LStrip, IsSpace, IsBreak;
    var t := RStrip(s);
    var r := LStrip(t);
    assert r != "" ==> r[|r| - 1] == t[|t| - 1];
    forall i | 0 <= i < |r| ensures r[i] == s[|t| - |r| + i] {
      assert t[|t| - |r|..][i] == t[|t| - |r| + i];
    }
  }

  // ---------------------------------------------------------------- lines

  /** The texts between the line boundaries: one more than there are boundaries. */
  function Pieces(text: string): (ps: seq<string>)
    ensures |ps| > 0 && forall i :: 0 <= i < |ps| ==> BreakFree(ps[i])
  {
    if text == "" then [""]
    else
      var ps, c := Pieces(text[..|text| - 1]), text[|text| - 1];
      if IsBreak(c) then ps + [""] else ps[..|ps| - 1] + [ps[|ps| - 1] + [c]]
  }

  /** `str.splitlines`: a boundary at the very end opens no further line. */
  function SplitLines(text: string): (lines: seq<string>)
    ensures forall i :: 0 <= i < |lines| ==> BreakFree(lines[i])
  {
    var ps := Pieces(text);
    if ps[|ps| - 1] == "" then ps[..|ps| - 1] else ps
  }

  /** `"\n".join(lines)`. */
  function Join(lines: seq<string>): string
  {
    if lines == [] then ""
    else if |lines| == 1 then lines[0]
    else Join(lines[..|lines| - 1]) + "\n" + lines[|lines| - 1]
  }

  lemma {:induction false} PiecesExtend(text: string, s: string)
    requires BreakFree(s)
    ensures var ps := Pieces(text); Pieces(text + s) == ps[..|ps| - 1] + [ps[|ps| - 1] + s]
  {
    var ps := Pieces(text);
    if s == "" {
      assert text + s == text && ps[|ps| - 1] + s == ps[|ps| - 1];
    } else {
      var n := |s| - 1;
      PiecesExtend(text, s[..n]);
      assert (text + s)[..|text + s| - 1] == text + s[..n];
      assert ps[|ps| - 1] + s == ps[|ps| - 1] + s[..n] + [s[n]];
    }
  }

  lemma PiecesBreak(text: string)
    ensures Pieces(text + "\n") == Pieces(text) + [""]
  {
    assert (text + "\n")[..|text + "\n"| - 1] == text;
  }

  lemma PiecesOfLine(line: string)
    requires BreakFree(line)
    ensures Pieces(line) == [line]
  {
    PiecesExtend("", line);
    assert "" + line == line;
  }

  /** Joined lines split back into themselves. */
  lemma {:induction false} PiecesOfJoin(lines: seq<string>)
    requires lines != [] && forall i :: 0 <= i < |lines| ==> BreakFree(lines[i])
    ensures Pieces(Join(lines)) == lines
  {
    hide Pieces, BreakFree;
    var n := |lines| - 1;
    if n == 0 {
      PiecesOfLine(lines[0]);
    } else {
      var text := Join(lines[..n]);
      PiecesOfJoin(lines[..n]);
      PiecesBreak(text);
      PiecesExtend(text + "\n", lines[n]);
      assert "" + lines[n] == lines[n];
      assert (lines[..n] + [""])[..n] == lines[..n];
      assert lines[..n] + [lines[n]] == lines;
    }
  }

  /** Stripping the end of lines that close with one empty line only takes the last newline. */
  lemma RStripJoin(lines: seq<string>)
    requires |lines| >= 2 && lines[|lines| - 1] == ""
    requires var last := lines[|lines| - 2]; last != "" && !IsSpace(last[|last| - 1])
    ensures RStrip(Join(lines)) + "\n" == Join(lines)
  {
    var body := Join(lines[..|lines| - 1]);
    assert body != "" && !IsSpace(body[|body| - 1]);
    assert Join(lines) == body + "\n";
    assert (body + "\n")[..|body|] == body;
  }
}
