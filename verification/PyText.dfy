/** The string and text-file operations of Python that the style checker is built from. */
module PyText {

  const TAB_SIZE := 4

  /** str.isspace, the characters that strip and rstrip remove. */
  predicate IsSpace(c: char) {
    || c == ' ' || '\t' <= c <= '\r' || '\U{1c}' <= c <= '\U{1f}'
    || c == '\U{85}' || c == '\U{a0}' || c == '\U{1680}' || '\U{2000}' <= c <= '\U{200a}'
    || c == '\U{2028}' || c == '\U{2029}' || c == '\U{202f}' || c == '\U{205f}' || c == '\U{3000}'
  }

  predicate AllSpace(s: string) {
    forall i :: 0 <= i < |s| ==> IsSpace(s[i])
  }

  function RStrip(s: string): string {
    if s == [] || !IsSpace(s[|s| - 1]) then s else RStrip(s[..|s| - 1])
  }

  function LStrip(s: string): string {
    if s == [] || !IsSpace(s[0]) then s else LStrip(s[1..])
  }

  function Strip(s: string): string {
    LStrip(RStrip(s))
  }

  function Spaces(n: nat): string {
    seq(n, _ => ' ')
  }

  function TabWidth(col: nat): nat {
    TAB_SIZE - col % TAB_SIZE
  }

  function NextColumn(c: char, col: nat): nat {
    if c == '\t' then col + TabWidth(col) else if c == '\n' || c == '\r' then 0 else col + 1
  }

  /** str.expandtabs(TAB_SIZE), for a string that starts in column `col`. */
  function Expand(s: string, col: nat): string {
    if s == [] then []
    else (if s[0] == '\t' then Spaces(TabWidth(col)) else [s[0]]) + Expand(s[1..], NextColumn(s[0], col))
  }

  function EndColumn(s: string, col: nat): nat {
    if s == [] then col else EndColumn(s[1..], NextColumn(s[0], col))
  }

  // ----- Text files

  /** Universal newlines: "\r\n" and "\r" are read as "\n". */
  function Universal(s: string): string {
    if s == [] then []
    else if s[0] != '\r' then [s[0]] + Universal(s[1..])
    else if |s| > 1 && s[1] == '\n' then "\n" + Universal(s[2..])
    else "\n" + Universal(s[1..])
  }

  lemma {:induction false} UniversalSpec(s: string)
    ensures '\r' !in Universal(s)
    ensures '\r' !in s ==> Universal(s) == s
    decreases |s|
  {
    if s != [] {
      UniversalSpec(s[1..]);
      assert s == [s[0]] + s[1..];
      if |s| > 1 {
        UniversalSpec(s[2..]);
      }
    }
  }

  lemma {:induction false} UniversalPrefix(a: string, b: string)
    requires '\r' !in a
    ensures Universal(a + b) == a + Universal(b)
    decreases |a|
  {
    if a == [] {
      assert a + b == b;
    } else {
      UniversalPrefix(a[1..], b);
      assert (a + b)[1..] == a[1..] + b;
      assert a == [a[0]] + a[1..];
    }
  }

  /** Each of the three line ends is read as one newline. */
  lemma UniversalEnds(a: string, b: string)
    requires '\r' !in a
    ensures Universal(a + ("\n" + b)) == a + ("\n" + Universal(b))
    ensures Universal(a + ("\r\n" + b)) == a + ("\n" + Universal(b))
    ensures b == [] || b[0] != '\n' ==> Universal(a + ("\r" + b)) == a + ("\n" + Universal(b))
  {
    UniversalPrefix(a, "\n" + b);
    UniversalPrefix(a, "\r\n" + b);
    UniversalPrefix(a, "\r" + b);
    assert ("\n" + b)[1..] == b && ("\r\n" + b)[2..] == b && ("\r" + b)[1..] == b;
  }

  lemma {:induction false} UniversalKeepsTabs(s: string)
    ensures '\t' in Universal(s) <==> '\t' in s
    decreases |s|
  {
    if s != [] {
      assert s == [s[0]] + s[1..];
      UniversalKeepsTabs(s[1..]);
      if |s| > 1 {
        assert s[1..] == [s[1]] + s[2..];
        UniversalKeepsTabs(s[2..]);
      }
    }
  }

  /** The length of the first line of `s`, its newline included. */
  function LineLength(s: string): (k: nat)
    requires s != []
    ensures 1 <= k <= |s|
    ensures forall j :: 0 <= j < k - 1 ==> s[j] != '\n'
    ensures k < |s| ==> s[k - 1] == '\n'
  {
    if s[0] == '\n' || |s| == 1 then 1 else 1 + LineLength(s[1..])
  }

  function ReadLines(s: string): seq<string> {
    if s == [] then []
    else
      var k := LineLength(s);
      [s[..k]] + ReadLines(s[k..])
  }

  function WriteLines(ls: seq<string>): string {
    if ls == [] then [] else ls[0] + WriteLines(ls[1..])
  }

  /** A line as readlines yields it: a newline at the end only, and missing in the last line only. */
  predicate IsLine(l: string, last: bool) {
    && l != []
    && (forall j :: 0 <= j < |l| - 1 ==> l[j] != '\n')
    && (last || l[|l| - 1] == '\n')
    && '\r' !in l
  }

  predicate IsLines(ls: seq<string>) {
    forall i :: 0 <= i < |ls| ==> IsLine(ls[i], i == |ls| - 1)
  }

  lemma {:induction false} ReadLinesShape(s: string)
    requires '\r' !in s
    ensures IsLines(ReadLines(s))
    decreases |s|
  {
    if s != [] {
      var k := LineLength(s);
      ReadLinesShape(s[k..]);
      var rest := ReadLines(s[k..]);
      assert IsLine(s[..k], k == |s|);
      assert rest == [] <==> k == |s|;
    }
  }

  lemma {:induction false} LineLengthIs(l: string, rest: string)
    requires IsLine(l, rest == [])
    ensures LineLength(l + rest) == |l|
    decreases |l|
  {
    if |l| > 1 {
      assert (l + rest)[1..] == l[1..] + rest;
      LineLengthIs(l[1..], rest);
    }
  }

  lemma TailIsLines(ls: seq<string>)
    requires IsLines(ls) && ls != []
    ensures IsLine(ls[0], |ls| == 1) && IsLines(ls[1..])
  {
    assert IsLine(ls[0], 0 == |ls| - 1);
    forall i | 0 <= i < |ls[1..]|
      ensures IsLine(ls[1..][i], i == |ls[1..]| - 1)
    {
      assert IsLine(ls[i + 1], i + 1 == |ls| - 1);
    }
  }

  lemma NoReturnInFile(ls: seq<string>)
    requires IsLines(ls)
    ensures '\r' !in WriteLines(ls)
  {
    if ls != [] {
      TailIsLines(ls);
      NoReturnInFile(ls[1..]);
    }
  }

  lemma {:induction false} ReadWritten(ls: seq<string>)
    requires IsLines(ls)
    ensures ReadLines(WriteLines(ls)) == ls
  {
    if ls != [] {
      var rest := WriteLines(ls[1..]);
      TailIsLines(ls);
      ReadWritten(ls[1..]);
      if |ls| > 1 {
        TailIsLines(ls[1..]);
      }
      LineLengthIs(ls[0], rest);
      assert (ls[0] + rest)[..|ls[0]|] == ls[0] && (ls[0] + rest)[|ls[0]|..] == rest;
    }
  }

  /** The lines of a file with this content. */
  function Lines(content: string): seq<string> {
    ReadLines(Universal(content))
  }

  lemma LinesShape(content: string)
    ensures IsLines(Lines(content))
  {
    UniversalSpec(content);
    ReadLinesShape(Universal(content));
  }

  /** Reading back a file that was written from lines yields those lines. */
  lemma RoundTrip(ls: seq<string>)
    requires IsLines(ls)
    ensures Lines(WriteLines(ls)) == ls
  {
    NoReturnInFile(ls);
    UniversalSpec(WriteLines(ls));
    ReadWritten(ls);
  }

  // ----- Expanding tabs

  lemma {:induction false} ExpandIsTabFree(s: string, col: nat)
    ensures '\t' !in Expand(s, col)
    decreases |s|
  {
    if s != [] {
      ExpandIsTabFree(s[1..], NextColumn(s[0], col));
    }
  }

  lemma {:induction false} ExpandTabFree(s: string, col: nat)
    requires '\t' !in s
    ensures Expand(s, col) == s
    decreases |s|
  {
    if s != [] {
      ExpandTabFree(s[1..], NextColumn(s[0], col));
      assert s == [s[0]] + s[1..];
    }
  }

  lemma {:induction false} ExpandConcat(a: string, b: string, col: nat)
    ensures Expand(a + b, col) == Expand(a, col) + Expand(b, EndColumn(a, col))
    decreases |a|
  {
    if a == [] {
      assert a + b == b;
    } else {
      assert (a + b)[0] == a[0] && (a + b)[1..] == a[1..] + b;
      ExpandConcat(a[1..], b, NextColumn(a[0], col));
    }
  }

  lemma {:induction false} ExpandSpace(s: string, col: nat)
    requires AllSpace(s)
    ensures AllSpace(Expand(s, col))
    decreases |s|
  {
    if s != [] {
      ExpandSpace(s[1..], NextColumn(s[0], col));
    }
  }

  lemma {:induction false} ExpandNewlines(s: string, col: nat)
    requires '\n' !in s && '\r' !in s
    ensures '\n' !in Expand(s, col) && '\r' !in Expand(s, col)
    decreases |s|
  {
    if s != [] {
      ExpandNewlines(s[1..], NextColumn(s[0], col));
    }
  }

  /** Expansion keeps a last character that is not a tab. */
  lemma ExpandLast(s: string, col: nat)
    requires s != [] && s[|s| - 1] != '\t'
    ensures Expand(s, col) == Expand(s[..|s| - 1], col) + [s[|s| - 1]]
  {
    var k := |s| - 1;
    assert s == s[..k] + [s[k]];
    ExpandConcat(s[..k], [s[k]], col);
    assert [s[k]][1..] == [];
  }

  // ----- Stripping

  lemma {:induction false} RStripSpec(s: string)
    ensures RStrip(s) <= s && AllSpace(s[|RStrip(s)|..])
    ensures RStrip(s) == [] || !IsSpace(RStrip(s)[|RStrip(s)| - 1])
    decreases |s|
  {
    var k := |s| - 1;
    if s != [] && IsSpace(s[k]) {
      RStripSpec(s[..k]);
      assert s[|RStrip(s)|..] == s[..k][|RStrip(s)|..] + [s[k]];
    }
  }

  lemma {:induction false} LStripSpec(s: string)
    ensures var n := |LStrip(s)|; n <= |s| && LStrip(s) == s[|s| - n..] && AllSpace(s[..|s| - n])
    ensures LStrip(s) == [] || !IsSpace(LStrip(s)[0])
    decreases |s|
  {
    if s != [] && IsSpace(s[0]) {
      LStripSpec(s[1..]);
      var n := |LStrip(s)|;
      assert s[..|s| - n] == [s[0]] + s[1..][..|s| - 1 - n];
    }
  }

  predicate Trimmed(s: string) {
    s == [] || (!IsSpace(s[0]) && !IsSpace(s[|s| - 1]))
  }

  lemma {:induction false} RStripUnique(s: string, r: string)
    requires r <= s && AllSpace(s[|r|..]) && (r == [] || !IsSpace(r[|r| - 1]))
    ensures RStrip(s) == r
    decreases |s|
  {
    var k := |s| - 1;
    if |r| <= k {
      assert s[k] == s[|r|..][k - |r|];
      assert s[..k][|r|..] == s[|r|..][..k - |r|];
      RStripUnique(s[..k], r);
    }
  }

  lemma {:induction false} LStripUnique(s: string, r: string)
    requires |r| <= |s| && r == s[|s| - |r|..] && AllSpace(s[..|s| - |r|]) && (r == [] || !IsSpace(r[0]))
    ensures LStrip(s) == r
    decreases |s|
  {
    if |r| < |s| {
      assert s[0] == s[..|s| - |r|][0];
      assert s[1..][..|s| - 1 - |r|] == s[..|s| - |r|][1..];
      LStripUnique(s[1..], r);
    }
  }

  /** Strip finds the trimmed core between two runs of white space. */
  lemma StripCore(lead: string, core: string, trail: string)
    requires AllSpace(lead) && AllSpace(trail) && Trimmed(core) && core != []
    ensures Strip(lead + core + trail) == core
  {
    var s := lead + core + trail;
    assert s[|lead + core|..] == trail;
    RStripUnique(s, lead + core);
    LStripUnique(lead + core, core);
  }

  lemma StripTrims(s: string)
    ensures Trimmed(Strip(s))
  {
    var r := RStrip(s);
    var core := LStrip(r);
    RStripSpec(s);
    LStripSpec(r);
    if core != [] {
      assert core[|core| - 1] == r[|r| - 1];
    }
  }

  /** The white space around the core of `s`. */
  lemma StripSplits(s: string) returns (lead: string, trail: string)
    ensures AllSpace(lead) && AllSpace(trail)
    ensures s == lead + Strip(s) + trail
  {
    var r := RStrip(s);
    trail := RStripSplits(s);
    lead := LStripSplits(r);
    assert Strip(s) == LStrip(r);
  }

  lemma RStripSplits(s: string) returns (trail: string)
    ensures AllSpace(trail) && s == RStrip(s) + trail
  {
    RStripSpec(s);
    trail := s[|RStrip(s)|..];
  }

  lemma LStripSplits(s: string) returns (lead: string)
    ensures AllSpace(lead) && s == lead + LStrip(s)
  {
    LStripSpec(s);
    lead := s[..|s| - |LStrip(s)|];
  }

  /** Expanding tabs around and outside a core without tabs leaves what strip sees unchanged. */
  lemma StripExpand(s: string)
    requires '\t' !in Strip(s) && Strip(s) != []
    ensures Strip(Expand(s, 0)) == Strip(s)
  {
    var lead, trail := StripSplits(s);
    var core := Strip(s);
    StripTrims(s);
    ExpandConcat(lead + core, trail, 0);
    ExpandConcat(lead, core, 0);
    ExpandTabFree(core, EndColumn(lead, 0));
    ExpandSpace(lead, 0);
    ExpandSpace(trail, EndColumn(lead + core, 0));
    StripCore(Expand(lead, 0), core, Expand(trail, EndColumn(lead + core, 0)));
  }

  lemma RStripNewline(s: string)
    ensures RStrip(RStrip(s) + "\n") == RStrip(s)
    ensures Strip(RStrip(s) + "\n") == Strip(s)
  {
    RStripSpec(s);
    RStripUnique(RStrip(s) + "\n", RStrip(s));
  }

  /** Trailing white space may be removed before or after expanding tabs. */
  lemma RStripExpand(s: string)
    ensures RStrip(Expand(s, 0)) == Expand(RStrip(s), 0)
  {
    var r := RStrip(s);
    RStripSpec(s);
    assert s == r + s[|r|..];
    ExpandConcat(r, s[|r|..], 0);
    ExpandSpace(s[|r|..], EndColumn(r, 0));
    if r != [] {
      ExpandLast(r, 0);
    }
    RStripUnique(Expand(s, 0), Expand(r, 0));
  }

  // ----- What expansion and stripping leave alone

  /** The text without its white space. */
  function Visible(s: string): string {
    if s == [] then [] else if IsSpace(s[0]) then Visible(s[1..]) else [s[0]] + Visible(s[1..])
  }

  lemma {:induction false} VisibleConcat(a: string, b: string)
    ensures Visible(a + b) == Visible(a) + Visible(b)
    decreases |a|
  {
    if a == [] {
      assert a + b == b;
    } else {
      assert (a + b)[0] == a[0] && (a + b)[1..] == a[1..] + b;
      VisibleConcat(a[1..], b);
    }
  }

  lemma {:induction false} VisibleSpace(s: string)
    requires AllSpace(s)
    ensures Visible(s) == []
    decreases |s|
  {
    if s != [] {
      VisibleSpace(s[1..]);
    }
  }

  lemma {:induction false} ExpandKeepsText(s: string, col: nat)
    ensures Visible(Expand(s, col)) == Visible(s)
    decreases |s|
  {
    if s != [] {
      var rest := Expand(s[1..], NextColumn(s[0], col));
      ExpandKeepsText(s[1..], NextColumn(s[0], col));
      if s[0] == '\t' {
        VisibleConcat(Spaces(TabWidth(col)), rest);
        VisibleSpace(Spaces(TabWidth(col)));
      } else {
        assert ([s[0]] + rest)[1..] == rest;
      }
    }
  }

  lemma {:induction false} SpacesColumn(n: nat, col: nat)
    ensures EndColumn(Spaces(n), col) == col + n
    decreases n
  {
    if n > 0 {
      assert Spaces(n)[1..] == Spaces(n - 1);
      SpacesColumn(n - 1, col + 1);
    }
  }

  lemma {:induction false} ColumnConcat(a: string, b: string, col: nat)
    ensures EndColumn(a + b, col) == EndColumn(b, EndColumn(a, col))
    decreases |a|
  {
    if a == [] {
      assert a + b == b;
    } else {
      assert (a + b)[0] == a[0] && (a + b)[1..] == a[1..] + b;
      ColumnConcat(a[1..], b, NextColumn(a[0], col));
    }
  }

  /** Expansion moves nothing: what follows a string starts in the same column as before. A tab ends
      on a multiple of the tab size, at least one column on. */
  lemma {:induction false} ExpandKeepsColumns(s: string, col: nat)
    ensures EndColumn(Expand(s, col), col) == EndColumn(s, col)
    ensures NextColumn('\t', col) % TAB_SIZE == 0 && col < NextColumn('\t', col) <= col + TAB_SIZE
    decreases |s|
  {
    if s != [] {
      var next := NextColumn(s[0], col);
      var rest := Expand(s[1..], next);
      ExpandKeepsColumns(s[1..], next);
      if s[0] == '\t' {
        ColumnConcat(Spaces(TabWidth(col)), rest, col);
        SpacesColumn(TabWidth(col), col);
      } else {
        assert ([s[0]] + rest)[1..] == rest;
      }
    }
  }

  /** On one line the column is the length of the text so far. */
  lemma {:induction false} ColumnIsLength(s: string, col: nat)
    requires '\n' !in s && '\r' !in s
    ensures EndColumn(s, col) == col + |Expand(s, col)|
    decreases |s|
  {
    if s != [] {
      ColumnIsLength(s[1..], NextColumn(s[0], col));
    }
  }

  /** Expansion character by character: a tab becomes one to four spaces up to a multiple of four
      columns, and any other character is kept. */
  lemma ExpandStops(s: string, i: nat)
    requires i < |s| && '\n' !in s[..i] && '\r' !in s[..i]
    ensures
      var before, after := Expand(s[..i], 0), Expand(s[..i + 1], 0);
      if s[i] == '\t' then
        && before <= after && |before| < |after| <= |before| + 4 && |after| % 4 == 0
        && forall j :: |before| <= j < |after| ==> after[j] == ' '
      else after == before + [s[i]]
  {
    var col := EndColumn(s[..i], 0);
    assert s[..i + 1] == s[..i] + [s[i]];
    ExpandConcat(s[..i], [s[i]], 0);
    ColumnIsLength(s[..i], 0);
    assert [s[i]][1..] == [] && Expand([], NextColumn(s[i], col)) == [];
    assert Expand([s[i]], col) == if s[i] == '\t' then Spaces(TabWidth(col)) else [s[i]];
  }

  lemma RStripKeepsText(s: string)
    ensures Visible(RStrip(s) + "\n") == Visible(s)
  {
    var r := RStrip(s);
    RStripSpec(s);
    assert s == r + s[|r|..];
    VisibleConcat(r, s[|r|..]);
    VisibleSpace(s[|r|..]);
    VisibleConcat(r, "\n");
    VisibleSpace("\n");
  }

  lemma {:induction false} UniversalKeepsText(s: string)
    ensures Visible(Universal(s)) == Visible(s)
    decreases |s|
  {
    if s != [] {
      UniversalKeepsText(s[1..]);
      if s[0] != '\r' {
        assert ([s[0]] + Universal(s[1..]))[1..] == Universal(s[1..]);
      } else if |s| > 1 && s[1] == '\n' {
        UniversalKeepsText(s[2..]);
        assert s[1..][1..] == s[2..] && ("\n" + Universal(s[2..]))[1..] == Universal(s[2..]);
      } else {
        assert ("\n" + Universal(s[1..]))[1..] == Universal(s[1..]);
      }
    }
  }

  lemma {:induction false} TabInLines(ls: seq<string>)
    ensures '\t' in WriteLines(ls) <==> exists i :: 0 <= i < |ls| && '\t' in ls[i]
  {
    if ls != [] {
      TabInLines(ls[1..]);
      if '\t' in WriteLines(ls[1..]) {
        var i :| 0 <= i < |ls[1..]| && '\t' in ls[1..][i];
        assert '\t' in ls[i + 1];
      }
      if i :| 0 <= i < |ls| && '\t' in ls[i] {
        assert i > 0 ==> '\t' in ls[1..][i - 1];
      }
    }
  }

  lemma WriteCons(l: string, ls: seq<string>)
    ensures WriteLines([l] + ls) == l + WriteLines(ls)
  {
    assert ([l] + ls)[1..] == ls;
  }

  lemma {:induction false} WriteRead(s: string)
    ensures WriteLines(ReadLines(s)) == s
    decreases |s|
  {
    if s != [] {
      var k := LineLength(s);
      WriteRead(s[k..]);
      WriteCons(s[..k], ReadLines(s[k..]));
      assert s == s[..k] + s[k..];
    }
  }
}
