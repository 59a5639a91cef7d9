/** The line-by-line style checker and fixer, with its clang-format guards. */
module Style {
  import opened PyText

  const GUARD_ON := "// clang-format on"
  const GUARD_OFF := "// clang-format off"

  datatype Rule = Whitespace | Tabs

  /** What the line functions check and what they replace an offending line by. */
  predicate LineOk(rule: Rule, line: string) {
    match rule
    case Whitespace => RStrip(line) + "\n" == line
    case Tabs => '\t' !in line
  }

  function FixLine(rule: Rule, line: string): string {
    match rule
    case Whitespace => RStrip(line) + "\n"
    case Tabs => if '\t' in line then Expand(line, 0) else line
  }

  datatype Guard = On | Off | NoGuard

  function GuardOf(line: string): Guard {
    var stripped := Strip(line);
    if stripped == GUARD_ON then On else if stripped == GUARD_OFF then Off else NoGuard
  }

  function Guards(lines: seq<string>): seq<Guard> {
    seq(|lines|, i requires 0 <= i < |lines| => GuardOf(lines[i]))
  }

  /** The enabled flag after reading the first `n` lines. */
  function EnabledAfter(gs: seq<Guard>, n: nat): bool
    requires n <= |gs|
  {
    if n == 0 then true
    else if gs[n - 1].On? then true
    else if gs[n - 1].Off? then false
    else EnabledAfter(gs, n - 1)
  }

  /** Whether line `i` is checked: not if guards count and it lies in a switched-off region. */
  predicate Checked(guards: bool, lines: seq<string>, i: nat)
    requires i < |lines|
  {
    var gs := Guards(lines);
    !guards || EnabledAfter(gs, i + 1) || gs[i] != NoGuard
  }

  predicate OkAt(guards: bool, rule: Rule, lines: seq<string>, i: nat)
    requires i < |lines|
  {
    Checked(guards, lines, i) ==> LineOk(rule, lines[i])
  }

  predicate Clean(guards: bool, rule: Rule, lines: seq<string>) {
    forall i :: 0 <= i < |lines| ==> OkAt(guards, rule, lines, i)
  }

  function FixedAt(guards: bool, rule: Rule, lines: seq<string>, i: nat): string
    requires i < |lines|
  {
    if Checked(guards, lines, i) then FixLine(rule, lines[i]) else lines[i]
  }

  function FixLines(guards: bool, rule: Rule, lines: seq<string>): seq<string> {
    seq(|lines|, i requires 0 <= i < |lines| => FixedAt(guards, rule, lines, i))
  }

  /** The indices of the offending lines among the first `n`, in order. */
  function Offending(guards: bool, rule: Rule, lines: seq<string>, n: nat): seq<nat>
    requires n <= |lines|
  {
    if n == 0 then []
    else if OkAt(guards, rule, lines, n - 1) then Offending(guards, rule, lines, n - 1)
    else Offending(guards, rule, lines, n - 1) + [n - 1]
  }

  predicate FileClean(guards: bool, rule: Rule, content: string) {
    Clean(guards, rule, Lines(content))
  }

  /** The content of a file after the checker has run on it in fix mode. */
  function FixFile(guards: bool, rule: Rule, content: string): string {
    if FileClean(guards, rule, content) then content
    else WriteLines(FixLines(guards, rule, Lines(content)))
  }

  lemma {:induction false} NoneOffending(guards: bool, rule: Rule, lines: seq<string>, n: nat)
    requires n <= |lines|
    ensures Offending(guards, rule, lines, n) == [] <==> forall i :: 0 <= i < n ==> OkAt(guards, rule, lines, i)
  {
    if n > 0 {
      NoneOffending(guards, rule, lines, n - 1);
    }
  }

  lemma OkLinesStay(rule: Rule, line: string)
    ensures LineOk(rule, line) ==> FixLine(rule, line) == line
  {
  }

  /** The guard test at the top of the loop. */
  method ReadGuard(guards: bool, enabled: bool, lines: seq<string>, i: nat) returns (enabled': bool, check: bool)
    requires i < |lines| && (guards ==> enabled == EnabledAfter(Guards(lines), i))
    ensures guards ==> enabled' == EnabledAfter(Guards(lines), i + 1)
    ensures check == Checked(guards, lines, i)
  {
    enabled', check := enabled, true;
    if guards {
      var guard := GuardOf(lines[i]);
      assert guard == Guards(lines)[i];
      if guard.On? {
        enabled' := true;
      } else if guard.Off? {
        enabled' := false;
      }
      check := enabled' || guard != NoGuard;
    }
  }

  /** Replacing the line at `i` extends the finished part of a list by one. */
  lemma Advance<T>(cur: seq<T>, done: seq<T>, todo: seq<T>, i: nat)
    requires |cur| == |done| == |todo| && i < |cur|
    requires cur[..i] == done[..i] && cur[i..] == todo[i..]
    ensures cur[i := done[i]][..i + 1] == done[..i + 1] && cur[i := done[i]][i + 1..] == todo[i + 1..]
    ensures cur[i] == todo[i]
  {
    assert cur[i] == cur[i..][0] == todo[i..][0];
    assert done[..i + 1] == done[..i] + [done[i]];
    assert cur[i := done[i]][..i + 1] == cur[..i] + [done[i]];
    assert cur[i := done[i]][i + 1..] == cur[i..][1..] && todo[i + 1..] == todo[i..][1..];
  }

  lemma Unchanged<T>(s: seq<T>, i: nat)
    requires i < |s|
    ensures s[i := s[i]] == s
  {
  }

  /** The first `i` lines have gone through the fixer, the others have not. */
  predicate FixedUpTo(guards: bool, rule: Rule, lines: seq<string>, fileLines: seq<string>, i: nat)
    requires i <= |lines|
  {
    && |fileLines| == |lines|
    && fileLines[..i] == FixLines(guards, rule, lines)[..i] && fileLines[i..] == lines[i..]
  }

  /** The rest of the loop body: checks a line and puts its fixed form in its place. */
  method CheckLine(guards: bool, rule: Rule, lines: seq<string>, current: seq<string>, i: nat, check: bool)
    returns (ok: bool, fileLines: seq<string>)
    requires i < |lines| && check == Checked(guards, lines, i) && FixedUpTo(guards, rule, lines, current, i)
    ensures ok <==> OkAt(guards, rule, lines, i)
    ensures FixedUpTo(guards, rule, lines, fileLines, i + 1)
  {
    ok, fileLines := true, current;
    Advance(current, FixLines(guards, rule, lines), lines, i);
    Unchanged(current, i);
    var line := current[i];
    OkLinesStay(rule, line);
    if check && !LineOk(rule, line) {
      ok := false;
      fileLines := fileLines[i := FixLine(rule, line)];
    }
  }

  /** The loop over the lines. Plain check mode stops at the first offending line. */
  method CheckLines(lines: seq<string>, stopEarly: bool, guards: bool, rule: Rule)
    returns (compliant: bool, fileLines: seq<string>, reported: seq<nat>)
    ensures compliant <==> reported == []
    ensures !stopEarly ==>
              fileLines == FixLines(guards, rule, lines) && reported == Offending(guards, rule, lines, |lines|)
    ensures stopEarly ==> |reported| <= 1 && reported <= Offending(guards, rule, lines, |lines|)
    ensures compliant ==> Offending(guards, rule, lines, |lines|) == []
  {
    compliant, reported, fileLines := true, [], lines;
    var enabled := true;
    for i := 0 to |lines|
      invariant guards ==> enabled == EnabledAfter(Guards(lines), i)
      invariant FixedUpTo(guards, rule, lines, fileLines, i)
      invariant reported == Offending(guards, rule, lines, i)
      invariant reported == [] <==> compliant
      invariant stopEarly ==> compliant
    {
      var check, ok;
      enabled, check := ReadGuard(guards, enabled, lines, i);
      ok, fileLines := CheckLine(guards, rule, lines, fileLines, i, check);
      if !ok {
        compliant := false;
        reported := reported + [i];
        if stopEarly {
          OffendingPrefix(guards, rule, lines, i + 1, |lines|);
          return;
        }
      }
    }
    AllFixed(guards, rule, lines, fileLines);
  }

  lemma AllFixed(guards: bool, rule: Rule, lines: seq<string>, fileLines: seq<string>)
    requires FixedUpTo(guards, rule, lines, fileLines, |lines|)
    ensures fileLines == FixLines(guards, rule, lines)
  {
    var fixed := FixLines(guards, rule, lines);
    assert fileLines == fileLines[..|lines|] && fixed == fixed[..|lines|];
  }

  /** One file: the verdict, the new content and the lines reported. */
  method CheckManuallyFile(content: string, fix: bool, verbose: bool, guards: bool, rule: Rule)
    returns (compliant: bool, written: string, reported: seq<nat>)
    ensures compliant <==> FileClean(guards, rule, content)
    ensures written == if fix then FixFile(guards, rule, content) else content
    ensures rule.Tabs? && AllChecked(guards, content) ==> (compliant <==> '\t' !in content)
    ensures
      var all := Offending(guards, rule, Lines(content), |Lines(content)|);
      if fix || verbose then reported == all else |reported| <= 1 && reported <= all && (reported == [] <==> compliant)
  {
    var lines := Lines(content);
    var fileLines;
    NoneOffending(guards, rule, lines, |lines|);
    if AllChecked(guards, content) {
      NoTabsIff(guards, content);
    }
    compliant, fileLines, reported := CheckLines(lines, !fix && !verbose, guards, rule);
    written := content;
    if fix && !compliant {
      written := WriteLines(fileLines);
    }
  }

  lemma {:induction false} OffendingPrefix(guards: bool, rule: Rule, lines: seq<string>, m: nat, n: nat)
    requires m <= n <= |lines|
    ensures Offending(guards, rule, lines, m) <= Offending(guards, rule, lines, n)
  {
    if m < n {
      OffendingPrefix(guards, rule, lines, m, n - 1);
    }
  }

  // ----- What is checked and what a fix writes, in terms of the text

  /** Line `j` is an OFF guard and no ON guard stands between it and position `n`. */
  predicate OffFrom(lines: seq<string>, j: nat, n: nat)
    requires j < n <= |lines|
  {
    Strip(lines[j]) == "// clang-format off" && forall k :: j < k < n ==> Strip(lines[k]) != "// clang-format on"
  }

  /** The last guard before position `n` is an OFF guard. */
  predicate OffBefore(lines: seq<string>, n: nat)
    requires n <= |lines|
  {
    exists j :: 0 <= j < n && OffFrom(lines, j, n)
  }

  lemma OffBeforeNext(lines: seq<string>, n: nat)
    requires n < |lines|
    ensures OffBefore(lines, n + 1) <==>
      || Strip(lines[n]) == "// clang-format off"
      || (OffBefore(lines, n) && Strip(lines[n]) != "// clang-format on")
  {
    var m := n + 1;
    GuardTextsDiffer();
    if Strip(lines[n]) == "// clang-format off" {
      assert OffFrom(lines, n, n + 1);
    } else if j :| 0 <= j < n && OffFrom(lines, j, n) {
      assert Strip(lines[n]) != "// clang-format on" ==> OffFrom(lines, j, n + 1);
    }
    if j :| 0 <= j < m && OffFrom(lines, j, m) {
      assert j < n ==> OffFrom(lines, j, n);
    }
  }

  lemma {:induction false} FlagByText(lines: seq<string>, n: nat)
    requires n <= |lines|
    ensures EnabledAfter(Guards(lines), n) <==> !OffBefore(lines, n)
  {
    if n > 0 {
      FlagByText(lines, n - 1);
      OffBeforeNext(lines, n - 1);
      assert Guards(lines)[n - 1] == GuardOf(lines[n - 1]);
      GuardTextsDiffer();
    }
  }

  lemma GuardTextsDiffer()
    ensures "// clang-format on" != "// clang-format off"
  {
    assert "// clang-format on"[17] != "// clang-format off"[17];
  }

  /** A line goes unchecked exactly if guards count, it is no guard itself, and the last guard before it
      is an OFF guard. */
  lemma UncheckedIff(guards: bool, lines: seq<string>, i: nat)
    requires i < |lines|
    ensures !Checked(guards, lines, i) <==>
      && guards && OffBefore(lines, i)
      && Strip(lines[i]) != "// clang-format on" && Strip(lines[i]) != "// clang-format off"
  {
    FlagByText(lines, i);
    FlagByText(lines, i + 1);
    assert Guards(lines)[i] == GuardOf(lines[i]);
  }

  /** No guard switches anything off. */
  ghost predicate AllChecked(guards: bool, content: string) {
    guards ==> forall j :: 0 <= j < |Lines(content)| ==> Strip(Lines(content)[j]) != "// clang-format off"
  }

  lemma NothingUnchecked(guards: bool, content: string)
    requires AllChecked(guards, content)
    ensures forall i :: 0 <= i < |Lines(content)| ==> Checked(guards, Lines(content), i)
  {
    forall i | 0 <= i < |Lines(content)|
      ensures Checked(guards, Lines(content), i)
    {
      UncheckedIff(guards, Lines(content), i);
    }
  }

  /** A file without OFF guard passes the tab check exactly if there is no tab in it. */
  lemma {:induction false} NoTabsIff(guards: bool, content: string)
    requires AllChecked(guards, content)
    ensures FileClean(guards, Tabs, content) <==> '\t' !in content
  {
    var lines := Lines(content);
    NothingUnchecked(guards, content);
    WriteRead(Universal(content));
    TabInLines(lines);
    UniversalKeepsTabs(content);
    forall i | 0 <= i < |lines|
      ensures OkAt(guards, Tabs, lines, i) <==> '\t' !in lines[i]
    {
    }
  }

  /** It passes the white-space check exactly if every line, the last one too, ends in a newline that no
      white space precedes. */
  lemma {:induction false} NoTrailingSpaceIff(guards: bool, content: string)
    requires AllChecked(guards, content)
    ensures FileClean(guards, Whitespace, content) <==>
      forall i :: 0 <= i < |Lines(content)| ==> EndsPlainly(Lines(content)[i])
  {
    var lines := Lines(content);
    NothingUnchecked(guards, content);
    forall i | 0 <= i < |lines|
      ensures OkAt(guards, Whitespace, lines, i) <==> EndsPlainly(lines[i])
    {
      EndsPlainlyIff(lines[i]);
    }
  }

  predicate EndsPlainly(line: string) {
    line != [] && line[|line| - 1] == '\n' && (|line| == 1 || !IsSpace(line[|line| - 2]))
  }

  lemma EndsPlainlyIff(line: string)
    ensures LineOk(Whitespace, line) <==> EndsPlainly(line)
  {
    RStripSpec(line);
    if EndsPlainly(line) {
      RStripUnique(line, line[..|line| - 1]);
    }
  }

  /** The white-space fix removes blanks at the end of a line and nothing before them. */
  lemma TrailingBlanksGo(text: string, blanks: string)
    requires text != [] && '!' <= text[|text| - 1] <= '~'
    requires forall i :: 0 <= i < |blanks| ==> blanks[i] in {' ', '\t', '\r', '\n'}
    ensures FixLine(Whitespace, text + blanks) == text + "\n"
  {
    RStripUnique(text + blanks, text);
  }

  /** The reported lines are the offending ones, in order. */
  lemma {:induction false} OffendingIff(guards: bool, rule: Rule, lines: seq<string>, n: nat, i: nat)
    requires n <= |lines|
    ensures i in Offending(guards, rule, lines, n) <==> i < n && !OkAt(guards, rule, lines, i)
    ensures
      var reported := Offending(guards, rule, lines, n);
      && (forall j :: 0 <= j < |reported| ==> reported[j] < n)
      && (forall j, k :: 0 <= j < k < |reported| ==> reported[j] < reported[k])
  {
    if n > 0 {
      OffendingIff(guards, rule, lines, n - 1, i);
    }
  }

  // ----- Fixing is stable

  lemma FixedLineIsOk(rule: Rule, line: string)
    ensures LineOk(rule, FixLine(rule, line))
  {
    match rule
    case Whitespace => RStripNewline(line);
    case Tabs => ExpandIsTabFree(line, 0);
  }

  lemma GuardTextHasNoTabs()
    ensures '\t' !in GUARD_ON && '\t' !in GUARD_OFF
  {
  }

  /** A guard line stays the guard it is when it is fixed. */
  lemma GuardSurvives(rule: Rule, line: string)
    requires GuardOf(line) != NoGuard
    ensures GuardOf(FixLine(rule, line)) == GuardOf(line)
  {
    match rule
    case Whitespace => RStripNewline(line);
    case Tabs =>
      GuardTextHasNoTabs();
      StripExpand(line);
  }

  lemma StripTrimmed(s: string)
    requires Trimmed(s) && s != []
    ensures Strip(s) == s
  {
    StripCore("", s, "");
    assert "" + s + "" == s;
  }

  lemma ExpandTab(col: nat)
    ensures Expand("\t", col) == Spaces(TabWidth(col))
  {
    assert "\t"[1..] == "";
  }

  lemma ExpandOneTab(a: string, b: string)
    requires '\t' !in a && '\n' !in a && '\r' !in a && '\t' !in b
    ensures Expand(a + "\t" + b, 0) == a + Spaces(TabWidth(|a|)) + b
  {
    ExpandConcat(a + "\t", b, 0);
    ExpandConcat(a, "\t", 0);
    ExpandTabFree(a, 0);
    ExpandTabFree(b, EndColumn(a + "\t", 0));
    ColumnOf(a, 0);
    ExpandTab(|a|);
  }

  /** The tab fixer can create a guard out of a line that was none. */
  lemma FixCanCreateGuard()
    ensures GuardOf("// clang-format" + "\t" + "off") == NoGuard
    ensures GuardOf(FixLine(Tabs, "// clang-format" + "\t" + "off")) == Off
  {
    var a := "// clang-format";
    var line := a + "\t" + "off";
    assert line[15] == '\t' && GUARD_ON[15] == ' ' && GUARD_OFF[15] == ' ';
    StripTrimmed(line);
    ExpandOneTab(a, "off");
    assert Spaces(TabWidth(|a|)) == " ";
    assert a + " " + "off" == GUARD_OFF;
    StripTrimmed(GUARD_OFF);
    assert GUARD_OFF[|GUARD_OFF| - 1] != GUARD_ON[|GUARD_ON| - 1];
  }

  lemma {:induction false} ColumnOf(s: string, col: nat)
    requires '\t' !in s && '\n' !in s && '\r' !in s
    ensures EndColumn(s, col) == col + |s|
    decreases |s|
  {
    if s != [] {
      ColumnOf(s[1..], col + 1);
    }
  }

  /** A second pass over guards `gs'` enables no more than the first pass over `gs`, if it finds all
      the guards of the first, and new ones only where the first was enabled. */
  lemma {:induction false} DisabledStaysDisabled(gs: seq<Guard>, gs': seq<Guard>, n: nat)
    requires n <= |gs| == |gs'|
    requires forall i :: 0 <= i < |gs| && gs[i] != NoGuard ==> gs'[i] == gs[i]
    requires forall i :: 0 <= i < |gs| && gs[i] == NoGuard && !EnabledAfter(gs, i + 1) ==> gs'[i] == NoGuard
    ensures EnabledAfter(gs', n) ==> EnabledAfter(gs, n)
  {
    if n > 0 {
      DisabledStaysDisabled(gs, gs', n - 1);
    }
  }

  lemma GuardsOfFixed(rule: Rule, lines: seq<string>, i: nat)
    requires i < |lines|
    ensures
      var gs, gs' := Guards(lines), Guards(FixLines(true, rule, lines));
      && (gs[i] != NoGuard ==> gs'[i] == gs[i])
      && (gs[i] == NoGuard && !EnabledAfter(gs, i + 1) ==> gs'[i] == NoGuard)
  {
    if Guards(lines)[i] != NoGuard {
      GuardSurvives(rule, lines[i]);
    }
  }

  /** What is switched off in the first pass is switched off in the second, although fixing can turn
      ordinary lines into guards. */
  lemma CheckedAgain(guards: bool, rule: Rule, lines: seq<string>, i: nat)
    requires i < |lines| && Checked(guards, FixLines(guards, rule, lines), i)
    ensures Checked(guards, lines, i)
  {
    if guards {
      var gs, gs' := Guards(lines), Guards(FixLines(true, rule, lines));
      forall j | 0 <= j < |lines|
        ensures gs[j] != NoGuard ==> gs'[j] == gs[j]
        ensures gs[j] == NoGuard && !EnabledAfter(gs, j + 1) ==> gs'[j] == NoGuard
      {
        GuardsOfFixed(rule, lines, j);
      }
      DisabledStaysDisabled(gs, gs', i + 1);
    }
  }

  lemma FixedLinesAreClean(guards: bool, rule: Rule, lines: seq<string>)
    ensures Clean(guards, rule, FixLines(guards, rule, lines))
  {
    var fixed := FixLines(guards, rule, lines);
    forall i | 0 <= i < |fixed|
      ensures OkAt(guards, rule, fixed, i)
    {
      if Checked(guards, fixed, i) {
        CheckedAgain(guards, rule, lines, i);
        FixedLineIsOk(rule, lines[i]);
      }
    }
  }

  // ----- Fixed lines are still lines

  lemma {:induction false} FixLineShape(rule: Rule, line: string, last: bool)
    requires IsLine(line, last)
    ensures IsLine(FixLine(rule, line), last)
  {
    var k := |line| - 1;
    match rule
    case Whitespace =>
      var r := RStrip(line);
      RStripSpec(line);
      assert forall j :: 0 <= j < |r| ==> r[j] == line[j];
      assert r != [] ==> r[|r| - 1] != '\n';
    case Tabs =>
      if '\t' in line {
        assert line == line[..k] + [line[k]];
        ExpandConcat(line[..k], [line[k]], 0);
        ExpandNewlines(line[..k], 0);
        var tail := Expand([line[k]], EndColumn(line[..k], 0));
        assert [line[k]][1..] == [];
        if line[k] != '\t' {
          assert tail == [line[k]];
        } else {
          assert tail == Spaces(TabWidth(EndColumn(line[..k], 0)));
        }
      }
  }

  lemma FixLinesShape(guards: bool, rule: Rule, lines: seq<string>)
    requires IsLines(lines)
    ensures IsLines(FixLines(guards, rule, lines))
  {
    forall i | 0 <= i < |lines|
      ensures IsLine(FixLines(guards, rule, lines)[i], i == |lines| - 1)
    {
      FixLineShape(rule, lines[i], i == |lines| - 1);
    }
  }

  lemma CleanLinesStay(guards: bool, rule: Rule, lines: seq<string>)
    requires Clean(guards, rule, lines)
    ensures FixLines(guards, rule, lines) == lines
  {
    forall i | 0 <= i < |lines|
      ensures FixLines(guards, rule, lines)[i] == lines[i]
    {
      assert OkAt(guards, rule, lines, i);
      OkLinesStay(rule, lines[i]);
    }
  }

  /** The lines read back from a file that went through the fixer are the fixed lines. */
  lemma LinesOfFixed(guards: bool, rule: Rule, content: string)
    ensures Lines(FixFile(guards, rule, content)) == FixLines(guards, rule, Lines(content))
  {
    var lines := Lines(content);
    if Clean(guards, rule, lines) {
      CleanLinesStay(guards, rule, lines);
    } else {
      LinesShape(content);
      FixLinesShape(guards, rule, lines);
      RoundTrip(FixLines(guards, rule, lines));
    }
  }

  // ----- Whole files

  /** Fix, then check: for every file, rule and treatment of guards the second pass finds nothing. */
  lemma FixThenCheckIsClean(guards: bool, rule: Rule, content: string)
    ensures FileClean(guards, rule, FixFile(guards, rule, content))
    ensures FixFile(guards, rule, FixFile(guards, rule, content)) == FixFile(guards, rule, content)
  {
    LinesOfFixed(guards, rule, content);
    FixedLinesAreClean(guards, rule, Lines(content));
  }

  /** The fixed file line by line: what lies after an OFF guard is left alone, all else is fixed. */
  lemma FixedByPosition(guards: bool, rule: Rule, content: string, i: nat)
    requires i < |Lines(content)|
    ensures
      var lines, fixed := Lines(content), Lines(FixFile(guards, rule, content));
      && |fixed| == |lines|
      && fixed[i] ==
           if guards && OffBefore(lines, i) &&
              Strip(lines[i]) != "// clang-format on" && Strip(lines[i]) != "// clang-format off"
           then lines[i] else FixLine(rule, lines[i])
  {
    LinesOfFixed(guards, rule, content);
    UncheckedIff(guards, Lines(content), i);
  }

  /** Lines in a switched-off region come out as they went in. */
  lemma GuardedLinesUntouched(rule: Rule, content: string, i: nat)
    requires i < |Lines(content)|
    ensures |Lines(FixFile(true, rule, content))| == |Lines(content)|
    ensures !Checked(true, Lines(content), i) ==>
      Lines(FixFile(true, rule, content))[i] == Lines(content)[i]
  {
    LinesOfFixed(true, rule, content);
  }

  lemma FixLineKeepsText(rule: Rule, line: string)
    ensures Visible(FixLine(rule, line)) == Visible(line)
  {
    match rule
    case Whitespace => RStripKeepsText(line);
    case Tabs => ExpandKeepsText(line, 0);
  }

  lemma {:induction false} SameVisibleLines(a: seq<string>, b: seq<string>)
    requires |a| == |b| && forall i :: 0 <= i < |a| ==> Visible(a[i]) == Visible(b[i])
    ensures Visible(WriteLines(a)) == Visible(WriteLines(b))
  {
    if a != [] {
      VisibleConcat(a[0], WriteLines(a[1..]));
      VisibleConcat(b[0], WriteLines(b[1..]));
      SameVisibleLines(a[1..], b[1..]);
    }
  }

  /** Fixing changes nothing but white space: the file reads the same without it. */
  lemma FixKeepsText(guards: bool, rule: Rule, content: string)
    ensures Visible(FixFile(guards, rule, content)) == Visible(content)
  {
    var lines := Lines(content);
    forall i | 0 <= i < |lines|
      ensures Visible(FixLines(guards, rule, lines)[i]) == Visible(lines[i])
    {
      FixLineKeepsText(rule, lines[i]);
    }
    SameVisibleLines(FixLines(guards, rule, lines), lines);
    WriteRead(Universal(content));
    UniversalKeepsText(content);
  }

  // ----- The two fixers together: white space ignores the guards, tabs respect them

  lemma LineFixersCommute(line: string)
    ensures FixLine(Whitespace, FixLine(Tabs, line)) == FixLine(Tabs, FixLine(Whitespace, line))
  {
    var r := RStrip(line);
    RStripExpand(line);
    ExpandLast(r + "\n", 0);
    assert (r + "\n")[..|r|] == r;
    if '\t' !in r {
      ExpandTabFree(r, 0);
    }
    if '\t' !in line {
      ExpandTabFree(line, 0);
    }
  }

  /** Removing trailing white space changes no guard. */
  lemma {:induction false} WhitespaceKeepsGuards(lines: seq<string>)
    ensures Guards(FixLines(false, Whitespace, lines)) == Guards(lines)
  {
    forall i | 0 <= i < |lines|
      ensures GuardOf(FixLine(Whitespace, lines[i])) == GuardOf(lines[i])
    {
      RStripNewline(lines[i]);
    }
  }

  lemma FixLinesCommute(lines: seq<string>)
    ensures FixLines(false, Whitespace, FixLines(true, Tabs, lines)) ==
            FixLines(true, Tabs, FixLines(false, Whitespace, lines))
  {
    var w := FixLines(false, Whitespace, lines);
    WhitespaceKeepsGuards(lines);
    forall i | 0 <= i < |lines|
      ensures FixLine(Whitespace, FixLines(true, Tabs, lines)[i]) == FixLines(true, Tabs, w)[i]
    {
      assert Checked(true, w, i) == Checked(true, lines, i);
      LineFixersCommute(lines[i]);
    }
  }

  lemma TabsKeepWhitespaceClean(lines: seq<string>)
    requires Clean(false, Whitespace, lines)
    ensures Clean(false, Whitespace, FixLines(true, Tabs, lines))
  {
    CleanLinesStay(false, Whitespace, lines);
    FixLinesCommute(lines);
    FixedLinesAreClean(false, Whitespace, FixLines(true, Tabs, lines));
  }

  lemma WhitespaceKeepsTabsClean(lines: seq<string>)
    requires Clean(true, Tabs, lines)
    ensures Clean(true, Tabs, FixLines(false, Whitespace, lines))
  {
    CleanLinesStay(true, Tabs, lines);
    FixLinesCommute(lines);
    FixedLinesAreClean(true, Tabs, FixLines(false, Whitespace, lines));
  }

  /** The two fixers commute on whole files, and after both the file is clean for both. */
  lemma FixersCommute(content: string)
    ensures FixFile(false, Whitespace, FixFile(true, Tabs, content)) ==
            FixFile(true, Tabs, FixFile(false, Whitespace, content))
    ensures
      var lines := Lines(FixFile(true, Tabs, FixFile(false, Whitespace, content)));
      Clean(false, Whitespace, lines) && Clean(true, Tabs, lines)
  {
    var lines := Lines(content);
    var w, t := FixFile(false, Whitespace, content), FixFile(true, Tabs, content);
    LinesOfFixed(false, Whitespace, content);
    LinesOfFixed(true, Tabs, content);
    LinesOfFixed(true, Tabs, w);
    FixLinesCommute(lines);
    FixedLinesAreClean(true, Tabs, Lines(w));
    FixedLinesAreClean(false, Whitespace, Lines(t));
    if Clean(false, Whitespace, lines) {
      TabsKeepWhitespaceClean(lines);
    } else if Clean(true, Tabs, lines) {
      WhitespaceKeepsTabsClean(lines);
    } else {
      if Clean(false, Whitespace, Lines(t)) {
        CleanLinesStay(false, Whitespace, Lines(t));
      }
      if Clean(true, Tabs, Lines(w)) {
        CleanLinesStay(true, Tabs, Lines(w));
      }
    }
  }

  // ----- Sets of files

  function FileAfter(fix: bool, guards: bool, rule: Rule, content: string): string {
    if fix then FixFile(guards, rule, content) else content
  }

  /** `files'` is `files` with the files in `done` replaced by their `target`. */
  predicate Updated(files: map<string, string>, files': map<string, string>,
                    done: seq<string>, target: map<string, string>)
  {
    && files'.Keys == files.Keys == target.Keys
    && forall f :: f in files ==> files'[f] == if f in done then target[f] else files[f]
  }

  lemma UpdateOne(files: map<string, string>, files': map<string, string>,
                  done: seq<string>, target: map<string, string>, name: string)
    requires Updated(files, files', done, target) && name in files
    ensures Updated(files, files'[name := target[name]], done + [name], target)
  {
  }

  lemma TakeOneMore<T>(s: seq<T>, k: nat)
    requires k < |s|
    ensures s[..k + 1] == s[..k] + [s[k]]
  {
  }

  /** The first `k` files are clean. */
  predicate AllClean(files: map<string, string>, names: seq<string>, k: nat, guards: bool, rule: Rule)
    requires k <= |names| && forall j :: 0 <= j < |names| ==> names[j] in files
  {
    forall j :: 0 <= j < k ==> FileClean(guards, rule, files[names[j]])
  }

  lemma AllCleanOneMore(files: map<string, string>, names: seq<string>, k: nat, guards: bool, rule: Rule)
    requires k < |names| && forall j :: 0 <= j < |names| ==> names[j] in files
    ensures AllClean(files, names, k + 1, guards, rule) <==>
      AllClean(files, names, k, guards, rule) && FileClean(guards, rule, files[names[k]])
  {
  }

  lemma SecondPass(fix: bool, guards: bool, rule: Rule, content: string)
    ensures FileAfter(fix, guards, rule, FileAfter(fix, guards, rule, content)) == FileAfter(fix, guards, rule, content)
  {
    FixThenCheckIsClean(guards, rule, content);
  }

  function Targets(files: map<string, string>, fix: bool, guards: bool, rule: Rule): map<string, string> {
    map f | f in files :: FileAfter(fix, guards, rule, files[f])
  }

  /** One file of a check, written back in fix mode. */
  method CheckNext(files: map<string, string>, current: map<string, string>, ghost done: seq<string>, name: string,
                   fix: bool, verbose: bool, guards: bool, rule: Rule)
    returns (compliant: bool, files': map<string, string>)
    requires Updated(files, current, done, Targets(files, fix, guards, rule)) && name in files
    ensures Updated(files, files', done + [name], Targets(files, fix, guards, rule))
    ensures !fix ==> (compliant <==> FileClean(guards, rule, files[name]))
  {
    var ok, written, _ := CheckManuallyFile(current[name], fix, verbose, guards, rule);
    compliant := ok;
    SecondPass(fix, guards, rule, files[name]);
    assert written == FileAfter(fix, guards, rule, current[name]) == FileAfter(fix, guards, rule, files[name]);
    UpdateOne(files, current, done, Targets(files, fix, guards, rule), name);
    files' := current[name := written];
  }

  /** All files of one check. In fix mode the answer is always yes, and rightly so: every file is
      clean afterwards. */
  method CheckStyleFiles(files: map<string, string>, names: seq<string>,
                         fix: bool, verbose: bool, guards: bool, rule: Rule)
    returns (ok: bool, files': map<string, string>)
    requires forall k :: 0 <= k < |names| ==> names[k] in files
    ensures ok <==> fix || AllClean(files, names, |names|, guards, rule)
    ensures Updated(files, files', names, Targets(files, fix, guards, rule))
    ensures ok ==> AllClean(files', names, |names|, guards, rule)
  {
    files' := files;
    var nonCompliant: seq<string> := [];
    for k := 0 to |names|
      invariant Updated(files, files', names[..k], Targets(files, fix, guards, rule))
      invariant !fix ==> (nonCompliant == [] <==> AllClean(files, names, k, guards, rule))
    {
      var compliant;
      compliant, files' := CheckNext(files, files', names[..k], names[k], fix, verbose, guards, rule);
      TakeOneMore(names, k);
      AllCleanOneMore(files, names, k, guards, rule);
      if !compliant {
        nonCompliant := nonCompliant + [names[k]];
      }
    }
    assert names[..|names|] == names;
    ok := nonCompliant == [] || fix;
    CleanAfterwards(files, files', names, fix, guards, rule);
  }

  lemma CleanAfterwards(files: map<string, string>, files': map<string, string>, names: seq<string>,
                        fix: bool, guards: bool, rule: Rule)
    requires Updated(files, files', names, Targets(files, fix, guards, rule))
    requires forall k :: 0 <= k < |names| ==> names[k] in files
    ensures fix || AllClean(files, names, |names|, guards, rule) ==> AllClean(files', names, |names|, guards, rule)
  {
    forall j | 0 <= j < |names| && (fix || FileClean(guards, rule, files[names[j]]))
      ensures FileClean(guards, rule, files'[names[j]])
    {
      assert files'[names[j]] == FileAfter(fix, guards, rule, files[names[j]]);
      FixThenCheckIsClean(guards, rule, files[names[j]]);
    }
  }
}
