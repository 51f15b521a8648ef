/** Rewriting a Codex configuration for a target: root policy lines are replaced, everything from the first table header on is kept. */
module TomlPolicy {
  import opened Prelude
  import opened SseText
  import opened EventStream

  datatype Target = Generation | RunExecution

  const SOURCE_NEWLINE := Separator(true, false)
  const LINE_FEED := Separator(false, false)

  function StripTrailingNewlines(s: string): string {
    if s != "" && s[|s| - 1] == '\n' then StripTrailingNewlines(s[..|s| - 1]) else s
  }

  function Lines(toml: string): (lines: seq<string>)
    ensures lines != []
  {
    Split(SOURCE_NEWLINE, StripTrailingNewlines(toml))
  }

  predicate IsTableHeader(line: string) {
    var t := TrimStart(line);
    t != "" && t[0] == '['
  }

  predicate Assigns(line: string, key: string) {
    var t := TrimStart(line);
    key <= t && var rest := TrimStart(t[|key|..]); rest != "" && rest[0] == '='
  }

  const APPROVAL_POLICY := "approval_policy"
  const SANDBOX_MODE := "sandbox_mode"

  predicate IsPolicy(line: string) {
    Assigns(line, APPROVAL_POLICY) || Assigns(line, SANDBOX_MODE)
  }

  predicate IsBlank(line: string) {
    TrimStart(line) == ""
  }

  function ApprovalValue(): string {
    " = \"never\""
  }

  function ApprovalLine(): string {
    APPROVAL_POLICY + ApprovalValue()
  }

  function SandboxValue(target: Target): string {
    match target
    case Generation => " = \"read-only\""
    case RunExecution => " = \"danger-full-access\""
  }

  function SandboxLine(target: Target): string {
    SANDBOX_MODE + SandboxValue(target)
  }

  function PolicyLines(target: Target): seq<string> {
    [ApprovalLine(), SandboxLine(target)]
  }

  predicate IsKept(line: string) {
    !IsPolicy(line)
  }

  function FirstTable(lines: seq<string>): (n: nat)
    ensures n <= |lines|
    ensures forall i :: 0 <= i < n ==> !IsTableHeader(lines[i])
    ensures n < |lines| ==> IsTableHeader(lines[n])
  {
    if lines == [] || IsTableHeader(lines[0]) then 0 else 1 + FirstTable(lines[1..])
  }

  function DropTrailingBlank(lines: seq<string>): seq<string> {
    if lines != [] && IsBlank(lines[|lines| - 1]) then lines[..|lines| - 1] else lines
  }

  function Root(lines: seq<string>): seq<string> {
    DropTrailingBlank(Filter(IsKept, lines[..FirstTable(lines)]))
  }

  function Tables(lines: seq<string>): seq<string> {
    lines[FirstTable(lines)..]
  }

  function TableBlock(tables: seq<string>): seq<string> {
    if tables == [] then [] else [""] + tables
  }

  function Output(root: seq<string>, policy: seq<string>, tables: seq<string>): seq<string> {
    root + policy + TableBlock(tables)
  }

  function CodexConfigTomlForTarget(toml: string, target: Target): string {
    var lines := Lines(toml);
    JoinLines(Output(Root(lines), PolicyLines(target), Tables(lines))) + "\n"
  }

  // ---- Joining and splitting ----

  predicate NoNewline(line: string) {
    '\n' !in line
  }

  predicate EndsInReturn(line: string) {
    line != "" && line[|line| - 1] == '\r'
  }

  function WithoutReturn(line: string): string {
    if EndsInReturn(line) then line[..|line| - 1] else line
  }

  /** What splitting makes of joined lines: a return before a joint is taken for half a newline. */
  function AfterJoint(sep: Separator, lines: seq<string>): (r: seq<string>)
    ensures |r| == |lines|
  {
    if |lines| <= 1 then lines
    else [if sep.crOptional then WithoutReturn(lines[0]) else lines[0]] + AfterJoint(sep, lines[1..])
  }

  lemma {:induction false} PiecesHaveNoNewline(sep: Separator, s: string)
    requires !sep.double
    ensures forall p :: p in Split(sep, s) ==> NoNewline(p)
    ensures s != "" && s[|s| - 1] != '\n' ==> Open(sep, s) != ""
    decreases |s|
  {
    var at := FindSeparator(sep, s, 0);
    forall i | 0 <= i < at
      ensures s[i] != '\n'
    {
      assert SeparatorEnd(sep, s, i) == i;
    }
    if at < |s| {
      var end := SeparatorEnd(sep, s, at);
      assert s[end - 1] == '\n';
      SplitStep(sep, s);
      PiecesHaveNoNewline(sep, s[end..]);
    }
  }

  lemma JointPlace(sep: Separator, line: string, rest: string)
    requires !sep.double && NoNewline(line)
    ensures var s, at := line + "\n" + rest, |if sep.crOptional then WithoutReturn(line) else line|;
            SeparatorEnd(sep, s, at) == |line| + 1 && forall j :: 0 <= j < at ==> SeparatorEnd(sep, s, j) == j
  {
    var s, at := line + "\n" + rest, |if sep.crOptional then WithoutReturn(line) else line|;
    assert s[|line|] == '\n' && forall i :: 0 <= i < |line| ==> s[i] == line[i] && line[i] != '\n';
  }

  lemma CutAtFirstJoint(sep: Separator, line: string, rest: string)
    requires !sep.double && NoNewline(line)
    ensures var first := if sep.crOptional then WithoutReturn(line) else line;
            Split(sep, line + "\n" + rest) == [first] + Split(sep, rest)
  {
    var s := line + "\n" + rest;
    var first := if sep.crOptional then WithoutReturn(line) else line;
    JointPlace(sep, line, rest);
    assert s[..|first|] == first && s[|line| + 1..] == rest;
    hide SeparatorEnd, WithoutReturn;
    LeftmostCut(sep, s, 0, |first|);
    SplitStep(sep, s);
  }

  lemma {:induction false} SplitJoined(sep: Separator, lines: seq<string>)
    requires !sep.double && lines != [] && forall l :: l in lines ==> NoNewline(l)
    ensures Split(sep, JoinLines(lines)) == AfterJoint(sep, lines)
    decreases |lines|
  {
    assert lines[0] in lines;
    if |lines| == 1 {
      var line := lines[0];
      forall j | 0 <= j < |line|
        ensures SeparatorEnd(sep, line, j) == j
      {
        assert line[j] != '\n' && (j + 1 < |line| ==> line[j + 1] != '\n');
      }
      LeftmostCut(sep, line, 0, |line|);
    } else {
      SplitJoined(sep, lines[1..]);
      CutAtFirstJoint(sep, lines[0], JoinLines(lines[1..]));
    }
  }

  /** Lists of lines are equal when their joined texts are. */
  lemma JoinIsInjective(a: seq<string>, b: seq<string>)
    requires a != [] && b != [] && (forall l :: l in a ==> NoNewline(l)) && (forall l :: l in b ==> NoNewline(l))
    requires JoinLines(a) == JoinLines(b)
    ensures a == b
  {
    SplitJoined(LINE_FEED, a);
    SplitJoined(LINE_FEED, b);
    LineFeedKeepsLines(a);
    LineFeedKeepsLines(b);
  }

  lemma {:induction false} LineFeedKeepsLines(lines: seq<string>)
    ensures AfterJoint(LINE_FEED, lines) == lines
    decreases |lines|
  {
    if |lines| > 1 {
      LineFeedKeepsLines(lines[1..]);
    }
  }

  lemma {:induction false} StripEnds(s: string)
    ensures var r := StripTrailingNewlines(s); r == "" || r[|r| - 1] != '\n'
  {
    if s != "" && s[|s| - 1] == '\n' {
      StripEnds(s[..|s| - 1]);
    }
  }

  lemma {:induction false} JoinedEnd(lines: seq<string>)
    requires lines != [] && lines[|lines| - 1] != "" && NoNewline(lines[|lines| - 1])
    ensures var s := JoinLines(lines); s != "" && s[|s| - 1] != '\n'
    decreases |lines|
  {
    if |lines| > 1 {
      JoinedEnd(lines[1..]);
    }
  }

  lemma StripJoined(lines: seq<string>)
    requires lines != [] && lines[|lines| - 1] != "" && NoNewline(lines[|lines| - 1])
    ensures StripTrailingNewlines(JoinLines(lines) + "\n") == JoinLines(lines)
  {
    JoinedEnd(lines);
    var s := JoinLines(lines);
    assert (s + "\n")[..|s|] == s;
  }

  // ---- Classifying lines ----

  lemma {:induction false} TrimWithoutReturn(line: string)
    ensures TrimStart(WithoutReturn(line)) ==
            if TrimStart(line) != "" then WithoutReturn(TrimStart(line)) else ""
    ensures TrimStart(line) == "" <==> TrimStart(WithoutReturn(line)) == ""
    decreases |line|
  {
    if line != "" && IsTrimmed(line[0]) {
      TrimWithoutReturn(line[1..]);
      if |line| > 1 {
        assert WithoutReturn(line)[1..] == WithoutReturn(line[1..]);
      }
    } else if line != "" && |line| > 1 {
      assert WithoutReturn(line)[0] == line[0];
    }
  }


  lemma AssignsWithoutReturn(line: string, key: string)
    requires key != "" && key[|key| - 1] != '\r'
    ensures Assigns(WithoutReturn(line), key) <==> Assigns(line, key)
  {
    TrimWithoutReturn(line);
    var t := TrimStart(line);
    if |t| > |key| {
      var rest := t[|key|..];
      assert WithoutReturn(t)[|key|..] == WithoutReturn(rest);
      assert t[..|key|] == WithoutReturn(t)[..|key|];
      TrimWithoutReturn(rest);
      TrimmedKeepsHead(rest);
      hide TrimStart, WithoutReturn;
    } else {
      assert key <= t ==> WithoutReturn(t) == t;
      hide TrimStart;
    }
  }

  lemma TrimmedKeepsHead(line: string)
    ensures var t, t' := TrimStart(line), WithoutReturn(TrimStart(line));
            t != "" ==> t' != "" && t'[0] == t[0]
  {
    TrimStops(line);
  }

  lemma {:induction false} TrimStops(line: string)
    ensures TrimStart(line) != "" ==> !IsTrimmed(TrimStart(line)[0])
  {
    if line != "" && IsTrimmed(line[0]) {
      TrimStops(line[1..]);
    }
  }

  /** A return at the end of a line never changes what kind of line it is. */
  lemma KindWithoutReturn(line: string)
    ensures IsTableHeader(WithoutReturn(line)) <==> IsTableHeader(line)
    ensures IsBlank(WithoutReturn(line)) <==> IsBlank(line)
    ensures IsPolicy(WithoutReturn(line)) <==> IsPolicy(line)
  {
    TrimWithoutReturn(line);
    TrimmedKeepsHead(line);
    AssignsWithoutReturn(line, APPROVAL_POLICY);
    AssignsWithoutReturn(line, SANDBOX_MODE);
  }

  lemma AssignmentKind(key: string, rest: string)
    requires key != "" && !IsTrimmed(key[0]) && key[0] != '['
    requires |rest| >= 2 && rest[0] == ' ' && rest[1] == '='
    ensures TrimStart(key + rest) == key + rest
    ensures Assigns(key + rest, key)
    ensures !IsTableHeader(key + rest) && !IsBlank(key + rest)
  {
    assert (key + rest)[|key|..] == rest;
    assert TrimStart(rest) == TrimStart(rest[1..]) == rest[1..];
  }

  lemma OtherKey(line: string, key: string)
    requires line != "" && TrimStart(line) == line && key != "" && key[0] != line[0]
    ensures !Assigns(line, key)
  {
  }

  /** A value as it stands after its key. */
  predicate PlainValue(v: string) {
    |v| >= 2 && v[0] == ' ' && v[1] == '=' && v[|v| - 1] == '"' && NoNewline(v)
  }

  predicate PlainKey(key: string) {
    key != "" && !IsTrimmed(key[0]) && key[0] != '[' && NoNewline(key)
  }

  lemma PlainTexts(target: Target)
    ensures PlainValue(ApprovalValue()) && PlainValue(SandboxValue(target))
    ensures PlainKey(APPROVAL_POLICY) && PlainKey(SANDBOX_MODE) && APPROVAL_POLICY[0] != SANDBOX_MODE[0]
  {
  }

  /** A line the rewrite adds: it assigns one key, is neither blank nor a header, and is untouched by splitting. */
  ghost predicate GoodLine(line: string, key: string, other: string) {
    && Assigns(line, key) && !Assigns(line, other)
    && !IsTableHeader(line) && !IsBlank(line) && !EndsInReturn(line) && NoNewline(line)
  }

  lemma AssignmentIsGood(key: string, value: string, other: string)
    requires PlainKey(key) && PlainKey(other) && key[0] != other[0] && PlainValue(value)
    ensures GoodLine(key + value, key, other)
  {
    AssignmentKind(key, value);
    OtherKey(key + value, other);
    hide Assigns, IsTableHeader, IsBlank;
    assert (key + value)[|key + value| - 1] == '"';
  }

  ghost predicate GoodPolicy(policy: seq<string>) {
    && |policy| == 2
    && GoodLine(policy[0], APPROVAL_POLICY, SANDBOX_MODE)
    && GoodLine(policy[1], SANDBOX_MODE, APPROVAL_POLICY)
  }

  lemma PolicyIsGood(target: Target)
    ensures GoodPolicy(PolicyLines(target))
  {
    PlainTexts(target);
    hide GoodLine, PlainKey, PlainValue, SandboxValue, ApprovalValue;
    AssignmentIsGood(APPROVAL_POLICY, ApprovalValue(), SANDBOX_MODE);
    AssignmentIsGood(SANDBOX_MODE, SandboxValue(target), APPROVAL_POLICY);
  }

  lemma EmptyLineKind()
    ensures !IsTableHeader("") && !IsPolicy("") && IsBlank("")
  {
  }

  // ---- Filtering and cutting ----

  lemma {:induction false} FilterAll(keep: string -> bool, a: seq<string>)
    requires forall l :: l in a ==> keep(l)
    ensures Filter(keep, a) == a
    decreases |a|
  {
    if a != [] {
      var init, last := a[..|a| - 1], a[|a| - 1];
      assert last in a && forall l :: l in init ==> l in a;
      FilterAll(keep, init);
      assert a == init + [last];
    }
  }

  lemma {:induction false} FirstTableIs(lines: seq<string>, n: nat)
    requires n <= |lines| && (forall i :: 0 <= i < n ==> !IsTableHeader(lines[i]))
    requires n < |lines| ==> IsTableHeader(lines[n])
    ensures FirstTable(lines) == n
    decreases |lines|
  {
    hide IsTableHeader;
    if n > 0 {
      assert !IsTableHeader(lines[0]);
      forall i | 0 <= i < n - 1
        ensures !IsTableHeader(lines[1..][i])
      {
        assert lines[1..][i] == lines[i + 1];
      }
      FirstTableIs(lines[1..], n - 1);
    }
  }

  function Cleaned(lines: seq<string>): seq<string> {
    Map((l: string) => WithoutReturn(l), lines)
  }

  lemma {:induction false} AfterJointAppend(a: seq<string>, b: seq<string>)
    requires b != []
    ensures AfterJoint(SOURCE_NEWLINE, a + b) == Cleaned(a) + AfterJoint(SOURCE_NEWLINE, b)
    decreases |a|
  {
    hide WithoutReturn;
    if a == [] {
      assert a + b == b;
    } else {
      assert (a + b)[1..] == a[1..] + b;
      AfterJointAppend(a[1..], b);
      assert Cleaned(a) == [WithoutReturn(a[0])] + Cleaned(a[1..]);
    }
  }

  // ---- One rewrite after another ----

  /** Lines fit to be a rewrite's root and tables. */
  ghost predicate Fit(root: seq<string>, tables: seq<string>) {
    && (forall l :: l in root ==> !IsTableHeader(l) && !IsPolicy(l) && NoNewline(l))
    && (forall l :: l in tables ==> NoNewline(l))
    && (tables != [] ==> IsTableHeader(tables[0]) && tables[|tables| - 1] != "")
  }

  lemma RootComesFromLines(lines: seq<string>)
    ensures forall l :: l in Root(lines) ==> l in lines && !IsTableHeader(l) && !IsPolicy(l)
  {
    var n := FirstTable(lines);
    hide IsPolicy, IsTableHeader, IsBlank, FirstTable;
    var before := lines[..n];
    var kept := Filter(IsKept, before);
    FilterMembers(IsKept, before);
    forall l | l in Root(lines)
      ensures l in lines && !IsTableHeader(l) && !IsPolicy(l)
    {
      assert l in kept;
      assert l in before;
    }
  }

  lemma FitFrom(lines: seq<string>)
    requires lines != [] && forall l :: l in lines ==> NoNewline(l)
    requires FirstTable(lines) < |lines| ==> lines[|lines| - 1] != ""
    ensures Fit(Root(lines), Tables(lines))
  {
    hide IsPolicy, IsTableHeader, IsBlank, FirstTable, NoNewline, Root, Tables;
    RootComesFromLines(lines);
    TablesComeFromLines(lines);
  }

  lemma TablesComeFromLines(lines: seq<string>)
    ensures var tables := Tables(lines);
            && (forall l :: l in tables ==> l in lines)
            && (tables != [] ==> FirstTable(lines) < |lines| && IsTableHeader(tables[0]) && tables[|tables| - 1] == lines[|lines| - 1])
  {
    hide IsTableHeader, FirstTable;
  }

  lemma RewriteIsFit(toml: string)
    ensures Fit(Root(Lines(toml)), Tables(Lines(toml)))
  {
    hide IsPolicy, IsBlank;
    var text, lines := StripTrailingNewlines(toml), Lines(toml);
    StripEnds(toml);
    PiecesHaveNoNewline(SOURCE_NEWLINE, text);
    EmptyLineKind();
    if text == "" {
      assert lines == [""];
      FirstTableIs(lines, 1);
    }
    FitFrom(lines);
  }

  lemma OutputIsPlain(root: seq<string>, policy: seq<string>, tables: seq<string>)
    requires Fit(root, tables) && GoodPolicy(policy)
    ensures var out := Output(root, policy, tables);
            && out != [] && out[|out| - 1] != ""
            && forall l :: l in out ==> NoNewline(l)
  {
    EmptyLineKind();
    hide IsPolicy, IsTableHeader, IsBlank, Assigns;
    var out := Output(root, policy, tables);
    forall l | l in out
      ensures NoNewline(l)
    {
      assert l in root || l in policy || l in TableBlock(tables);
    }
    if tables == [] {
      assert out[|out| - 1] == policy[1];
    } else {
      assert out[|out| - 1] == tables[|tables| - 1];
    }
  }

  lemma CleanedAppend(a: seq<string>, b: seq<string>)
    ensures Cleaned(a + b) == Cleaned(a) + Cleaned(b)
  {
    hide WithoutReturn;
  }

  lemma PolicyStays(policy: seq<string>)
    requires GoodPolicy(policy)
    ensures Cleaned(policy) == policy && AfterJoint(SOURCE_NEWLINE, policy) == policy && Cleaned([""]) == [""]
  {
    hide Assigns, IsTableHeader, IsBlank, NoNewline;
    assert policy[1..] == [policy[1]];
  }

  /** What the second rewrite reads: the first one's lines, each return before a joint gone. */
  lemma SecondRead(root: seq<string>, policy: seq<string>, tables: seq<string>)
    requires Fit(root, tables) && GoodPolicy(policy)
    ensures Lines(JoinLines(Output(root, policy, tables)) + "\n") == AfterJoint(SOURCE_NEWLINE, Output(root, policy, tables))
    ensures AfterJoint(SOURCE_NEWLINE, Output(root, policy, tables)) ==
            Cleaned(root) + policy + TableBlock(AfterJoint(SOURCE_NEWLINE, tables))
  {
    var out := Output(root, policy, tables);
    OutputIsPlain(root, policy, tables);
    StripJoined(out);
    SplitJoined(SOURCE_NEWLINE, out);
    PolicyStays(policy);
    hide Assigns, IsPolicy, IsTableHeader, IsBlank, Lines, NoNewline, GoodLine, Cleaned, WithoutReturn;
    if tables == [] {
      assert out == root + policy;
      AfterJointAppend(root, policy);
      assert Cleaned(root) + policy + [] == Cleaned(root) + policy;
    } else {
      AfterJointAppend(root + policy + [""], tables);
      Regroup(root + policy, [""], tables, []);
      CleanedAppend(root + policy, [""]);
      CleanedAppend(root, policy);
      Regroup(Cleaned(root) + policy, [""], AfterJoint(SOURCE_NEWLINE, tables), []);
    }
  }

  lemma CleanedKinds(root: seq<string>, tables: seq<string>)
    requires Fit(root, tables)
    ensures forall l :: l in Cleaned(root) ==> !IsTableHeader(l) && !IsPolicy(l)
    ensures tables != [] ==> IsTableHeader(AfterJoint(SOURCE_NEWLINE, tables)[0])
  {
    var cleaned := Cleaned(root);
    forall i | 0 <= i < |cleaned|
      ensures !IsTableHeader(cleaned[i]) && !IsPolicy(cleaned[i])
    {
      KindWithoutReturn(root[i]);
    }
    if tables != [] {
      KindWithoutReturn(tables[0]);
    }
  }

  lemma WhatIsKept(policy: seq<string>)
    requires GoodPolicy(policy)
    ensures IsKept("") && forall l :: l in policy ==> !IsKept(l)
  {
    EmptyLineKind();
    hide IsTableHeader, IsBlank, NoNewline, EndsInReturn, Assigns;
  }

  /** Filtering the policy out of root and policy lines, with or without a blank after them, leaves the root. */
  lemma FilteredFront(root: seq<string>, policy: seq<string>)
    requires GoodPolicy(policy) && forall l :: l in root ==> IsKept(l)
    ensures Filter(IsKept, root + policy) == root
    ensures Filter(IsKept, root + policy + [""]) == root + [""]
  {
    WhatIsKept(policy);
    hide IsKept, GoodPolicy, Filter;
    FilterAll(IsKept, root);
    FilterNothing(IsKept, policy);
    FilterAll(IsKept, [""]);
    FilterAppend(IsKept, root, policy);
    FilterAppend(IsKept, root + policy, [""]);
  }

  lemma FrontHasNoHeader(root: seq<string>, policy: seq<string>)
    requires GoodPolicy(policy) && forall l :: l in root ==> !IsTableHeader(l)
    ensures forall i :: 0 <= i < |root| + 2 ==> !IsTableHeader((root + policy)[i])
    ensures forall i :: 0 <= i < |root| + 3 ==> !IsTableHeader((root + policy + [""])[i])
  {
    EmptyLineKind();
    hide Assigns, IsTableHeader, IsBlank, NoNewline, EndsInReturn;
    var front := root + policy;
    forall i | 0 <= i < |front|
      ensures !IsTableHeader(front[i])
    {
      if i < |root| {
        assert front[i] in root;
      }
    }
    assert forall i :: 0 <= i < |front| ==> (front + [""])[i] == front[i];
  }

  /** Reading back root lines, policy lines and tables finds the tables and, once the policy is filtered out, the root. */
  lemma ReadBack(root: seq<string>, policy: seq<string>, tables: seq<string>)
    requires GoodPolicy(policy)
    requires forall l :: l in root ==> !IsTableHeader(l) && IsKept(l)
    requires tables != [] ==> IsTableHeader(tables[0])
    ensures Tables(Output(root, policy, tables)) == tables
    ensures Root(Output(root, policy, tables)) == if tables == [] then DropTrailingBlank(root) else root
  {
    EmptyLineKind();
    FilteredFront(root, policy);
    FrontHasNoHeader(root, policy);
    hide IsKept, IsTableHeader, IsBlank, GoodPolicy, FirstTable, Filter;
    var lines := Output(root, policy, tables);
    if tables == [] {
      assert lines == root + policy;
      FirstTableIs(lines, |lines|);
      assert lines[..|lines|] == lines;
    } else {
      var front := root + policy + [""];
      Regroup(root + policy, [""], tables, []);
      assert lines == front + tables;
      assert forall i :: 0 <= i < |front| ==> lines[i] == front[i];
      FirstTableIs(lines, |front|);
      assert lines[..|front|] == front && lines[|front|..] == tables;
      assert (root + [""])[..|root|] == root;
    }
  }

  lemma SecondRoot(root: seq<string>, policy: seq<string>, tables: seq<string>)
    requires Fit(root, tables) && GoodPolicy(policy)
    ensures var lines := Lines(JoinLines(Output(root, policy, tables)) + "\n");
            && Tables(lines) == AfterJoint(SOURCE_NEWLINE, tables)
            && Root(lines) == if tables == [] then DropTrailingBlank(Cleaned(root)) else Cleaned(root)
  {
    SecondRead(root, policy, tables);
    CleanedKinds(root, tables);
    ReadBack(Cleaned(root), policy, AfterJoint(SOURCE_NEWLINE, tables));
  }

  /** No line that the rewrite joins to a next one ends in a carriage return. */
  predicate NoStrayReturn(root: seq<string>, tables: seq<string>) {
    && (forall i :: 0 <= i < |root| ==> !EndsInReturn(root[i]))
    && (forall i :: 0 <= i < |tables| - 1 ==> !EndsInReturn(tables[i]))
  }

  lemma CleanedIsSame(root: seq<string>)
    ensures Cleaned(root) == root <==> forall i :: 0 <= i < |root| ==> !EndsInReturn(root[i])
  {
    forall i | 0 <= i < |root|
      ensures Cleaned(root)[i] == root[i] <==> !EndsInReturn(root[i])
    {
    }
  }

  lemma {:induction false} JointIsSame(tables: seq<string>)
    ensures AfterJoint(SOURCE_NEWLINE, tables) == tables <==> forall i :: 0 <= i < |tables| - 1 ==> !EndsInReturn(tables[i])
    decreases |tables|
  {
    if |tables| > 1 {
      JointIsSame(tables[1..]);
      var r := AfterJoint(SOURCE_NEWLINE, tables);
      assert r[0] == WithoutReturn(tables[0]) && r[1..] == AfterJoint(SOURCE_NEWLINE, tables[1..]);
      assert r == tables <==> r[0] == tables[0] && r[1..] == tables[1..];
      assert forall i :: 1 <= i < |tables| - 1 ==> tables[i] == tables[1..][i - 1];
    }
  }

  /** The root a rewrite leaves is one it would leave again. */
  predicate Settled(root: seq<string>, tables: seq<string>) {
    tables != [] || root == [] || !IsBlank(root[|root| - 1])
  }

  lemma SameOutputExactly(root: seq<string>, root': seq<string>, policy: seq<string>, tables: seq<string>, tables': seq<string>)
    requires |root'| <= |root| && |tables'| == |tables|
    ensures Output(root', policy, tables') == Output(root, policy, tables) <==> root' == root && tables' == tables
  {
    var a, b := Output(root', policy, tables'), Output(root, policy, tables);
    if a == b {
      assert |root'| == |root|;
      assert root' == a[..|root|] && root == b[..|root|];
      assert tables' == a[|a| - |tables|..] && tables == b[|b| - |tables|..];
    }
  }

  lemma SameTextExactly(a: seq<string>, b: seq<string>)
    requires a != [] && b != [] && (forall l :: l in a ==> NoNewline(l)) && (forall l :: l in b ==> NoNewline(l))
    ensures JoinLines(a) + "\n" == JoinLines(b) + "\n" <==> a == b
  {
    if JoinLines(a) + "\n" == JoinLines(b) + "\n" {
      assert (JoinLines(a) + "\n")[..|JoinLines(a)|] == (JoinLines(b) + "\n")[..|JoinLines(b)|];
      JoinIsInjective(a, b);
    }
  }

  /**
   Last writer wins, exactly. For every text and any two targets, rewriting for the first and then for the second equals
   rewriting for the second alone if and only if no joined line ends in a stray carriage return and the root is settled,
   which it always is when there is a table header.
   */
  lemma LastWriterWinsExactly(toml: string, first: Target, second: Target)
    ensures var root, tables := Root(Lines(toml)), Tables(Lines(toml));
            CodexConfigTomlForTarget(CodexConfigTomlForTarget(toml, first), second) == CodexConfigTomlForTarget(toml, second) <==>
            NoStrayReturn(root, tables) && Settled(root, tables)
  {
    var root, tables := Root(Lines(toml)), Tables(Lines(toml));
    var once := CodexConfigTomlForTarget(toml, first);
    var root', tables' := Root(Lines(once)), Tables(Lines(once));
    RewriteIsFit(toml);
    RewriteIsFit(once);
    PolicyIsGood(first);
    PolicyIsGood(second);
    SecondRoot(root, PolicyLines(first), tables);
    hide Root, Tables, Lines, Fit, AfterJoint, Cleaned, IsBlank, PolicyLines, GoodPolicy, JoinLines, TableBlock;
    var again, direct := Output(root', PolicyLines(second), tables'), Output(root, PolicyLines(second), tables);
    assert JoinLines(again) + "\n" == JoinLines(direct) + "\n" <==> again == direct by {
      OutputIsPlain(root', PolicyLines(second), tables');
      OutputIsPlain(root, PolicyLines(second), tables);
      SameTextExactly(again, direct);
    }
    SettledRoot(root, tables);
    SameOutputExactly(root, root', PolicyLines(second), tables, tables');
    CleanedIsSame(root);
    JointIsSame(tables);
  }

  lemma SettledRoot(root: seq<string>, tables: seq<string>)
    ensures var again := if tables == [] then DropTrailingBlank(Cleaned(root)) else Cleaned(root);
            && |again| <= |root|
            && (again == root <==> Cleaned(root) == root && Settled(root, tables))
  {
    if root != [] {
      KindWithoutReturn(root[|root| - 1]);
    }
  }

  /** Without a header the root can be unsettled: two blanks before a policy line, of which each rewrite drops one. */
  lemma UnsettledWithoutTable(first: Target, second: Target)
    ensures var toml := JoinLines(["", "", ApprovalLine()]);
            && NoCarriageReturn(toml)
            && Root(Lines(toml)) == [""] && Tables(Lines(toml)) == []
            && CodexConfigTomlForTarget(CodexConfigTomlForTarget(toml, first), second) != CodexConfigTomlForTarget(toml, second)
  {
    var lines := ["", "", ApprovalLine()];
    var toml := JoinLines(lines);
    PolicyIsGood(Generation);
    EmptyLineKind();
    var policy := PolicyLines(Generation);
    assert lines == ["", ""] + [policy[0]];
    hide Assigns, IsTableHeader, IsBlank, ApprovalLine, SandboxLine, Split, WithoutReturn;
    assert lines[1..] == ["", policy[0]] && lines[1..][1..] == [policy[0]];
    assert toml == "" + "\n" + ("" + "\n" + policy[0]);
    assert '\r' !in toml by { ApprovalHasNoReturn(); }
    assert StripTrailingNewlines(toml) == toml;
    SplitJoined(SOURCE_NEWLINE, lines);
    assert Lines(toml) == lines;
    FirstTableIs(lines, 3);
    assert lines[..3] == lines;
    assert Filter(IsKept, ["", ""]) == ["", ""] by { FilterAll(IsKept, ["", ""]); }
    assert Filter(IsKept, [policy[0]]) == [] by { FilterNothing(IsKept, [policy[0]]); }
    FilterAppend(IsKept, ["", ""], [policy[0]]);
    LastWriterWinsExactly(toml, first, second);
  }

  lemma ApprovalHasNoReturn()
    ensures '\r' !in ApprovalLine() && ApprovalLine() != "" && ApprovalLine()[|ApprovalLine()| - 1] != '\n'
  {
  }

  lemma {:induction false} StripKeepsCharacters(s: string)
    ensures forall c :: c in StripTrailingNewlines(s) ==> c in s
  {
    if s != "" && s[|s| - 1] == '\n' {
      StripKeepsCharacters(s[..|s| - 1]);
    }
  }

  /** Text without carriage returns and with a table header: the last writer always wins. */
  lemma LineFeedTextWithTable(toml: string, first: Target, second: Target)
    requires NoCarriageReturn(toml) && Tables(Lines(toml)) != []
    ensures CodexConfigTomlForTarget(CodexConfigTomlForTarget(toml, first), second) == CodexConfigTomlForTarget(toml, second)
  {
    var lines := Lines(toml);
    assert forall l :: l in lines ==> !EndsInReturn(l) by {
      StripKeepsCharacters(toml);
      NotationsAgree(SOURCE_NEWLINE, StripTrailingNewlines(toml));
    }
    RootComesFromLines(lines);
    LastWriterWinsExactly(toml, first, second);
    hide CodexConfigTomlForTarget, IsPolicy, Lines, Root, EndsInReturn, IsTableHeader;
    assert forall i :: 0 <= i < |Root(lines)| ==> Root(lines)[i] in Root(lines);
    assert forall i :: 0 <= i < |Tables(lines)| ==> Tables(lines)[i] in lines;
  }

  // ---- What one rewrite leaves ----

  predicate HasText(line: string) {
    !IsBlank(line)
  }

  function NotBlank(lines: seq<string>): seq<string> {
    Filter(HasText, lines)
  }

  /**
   One rewrite: reading the result by line feeds gives the kept root lines, one line per policy key, and the table lines
   verbatim after a separating blank; the non-blank root lines are the original ones without policy, in order.
   */
  lemma RewriteShape(toml: string, target: Target)
    ensures var lines := Lines(toml);
            var root, tables := Root(lines), Tables(lines);
            var out := Split(LINE_FEED, CodexConfigTomlForTarget(toml, target));
            && out == Output(root, PolicyLines(target), tables) + [""]
            && NotBlank(root) == NotBlank(Filter(IsKept, lines[..FirstTable(lines)]))
            && (forall i :: 0 <= i < |root| + 2 ==>
                 && (Assigns(out[i], APPROVAL_POLICY) <==> i == |root|)
                 && (Assigns(out[i], SANDBOX_MODE) <==> i == |root| + 1))
  {
    var lines := Lines(toml);
    var root, tables, policy := Root(lines), Tables(lines), PolicyLines(target);
    RewriteIsFit(toml);
    PolicyIsGood(target);
    DropKeepsNotBlank(Filter(IsKept, lines[..FirstTable(lines)]));
    hide PolicyLines, Root, Tables, Lines, TableBlock, GoodPolicy, Fit, NotBlank;
    OutputIsPlain(root, policy, tables);
    TextByLineFeed(Output(root, policy, tables));
    PolicyPlaces(root, policy, tables);
  }

  lemma PolicyPlaces(root: seq<string>, policy: seq<string>, tables: seq<string>)
    requires Fit(root, tables) && GoodPolicy(policy)
    ensures var out := Output(root, policy, tables) + [""];
            forall i :: 0 <= i < |root| + 2 ==>
              && (Assigns(out[i], APPROVAL_POLICY) <==> i == |root|)
              && (Assigns(out[i], SANDBOX_MODE) <==> i == |root| + 1)
  {
    assert forall l :: l in root ==> !Assigns(l, APPROVAL_POLICY) && !Assigns(l, SANDBOX_MODE);
    hide Assigns, IsTableHeader, IsBlank, NoNewline, EndsInReturn, TableBlock;
    var out := Output(root, policy, tables) + [""];
    forall i | 0 <= i < |root| + 2
      ensures out[i] == if i < |root| then root[i] else policy[i - |root|]
    {
    }
    assert forall i :: 0 <= i < |root| ==> root[i] in root;
  }

  lemma TextByLineFeed(lines: seq<string>)
    requires lines != [] && forall l :: l in lines ==> NoNewline(l)
    ensures Split(LINE_FEED, JoinLines(lines) + "\n") == lines + [""]
  {
    JoinOneMore(lines);
    var all := lines + [""];
    assert forall l :: l in all ==> l in lines || l == "";
    SplitJoined(LINE_FEED, all);
    LineFeedKeepsLines(all);
  }

  lemma {:induction false} JoinOneMore(lines: seq<string>)
    requires lines != []
    ensures JoinLines(lines + [""]) == JoinLines(lines) + "\n"
    decreases |lines|
  {
    if |lines| > 1 {
      assert (lines + [""])[1..] == lines[1..] + [""];
      JoinOneMore(lines[1..]);
    } else {
      assert (lines + [""])[1..] == [""];
    }
  }

  lemma DropKeepsNotBlank(lines: seq<string>)
    ensures NotBlank(DropTrailingBlank(lines)) == NotBlank(lines)
  {
  }
}
