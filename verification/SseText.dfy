/**
 Separator-based text splitting as the two event-stream readers and the TOML rewrite use it.
 A separator is one or two newlines in a row; a newline is LF, or LF with an optional CR before it.
 Splitting is leftmost-first, so it is stable: text that arrives later never moves an earlier cut.
 */
module SseText {
  import opened Prelude

  /** `crOptional` is the difference between `\r?\n` and `\n`; `double` doubles the newline. */
  datatype Separator = Separator(crOptional: bool, double: bool)

  function NewlineEnd(crOptional: bool, s: string, i: nat): (e: nat)
    requires i <= |s|
    ensures i <= e <= |s|
  {
    if i < |s| && s[i] == '\n' then i + 1
    else if crOptional && i + 1 < |s| && s[i] == '\r' && s[i + 1] == '\n' then i + 2
    else i
  }

  /** Where the separator that begins exactly at `i` ends; `i` itself when none begins there. */
  function SeparatorEnd(sep: Separator, s: string, i: nat): (e: nat)
    requires i <= |s|
    ensures i <= e <= |s|
  {
    var first := NewlineEnd(sep.crOptional, s, i);
    if first == i || !sep.double then first
    else
      var second := NewlineEnd(sep.crOptional, s, first);
      if second == first then i else second
  }

  /** Start of the leftmost separator at or after `i`, or `|s|`. */
  function FindSeparator(sep: Separator, s: string, i: nat): (r: nat)
    requires i <= |s|
    ensures i <= r <= |s|
    ensures r < |s| ==> SeparatorEnd(sep, s, r) > r
    ensures forall j :: i <= j < r ==> SeparatorEnd(sep, s, j) == j
    decreases |s| - i
  {
    if i == |s| || SeparatorEnd(sep, s, i) > i then i else FindSeparator(sep, s, i + 1)
  }

  function Split(sep: Separator, s: string): (pieces: seq<string>)
    ensures |pieces| >= 1
    decreases |s|
  {
    var at := FindSeparator(sep, s, 0);
    if at == |s| then [s] else [s[..at]] + Split(sep, s[SeparatorEnd(sep, s, at)..])
  }

  /** All pieces but the last: the ones a separator has closed. */
  function Closed(sep: Separator, s: string): seq<string> {
    var pieces := Split(sep, s);
    pieces[..|pieces| - 1]
  }

  /** The last piece: the carry-over. */
  function Open(sep: Separator, s: string): string {
    var pieces := Split(sep, s);
    pieces[|pieces| - 1]
  }

  /** The leftmost cut is the only place that begins a separator with none before it. */
  lemma {:induction false} LeftmostCut(sep: Separator, s: string, i: nat, at: nat)
    requires i <= at <= |s|
    requires at < |s| ==> SeparatorEnd(sep, s, at) > at
    requires forall j :: i <= j < at ==> SeparatorEnd(sep, s, j) == j
    ensures FindSeparator(sep, s, i) == at
    decreases at - i
  {
    if i < at {
      LeftmostCut(sep, s, i + 1, at);
    }
  }

  /** Text appended after a complete separator cannot complete another one before it. */
  lemma NoEarlierCut(sep: Separator, a: string, b: string, j: nat, at: nat)
    requires j < at < |a|
    requires SeparatorEnd(sep, a, j) == j && SeparatorEnd(sep, a, at) > at
    ensures SeparatorEnd(sep, a + b, j) == j
  {
    assert forall k :: 0 <= k < |a| ==> (a + b)[k] == a[k];
  }

  /** A cut found in `a` is still the leftmost cut of `a + b`, and it ends at the same place. */
  lemma CutIsStable(sep: Separator, a: string, b: string)
    requires FindSeparator(sep, a, 0) < |a|
    ensures FindSeparator(sep, a + b, 0) == FindSeparator(sep, a, 0)
    ensures SeparatorEnd(sep, a + b, FindSeparator(sep, a, 0)) == SeparatorEnd(sep, a, FindSeparator(sep, a, 0))
  {
    var at := FindSeparator(sep, a, 0);
    assert forall k :: 0 <= k < |a| ==> (a + b)[k] == a[k];
    forall j | 0 <= j < at
      ensures SeparatorEnd(sep, a + b, j) == j
    {
      NoEarlierCut(sep, a, b, j, at);
    }
    LeftmostCut(sep, a + b, 0, at);
  }

  lemma {:induction false} SplitAppend(sep: Separator, a: string, b: string)
    ensures Split(sep, a + b) == Closed(sep, a) + Split(sep, Open(sep, a) + b)
    decreases |a|
  {
    var at := FindSeparator(sep, a, 0);
    if at < |a| {
      CutIsStable(sep, a, b);
      var end := SeparatorEnd(sep, a, at);
      var tail := a[end..];
      assert (a + b)[end..] == tail + b;
      assert (a + b)[..at] == a[..at];
      SplitAppend(sep, tail, b);
      SplitStep(sep, a);
      SplitStep(sep, a + b);
    }
  }

  lemma SplitStep(sep: Separator, s: string)
    requires FindSeparator(sep, s, 0) < |s|
    ensures var at := FindSeparator(sep, s, 0);
            var tail := s[SeparatorEnd(sep, s, at)..];
            && Split(sep, s) == [s[..at]] + Split(sep, tail)
            && Closed(sep, s) == [s[..at]] + Closed(sep, tail)
            && Open(sep, s) == Open(sep, tail)
  {
  }

  /** Splitting may be done in instalments: keep the open piece and split it again with what follows. */
  lemma SplitInInstalments(sep: Separator, a: string, b: string)
    ensures Closed(sep, a + b) == Closed(sep, a) + Closed(sep, Open(sep, a) + b)
    ensures Open(sep, a + b) == Open(sep, Open(sep, a) + b)
  {
    SplitAppend(sep, a, b);
  }

  /** What has been closed stays closed, whatever is received next. */
  lemma ClosedGrows(sep: Separator, a: string, b: string)
    ensures Closed(sep, a) <= Closed(sep, a + b)
  {
    SplitInInstalments(sep, a, b);
  }

  /** A beginning of a text that includes its first cut has that cut first, too. */
  lemma CutOfBeginning(sep: Separator, s: string, begun: string)
    requires FindSeparator(sep, s, 0) < |s| && begun <= s
    requires SeparatorEnd(sep, s, FindSeparator(sep, s, 0)) <= |begun|
    ensures FindSeparator(sep, begun, 0) == FindSeparator(sep, s, 0)
    ensures SeparatorEnd(sep, begun, FindSeparator(sep, s, 0)) == SeparatorEnd(sep, s, FindSeparator(sep, s, 0))
  {
    var at := FindSeparator(sep, s, 0);
    assert forall k :: 0 <= k < |begun| ==> begun[k] == s[k];
    forall j | 0 <= j < at
      ensures SeparatorEnd(sep, begun, j) == j
    {
      NoNewCut(sep, s, begun, j);
    }
    LeftmostCut(sep, begun, 0, at);
  }

  lemma NoNewCut(sep: Separator, s: string, begun: string, j: nat)
    requires begun <= s && j <= |begun| && SeparatorEnd(sep, s, j) == j
    ensures SeparatorEnd(sep, begun, j) == j
  {
    assert forall k :: 0 <= k < |begun| ==> begun[k] == s[k];
  }

  /** Every number of closed pieces is reached by some beginning of the text. */
  lemma {:induction false} BeginningThatCloses(sep: Separator, s: string, n: nat) returns (begun: string)
    requires n <= |Closed(sep, s)|
    ensures begun <= s && Closed(sep, begun) == Closed(sep, s)[..n]
    decreases n
  {
    if n == 0 {
      begun := "";
    } else {
      var at := FindSeparator(sep, s, 0);
      var end := SeparatorEnd(sep, s, at);
      SplitStep(sep, s);
      var rest := BeginningThatCloses(sep, s[end..], n - 1);
      begun := s[..end] + rest;
      assert s == s[..end] + s[end..];
      CutOfBeginning(sep, s, begun);
      assert begun[end..] == rest && begun[..at] == s[..at];
      SplitStep(sep, begun);
    }
  }

  predicate NoCarriageReturn(s: string) {
    '\r' !in s
  }

  /** Without carriage returns the two newline notations cut at the same places. */
  lemma {:induction false} NotationsAgree(sep: Separator, s: string)
    requires NoCarriageReturn(s)
    ensures Split(sep, s) == Split(sep.(crOptional := !sep.crOptional), s)
    ensures forall p :: p in Split(sep, s) ==> NoCarriageReturn(p)
    decreases |s|
  {
    var other := sep.(crOptional := !sep.crOptional);
    assert forall i :: 0 <= i <= |s| ==> SeparatorEnd(sep, s, i) == SeparatorEnd(other, s, i);
    var at := FindSeparator(sep, s, 0);
    LeftmostCut(other, s, 0, at);
    if at < |s| {
      var end := SeparatorEnd(sep, s, at);
      NotationsAgree(sep, s[end..]);
    }
  }
}
