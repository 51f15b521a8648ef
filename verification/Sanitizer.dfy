/**
 The strict detail sanitizer: a recursive rewrite of JSON-like values that drops unsafe keys and strings,
 reduces dirty-entry paths and counts, record by record, what it redacted.
 */
module Sanitizer {
  import opened Prelude

  datatype Scalar = Number(n: int) | Boolean(b: bool) | Null | Undefined

  /** A record is its entries in order. */
  datatype Json = Str(text: string) | Arr(items: seq<Json>) | Obj(fields: seq<Field>) | Leaf(scalar: Scalar)

  datatype Field = Field(key: string, value: Json)

  /** The three pattern tests. */
  datatype Rules = Rules(unsafeKey: string -> bool, unsafeValue: string -> bool, dirtyKey: string -> bool)

  const COUNT_KEY := "redacted_detail_count"
  const REDACTED := "[redacted]"

  // ---- Repository-relative paths ----

  function ForwardSlashes(s: string): (r: string)
    ensures |r| == |s| && '\\' !in r
    ensures '\\' !in s ==> r == s
  {
    if s == "" then "" else [if s[0] == '\\' then '/' else s[0]] + ForwardSlashes(s[1..])
  }

  /** A leading slash, or a drive letter with its colon and slash. */
  predicate IsAbsolute(s: string) {
    || (s != "" && s[0] == '/')
    || (|s| >= 3 && IsLetter(s[0]) && s[1] == ':' && s[2] == '/')
  }

  const MARKER := "/forgeloop/"

  predicate MarkerAt(s: string, i: nat) {
    i + 11 <= |s| && s[i..i + 11] == MARKER
  }

  /** Start of the last marker that begins before `n`. */
  function LastMarker(s: string, n: nat): (r: Option<nat>)
    requires n <= |s|
    ensures r.Some? ==> r.value < n && MarkerAt(s, r.value)
    ensures forall i :: (if r.Some? then r.value else -1) < i < n ==> !MarkerAt(s, i)
  {
    if n == 0 then None
    else if MarkerAt(s, n - 1) then Some(n - 1)
    else LastMarker(s, n - 1)
  }

  /** The last non-empty piece between slashes. */
  function LastSegment(s: string): (r: Option<string>)
    ensures r.Some? ==> r.value != "" && '/' !in r.value
    decreases |s|
  {
    if s == "" then None
    else if s[|s| - 1] == '/' then LastSegment(s[..|s| - 1])
    else Some(s[SegmentStart(s, |s|)..])
  }

  function SegmentStart(s: string, n: nat): (r: nat)
    requires 0 < n <= |s| && s[n - 1] != '/'
    ensures r < n && '/' !in s[r..n]
  {
    if n == 1 || s[n - 2] == '/' then n - 1
    else
      var r := SegmentStart(s, n - 1);
      assert s[r..n] == s[r..n - 1] + [s[n - 1]];
      r
  }

  function RepoRelativeOrBasename(s: string): string {
    var normalized := ForwardSlashes(s);
    if !IsAbsolute(normalized) then normalized
    else
      match LastMarker(normalized, |normalized|)
      case Some(i) => normalized[i + 11..]
      case None =>
        match LastSegment(normalized)
        case Some(segment) => segment
        case None => REDACTED
  }

  lemma MarkerShift(s: string, d: nat, k: nat)
    requires d <= |s|
    ensures MarkerAt(s[d..], k) <==> MarkerAt(s, d + k)
  {
    if d + k + 11 <= |s| {
      assert s[d..][k..k + 11] == s[d + k..d + k + 11];
    }
  }

  lemma NoMarkerAfterLast(s: string, i: nat)
    requires LastMarker(s, |s|) == Some(i)
    ensures i + 11 <= |s| && LastMarker(s[i + 11..], |s| - i - 11) == None
  {
    assert MarkerAt(s, i);
    hide MarkerAt;
    var rest := s[i + 11..];
    forall k | 0 <= k < |rest|
      ensures !MarkerAt(rest, k)
    {
      MarkerShift(s, i + 11, k);
    }
  }

  /** An absolute path with a marker, of which what follows the last marker is itself absolute. */
  predicate StaysAbsolute(s: string) {
    var normalized := ForwardSlashes(s);
    IsAbsolute(normalized) &&
    match LastMarker(normalized, |normalized|)
    case None => false
    case Some(i) => IsAbsolute(normalized[i + 11..])
  }

  /** A path of slashes only, and one whose kept part is the placeholder already. */
  predicate BecomesPlaceholder(s: string) {
    var normalized := ForwardSlashes(s);
    if !IsAbsolute(normalized) then normalized == REDACTED
    else
      match LastMarker(normalized, |normalized|)
      case Some(i) => normalized[i + 11..] == REDACTED
      case None => LastSegment(normalized) == None || LastSegment(normalized) == Some(REDACTED)
  }

  lemma PlaceholderExactly(s: string)
    ensures RepoRelativeOrBasename(s) == REDACTED <==> BecomesPlaceholder(s)
  {
    hide IsAbsolute, LastMarker, LastSegment, ForwardSlashes;
  }

  /** What is kept is absolute exactly for those paths, and then without a further marker. */
  lemma AbsoluteResult(s: string)
    ensures var r := RepoRelativeOrBasename(s);
            && '\\' !in r
            && (IsAbsolute(r) <==> StaysAbsolute(s))
            && (IsAbsolute(r) ==> LastMarker(r, |r|) == None)
  {
    hide MarkerAt, ForwardSlashes;
    var normalized := ForwardSlashes(s);
    if IsAbsolute(normalized) {
      var marker := LastMarker(normalized, |normalized|);
      if marker.Some? {
        NoMarkerAfterLast(normalized, marker.value);
        assert forall c :: c in normalized[marker.value + 11..] ==> c in normalized;
      } else if LastSegment(normalized).Some? {
        SegmentOf(normalized);
      }
    }
  }

  /** Shortening a path twice changes nothing more exactly when the path does not stay absolute. */
  lemma RelativeExactly(s: string)
    ensures var r := RepoRelativeOrBasename(s);
            RepoRelativeOrBasename(r) == r <==> !StaysAbsolute(s)
  {
    hide MarkerAt, StaysAbsolute;
    var r := RepoRelativeOrBasename(s);
    AbsoluteResult(s);
    assert ForwardSlashes(r) == r;
    if IsAbsolute(r) {
      assert '/' in r && '/' !in REDACTED;
      hide IsAbsolute;
    }
  }

  lemma {:induction false} SegmentOf(s: string)
    requires LastSegment(s).Some?
    ensures forall c :: c in LastSegment(s).value ==> c in s
    decreases |s|
  {
    if s[|s| - 1] == '/' {
      SegmentOf(s[..|s| - 1]);
    }
  }

  // ---- The rewrite as a function ----

  /** What a value becomes, when anything, and how many redactions its enclosing record is charged. */
  datatype Sanitized = Sanitized(value: Option<Json>, count: nat)

  function SanitizeValue(rules: Rules, v: Json, dirty: bool): Sanitized
    decreases v, 1
  {
    match v
    case Str(text) =>
      if dirty then
        var path := RepoRelativeOrBasename(text);
        Sanitized(Some(Str(path)), if path == REDACTED then 1 else 0)
      else if rules.unsafeValue(text) then Sanitized(None, 1)
      else Sanitized(Some(v), 0)
    case Arr(items) =>
      var r := SanitizeItems(rules, items, dirty);
      Sanitized(Some(Arr(r.0)), r.1)
    case Obj(fields) => Sanitized(Some(Obj(SanitizeRecord(rules, fields))), 0)
    case Leaf(_) => if dirty then Sanitized(Some(Str(REDACTED)), 1) else Sanitized(Some(v), 0)
  }

  function SanitizeItems(rules: Rules, items: seq<Json>, dirty: bool): (seq<Json>, nat)
    decreases items, 0
  {
    if items == [] then ([], 0)
    else
      var init, last := SanitizeItems(rules, items[..|items| - 1], dirty), SanitizeValue(rules, items[|items| - 1], dirty);
      (if last.value.Some? then init.0 + [last.value.value] else init.0, init.1 + last.count)
  }

  function SanitizeField(rules: Rules, f: Field): Sanitized
    decreases f, 2
  {
    if rules.unsafeKey(f.key) then Sanitized(None, 1)
    else SanitizeValue(rules, f.value, f.value.Arr? && rules.dirtyKey(f.key))
  }

  function SanitizeFields(rules: Rules, fields: seq<Field>): (seq<Field>, nat)
    decreases fields, 0
  {
    if fields == [] then ([], 0)
    else
      var f := fields[|fields| - 1];
      var init, last := SanitizeFields(rules, fields[..|fields| - 1]), SanitizeField(rules, f);
      (if last.value.Some? then init.0 + [Field(f.key, last.value.value)] else init.0, init.1 + last.count)
  }

  /** Assigning a property: in place when the key exists, at the end otherwise. */
  function SetField(fields: seq<Field>, key: string, value: Json): (r: seq<Field>)
    ensures Field(key, value) in r
    ensures forall f :: f in r ==> f in fields || f == Field(key, value)
    ensures forall f :: f in fields && f.key != key ==> f in r
  {
    if fields == [] then [Field(key, value)]
    else if fields[0].key == key then
      assert forall f :: f in fields ==> f == fields[0] || f in fields[1..];
      [Field(key, value)] + fields[1..]
    else [fields[0]] + SetField(fields[1..], key, value)
  }

  function SanitizeRecord(rules: Rules, fields: seq<Field>): seq<Field>
    decreases fields, 1
  {
    var r := SanitizeFields(rules, fields);
    if r.1 > 0 then SetField(r.0, COUNT_KEY, Leaf(Number(r.1))) else r.0
  }

  // ---- The rewrite as the program does it ----

  method SanitizeStrictDetailValue(rules: Rules, v: Json, dirty: bool) returns (r: Sanitized)
    ensures r == SanitizeValue(rules, v, dirty)
    decreases v, 1
  {
    match v
    case Str(text) =>
      var path := if dirty then RepoRelativeOrBasename(text) else text;
      if !dirty && rules.unsafeValue(path) {
        return Sanitized(None, 1);
      }
      r := Sanitized(Some(Str(path)), if dirty && path == REDACTED then 1 else 0);
    case Arr(items) =>
      var kept: seq<Json>, count := [], 0;
      for i := 0 to |items|
        invariant (kept, count) == SanitizeItems(rules, items[..i], dirty)
      {
        assert items[..i + 1][..i] == items[..i];
        var entry := SanitizeStrictDetailValue(rules, items[i], dirty);
        count := count + entry.count;
        if entry.value.Some? {
          kept := kept + [entry.value.value];
        }
      }
      assert items[..|items|] == items;
      r := Sanitized(Some(Arr(kept)), count);
    case Obj(fields) =>
      var record := SanitizeStrictDetailRecord(rules, fields);
      r := Sanitized(Some(Obj(record)), 0);
    case Leaf(_) =>
      r := if dirty then Sanitized(Some(Str(REDACTED)), 1) else Sanitized(Some(v), 0);
  }

  method SanitizeStrictDetailRecord(rules: Rules, details: seq<Field>) returns (sanitized: seq<Field>)
    ensures sanitized == SanitizeRecord(rules, details)
    decreases details, 1
  {
    sanitized := [];
    var count := 0;
    for i := 0 to |details|
      invariant (sanitized, count) == SanitizeFields(rules, details[..i])
    {
      assert details[..i + 1][..i] == details[..i];
      var key, value := details[i].key, details[i].value;
      if rules.unsafeKey(key) {
        count := count + 1;
      } else {
        var entry := SanitizeStrictDetailValue(rules, value, value.Arr? && rules.dirtyKey(key));
        count := count + entry.count;
        if entry.value.Some? {
          sanitized := sanitized + [Field(key, entry.value.value)];
        }
      }
    }
    assert details[..|details|] == details;
    if count > 0 {
      sanitized := SetField(sanitized, COUNT_KEY, Leaf(Number(count)));
    }
  }

  // ---- What survives ----

  /** The count's own key must be a key the rules let through, in both roles. */
  predicate SoundRules(rules: Rules) {
    !rules.unsafeKey(COUNT_KEY)
  }

  predicate IsDirtyField(rules: Rules, f: Field) {
    f.value.Arr? && rules.dirtyKey(f.key)
  }

  /** No unsafe key at any depth, no unsafe string outside dirty-entries arrays, and only path-like strings and records in them. */
  predicate Clean(rules: Rules, v: Json, dirty: bool)
    decreases v
  {
    match v
    case Str(text) => if dirty then '\\' !in text else !rules.unsafeValue(text)
    case Arr(items) => forall i :: 0 <= i < |items| ==> Clean(rules, items[i], dirty)
    case Obj(fields) =>
      forall i :: 0 <= i < |fields| ==> !rules.unsafeKey(fields[i].key) && Clean(rules, fields[i].value, IsDirtyField(rules, fields[i]))
    case Leaf(_) => !dirty
  }

  predicate CleanField(rules: Rules, f: Field) {
    !rules.unsafeKey(f.key) && Clean(rules, f.value, IsDirtyField(rules, f))
  }

  lemma {:induction false} ValueIsClean(rules: Rules, v: Json, dirty: bool)
    requires SoundRules(rules)
    ensures var r := SanitizeValue(rules, v, dirty).value;
            && (r.Some? ==> Clean(rules, r.value, dirty) && (r.value.Arr? <==> v.Arr?))
            && (dirty || v.Arr? ==> r.Some?)
    decreases v, 1
  {
    match v
    case Str(text) => AbsoluteResult(text);
    case Arr(items) => ItemsAreClean(rules, items, dirty);
    case Obj(fields) => RecordIsClean(rules, fields);
    case Leaf(_) =>
  }

  lemma {:induction false} ItemsAreClean(rules: Rules, items: seq<Json>, dirty: bool)
    requires SoundRules(rules)
    ensures forall w :: w in SanitizeItems(rules, items, dirty).0 ==> Clean(rules, w, dirty)
    decreases items, 0
  {
    if items != [] {
      ItemsAreClean(rules, items[..|items| - 1], dirty);
      ValueIsClean(rules, items[|items| - 1], dirty);
    }
  }

  lemma {:induction false} FieldsAreClean(rules: Rules, fields: seq<Field>)
    requires SoundRules(rules)
    ensures forall f :: f in SanitizeFields(rules, fields).0 ==> CleanField(rules, f)
    decreases fields, 0
  {
    if fields != [] {
      var f := fields[|fields| - 1];
      FieldsAreClean(rules, fields[..|fields| - 1]);
      assert f in fields;
      ValueIsClean(rules, f.value, IsDirtyField(rules, f));
    }
  }

  lemma {:induction false} RecordIsClean(rules: Rules, fields: seq<Field>)
    requires SoundRules(rules)
    ensures Clean(rules, Obj(SanitizeRecord(rules, fields)), false)
    decreases fields, 1
  {
    FieldsAreClean(rules, fields);
    var out := SanitizeRecord(rules, fields);
    forall i | 0 <= i < |out|
      ensures CleanField(rules, out[i])
    {
      assert out[i] in out;
    }
  }

  // ---- What is counted ----

  /** Strings, scalars and records, seen through arrays. */
  function Atoms(v: Json): nat {
    match v
    case Arr(items) => AtomsOf(items)
    case _ => 1
  }

  function AtomsOf(items: seq<Json>): nat {
    if items == [] then 0 else AtomsOf(items[..|items| - 1]) + Atoms(items[|items| - 1])
  }

  /** Redaction placeholders, seen through arrays. */
  function Placeholders(v: Json): nat {
    match v
    case Arr(items) => PlaceholdersOf(items)
    case Str(text) => if text == REDACTED then 1 else 0
    case _ => 0
  }

  function PlaceholdersOf(items: seq<Json>): nat {
    if items == [] then 0 else PlaceholdersOf(items[..|items| - 1]) + Placeholders(items[|items| - 1])
  }

  function Kept(v: Option<Json>): nat {
    if v.Some? then Atoms(v.value) else 0
  }

  /** Outside dirty entries the count is what disappeared; inside them nothing disappears and the count is the placeholders. */
  lemma {:induction false} ValueCount(rules: Rules, v: Json, dirty: bool)
    ensures var r := SanitizeValue(rules, v, dirty);
            Kept(r.value) + (if dirty then 0 else r.count) == Atoms(v)
    ensures var r := SanitizeValue(rules, v, dirty);
            dirty ==> r.value.Some? && r.count == Placeholders(r.value.value)
    decreases v, 1
  {
    if v.Arr? {
      ItemsCount(rules, v.items, dirty);
    }
  }

  lemma {:induction false} ItemsCount(rules: Rules, items: seq<Json>, dirty: bool)
    ensures var r := SanitizeItems(rules, items, dirty);
            AtomsOf(r.0) + (if dirty then 0 else r.1) == AtomsOf(items)
    ensures var r := SanitizeItems(rules, items, dirty);
            dirty ==> r.1 == PlaceholdersOf(r.0)
    decreases items, 0
  {
    if items != [] {
      var init := items[..|items| - 1];
      ItemsCount(rules, init, dirty);
      ValueCount(rules, items[|items| - 1], dirty);
      var before, r := SanitizeItems(rules, init, dirty).0, SanitizeItems(rules, items, dirty).0;
      if SanitizeValue(rules, items[|items| - 1], dirty).value.Some? {
        assert r[..|r| - 1] == before;
      }
    }
  }

  /** The unsafe strings of a value, seen through arrays. */
  function Dropped(rules: Rules, v: Json): nat {
    match v
    case Str(text) => if rules.unsafeValue(text) then 1 else 0
    case Arr(items) => DroppedIn(rules, items)
    case _ => 0
  }

  function DroppedIn(rules: Rules, items: seq<Json>): nat {
    if items == [] then 0 else DroppedIn(rules, items[..|items| - 1]) + Dropped(rules, items[|items| - 1])
  }

  /** The entries that become placeholders under a dirty-entries key, seen through arrays: scalars, and paths with nothing to keep. */
  function Made(v: Json): nat {
    match v
    case Str(text) => if BecomesPlaceholder(text) then 1 else 0
    case Arr(items) => MadeIn(items)
    case Obj(_) => 0
    case Leaf(_) => 1
  }

  function MadeIn(items: seq<Json>): nat {
    if items == [] then 0 else MadeIn(items[..|items| - 1]) + Made(items[|items| - 1])
  }

  lemma {:induction false} ChargeOfValue(rules: Rules, v: Json, dirty: bool)
    ensures SanitizeValue(rules, v, dirty).count == if dirty then Made(v) else Dropped(rules, v)
    decreases v, 1
  {
    match v
    case Str(text) => PlaceholderExactly(text);
    case Arr(items) => ChargeOfItems(rules, items, dirty);
    case _ =>
  }

  lemma {:induction false} ChargeOfItems(rules: Rules, items: seq<Json>, dirty: bool)
    ensures SanitizeItems(rules, items, dirty).1 == if dirty then MadeIn(items) else DroppedIn(rules, items)
    decreases items, 0
  {
    if items != [] {
      ChargeOfItems(rules, items[..|items| - 1], dirty);
      ChargeOfValue(rules, items[|items| - 1], dirty);
    }
  }

  /** What a record is charged for its own entries: unsafe keys and dropped strings, and placeholders made. */
  function DroppedBy(rules: Rules, f: Field): nat {
    if rules.unsafeKey(f.key) then 1 else if IsDirtyField(rules, f) then 0 else Dropped(rules, f.value)
  }

  function MadeBy(rules: Rules, f: Field): nat {
    if !rules.unsafeKey(f.key) && IsDirtyField(rules, f) then Made(f.value) else 0
  }

  function DroppedByAll(rules: Rules, fields: seq<Field>): nat {
    if fields == [] then 0 else DroppedByAll(rules, fields[..|fields| - 1]) + DroppedBy(rules, fields[|fields| - 1])
  }

  function MadeByAll(rules: Rules, fields: seq<Field>): nat {
    if fields == [] then 0 else MadeByAll(rules, fields[..|fields| - 1]) + MadeBy(rules, fields[|fields| - 1])
  }

  /** How many redactions a record's own entries call for. */
  function Redactions(rules: Rules, fields: seq<Field>): nat {
    DroppedByAll(rules, fields) + MadeByAll(rules, fields)
  }

  lemma {:induction false} ChargeOfFields(rules: Rules, fields: seq<Field>)
    ensures SanitizeFields(rules, fields).1 == Redactions(rules, fields)
    decreases |fields|
  {
    if fields != [] {
      var f := fields[|fields| - 1];
      ChargeOfFields(rules, fields[..|fields| - 1]);
      ChargeOfValue(rules, f.value, IsDirtyField(rules, f));
    }
  }

  /** Totals over a record's own entries: unsafe keys, atoms under clean-mode keys, placeholders under dirty-entries keys. */
  datatype Tally = Tally(unsafe: nat, atoms: nat, placeholders: nat)

  function TallyField(rules: Rules, f: Field): Tally {
    if rules.unsafeKey(f.key) then Tally(1, 0, 0)
    else if IsDirtyField(rules, f) then Tally(0, 0, Placeholders(f.value))
    else Tally(0, Atoms(f.value), 0)
  }

  function TallyFields(rules: Rules, fields: seq<Field>): Tally {
    if fields == [] then Tally(0, 0, 0)
    else
      var init, last := TallyFields(rules, fields[..|fields| - 1]), TallyField(rules, fields[|fields| - 1]);
      Tally(init.unsafe + last.unsafe, init.atoms + last.atoms, init.placeholders + last.placeholders)
  }

  /**
   Conservation: the count of a record is its unsafe keys, plus the atoms that disappeared from its other entries,
   plus the placeholders its dirty-entries arrays now hold.
   */
  lemma {:induction false} RecordCount(rules: Rules, fields: seq<Field>)
    ensures var (out, count) := SanitizeFields(rules, fields);
            var before, after := TallyFields(rules, fields), TallyFields(rules, out);
            && after.unsafe == 0
            && count + after.atoms == before.unsafe + before.atoms + after.placeholders
    decreases |fields|
  {
    if fields != [] {
      var f := fields[|fields| - 1];
      var init := fields[..|fields| - 1];
      RecordCount(rules, init);
      var before, out := SanitizeFields(rules, init).0, SanitizeFields(rules, fields).0;
      var last := SanitizeField(rules, f);
      if !rules.unsafeKey(f.key) {
        ValueCount(rules, f.value, IsDirtyField(rules, f));
        ArraysStayArrays(rules, f.value, IsDirtyField(rules, f));
      }
      if last.value.Some? {
        assert out[..|out| - 1] == before;
      }
    }
  }

  lemma ArraysStayArrays(rules: Rules, v: Json, dirty: bool)
    ensures var r := SanitizeValue(rules, v, dirty).value;
            (v.Arr? ==> r.Some?) && (r.Some? ==> (r.value.Arr? <==> v.Arr?))
  {
  }

  function Lookup(fields: seq<Field>, key: string): Option<Json> {
    if fields == [] then None
    else if fields[0].key == key then Some(fields[0].value)
    else Lookup(fields[1..], key)
  }

  /** The number of redactions a reader of the record sees: absent means none. */
  function Reported(fields: seq<Field>): Option<int> {
    match Lookup(fields, COUNT_KEY)
    case None => Some(0)
    case Some(Leaf(Number(n))) => Some(n)
    case _ => None
  }

  lemma {:induction false} LookupSet(fields: seq<Field>, key: string, v: Json)
    ensures Lookup(SetField(fields, key, v), key) == Some(v)
    decreases |fields|
  {
    if fields != [] && fields[0].key != key {
      LookupSet(fields[1..], key, v);
    }
  }

  lemma {:induction false} LookupAppend(a: seq<Field>, b: seq<Field>, key: string)
    ensures Lookup(a + b, key) == if Lookup(a, key).Some? then Lookup(a, key) else Lookup(b, key)
    decreases |a|
  {
    if a == [] {
      assert a + b == b;
    } else {
      assert (a + b)[1..] == a[1..] + b;
      LookupAppend(a[1..], b, key);
    }
  }

  lemma LookupOne(f: Field, key: string)
    ensures Lookup([f], key) == if f.key == key then Some(f.value) else None
  {
  }

  lemma UntouchedField(rules: Rules, f: Field)
    requires SanitizeField(rules, f).count == 0
    ensures var kept := SanitizeField(rules, f).value;
            kept.Some? && (kept.value.Leaf? <==> f.value.Leaf?) && (f.value.Leaf? ==> kept.value == f.value)
  {
    ArraysStayArrays(rules, f.value, IsDirtyField(rules, f));
  }

  /** With nothing redacted, a key is found exactly as before, and its scalar, if it is one, is unchanged. */
  lemma {:induction false} UntouchedLookup(rules: Rules, fields: seq<Field>, key: string)
    requires SanitizeFields(rules, fields).1 == 0
    ensures var found, kept := Lookup(fields, key), Lookup(SanitizeFields(rules, fields).0, key);
            && (found.Some? <==> kept.Some?)
            && (found.Some? ==> (found.value.Leaf? <==> kept.value.Leaf?) && (found.value.Leaf? ==> kept == found))
    decreases |fields|
  {
    if fields != [] {
      var init, f := fields[..|fields| - 1], fields[|fields| - 1];
      var last := SanitizeField(rules, f);
      assert SanitizeFields(rules, fields).1 == SanitizeFields(rules, init).1 + last.count;
      UntouchedLookup(rules, init, key);
      UntouchedField(rules, f);
      hide SanitizeField, SanitizeFields, Lookup;
      var kept := Field(f.key, last.value.value);
      LookupAppend(init, [f], key);
      LookupAppend(SanitizeFields(rules, init).0, [kept], key);
      LookupOne(f, key);
      LookupOne(kept, key);
      assert fields == init + [f];
    }
  }

  /**
   A record reports the redactions its entries call for exactly when they call for some, or when the input's own entry under the
   count key, which survives if nothing is redacted, is absent or already says zero.
   */
  lemma CountFieldExactly(rules: Rules, fields: seq<Field>)
    ensures Reported(SanitizeRecord(rules, fields)) == Some(Redactions(rules, fields)) <==>
            Redactions(rules, fields) > 0 || Reported(fields) == Some(0)
  {
    var r := SanitizeFields(rules, fields);
    ChargeOfFields(rules, fields);
    if r.1 > 0 {
      LookupSet(r.0, COUNT_KEY, Leaf(Number(r.1)));
    } else {
      UntouchedLookup(rules, fields, COUNT_KEY);
    }
  }

  // ---- Idempotence ----

  /** No dirty-entries array at any depth. */
  predicate NoDirtyEntries(rules: Rules, v: Json)
    decreases v
  {
    match v
    case Arr(items) => forall i :: 0 <= i < |items| ==> NoDirtyEntries(rules, items[i])
    case Obj(fields) => forall i :: 0 <= i < |fields| ==> !IsDirtyField(rules, fields[i]) && NoDirtyEntries(rules, fields[i].value)
    case _ => true
  }

  /** Without dirty entries a value passes unchanged exactly when it is clean. */
  lemma {:induction false} CleanIsFixed(rules: Rules, v: Json)
    requires NoDirtyEntries(rules, v) && Clean(rules, v, false)
    ensures SanitizeValue(rules, v, false) == Sanitized(Some(v), 0)
    decreases v, 1
  {
    match v
    case Arr(items) => CleanItemsAreFixed(rules, items);
    case Obj(fields) => CleanFieldsAreFixed(rules, fields);
    case _ =>
  }

  lemma {:induction false} CleanItemsAreFixed(rules: Rules, items: seq<Json>)
    requires forall i :: 0 <= i < |items| ==> NoDirtyEntries(rules, items[i]) && Clean(rules, items[i], false)
    ensures SanitizeItems(rules, items, false) == (items, 0)
    decreases items, 0
  {
    if items != [] {
      assert items == items[..|items| - 1] + [items[|items| - 1]];
      CleanItemsAreFixed(rules, items[..|items| - 1]);
      CleanIsFixed(rules, items[|items| - 1]);
    }
  }

  lemma {:induction false} CleanFieldsAreFixed(rules: Rules, fields: seq<Field>)
    requires forall i :: 0 <= i < |fields| ==>
               !IsDirtyField(rules, fields[i]) && NoDirtyEntries(rules, fields[i].value) && CleanField(rules, fields[i])
    ensures SanitizeFields(rules, fields) == (fields, 0)
    decreases fields, 0
  {
    if fields != [] {
      var last := fields[|fields| - 1];
      assert fields == fields[..|fields| - 1] + [last];
      CleanFieldsAreFixed(rules, fields[..|fields| - 1]);
      CleanIsFixed(rules, last.value);
      assert !IsDirtyField(rules, last) && CleanField(rules, last);
    }
  }

  lemma {:induction false} NoDirtyIsKept(rules: Rules, v: Json)
    requires NoDirtyEntries(rules, v)
    ensures var r := SanitizeValue(rules, v, false).value;
            r.Some? ==> NoDirtyEntries(rules, r.value) && (r.value.Arr? <==> v.Arr?)
    decreases v, 1
  {
    match v
    case Arr(items) => NoDirtyItemsKept(rules, items);
    case Obj(fields) =>
      NoDirtyFieldsKept(rules, fields);
      var out := SanitizeRecord(rules, fields);
      forall i | 0 <= i < |out|
        ensures !IsDirtyField(rules, out[i]) && NoDirtyEntries(rules, out[i].value)
      {
        assert out[i] in out;
      }
    case _ =>
  }

  lemma {:induction false} NoDirtyItemsKept(rules: Rules, items: seq<Json>)
    requires forall i :: 0 <= i < |items| ==> NoDirtyEntries(rules, items[i])
    ensures forall w :: w in SanitizeItems(rules, items, false).0 ==> NoDirtyEntries(rules, w)
    decreases items, 0
  {
    if items != [] {
      NoDirtyItemsKept(rules, items[..|items| - 1]);
      NoDirtyIsKept(rules, items[|items| - 1]);
    }
  }

  lemma {:induction false} NoDirtyFieldsKept(rules: Rules, fields: seq<Field>)
    requires forall i :: 0 <= i < |fields| ==> !IsDirtyField(rules, fields[i]) && NoDirtyEntries(rules, fields[i].value)
    ensures forall f :: f in SanitizeFields(rules, fields).0 ==> !IsDirtyField(rules, f) && NoDirtyEntries(rules, f.value)
    decreases fields, 0
  {
    if fields != [] {
      NoDirtyFieldsKept(rules, fields[..|fields| - 1]);
      NoDirtyIsKept(rules, fields[|fields| - 1].value);
    }
  }

  /** Idempotence wherever there are no dirty-entries arrays. */
  lemma Idempotent(rules: Rules, v: Json)
    requires SoundRules(rules) && NoDirtyEntries(rules, v)
    ensures var once := SanitizeValue(rules, v, false).value;
            once.Some? ==> SanitizeValue(rules, once.value, false) == Sanitized(once, 0)
  {
    ValueIsClean(rules, v, false);
    NoDirtyIsKept(rules, v);
    var once := SanitizeValue(rules, v, false).value;
    if once.Some? {
      CleanIsFixed(rules, once.value);
    }
  }

  lemma MarkerHead(s: string, i: nat)
    requires MarkerAt(s, i)
    ensures s[i] == '/' && s[i + 1] == 'f'
  {
    assert s[i..i + 11][0] == s[i] && s[i..i + 11][1] == s[i + 1];
  }

  lemma NoOverlap(rest: string, i: nat)
    requires rest != "" && rest[0] == '/' && 0 < i < 11
    ensures !MarkerAt(MARKER + rest, i)
  {
    var s := MARKER + rest;
    assert s[i] == MARKER[i] && s[11] == '/';
    assert i < 10 ==> MARKER[i] != '/';
    if MarkerAt(s, i) {
      MarkerHead(s, i);
    }
  }

  lemma LastMarkerIs(s: string, i: nat)
    requires i < |s| && MarkerAt(s, i) && forall k :: i < k < |s| ==> !MarkerAt(s, k)
    ensures LastMarker(s, |s|) == Some(i)
  {
    hide MarkerAt;
  }

  lemma MarkerFirst(rest: string)
    ensures var s := MARKER + rest;
            s[0] == '/' && MarkerAt(s, 0) && s[11..] == rest
    ensures '\\' !in rest ==> '\\' !in MARKER + rest
  {
    assert (MARKER + rest)[0..11] == MARKER;
  }

  /** Such paths: a marker followed by an absolute path that holds no further marker. */
  lemma AbsoluteSurvivors(rest: string)
    requires rest != "" && rest[0] == '/' && '\\' !in rest && LastMarker(rest, |rest|) == None
    ensures RepoRelativeOrBasename(MARKER + rest) == rest && StaysAbsolute(MARKER + rest)
  {
    var s := MARKER + rest;
    MarkerFirst(rest);
    hide MarkerAt, ForwardSlashes, LastSegment, LastMarker;
    forall i | 0 < i < |s|
      ensures !MarkerAt(s, i)
    {
      if i < 11 {
        NoOverlap(rest, i);
      } else {
        MarkerShift(s, 11, i - 11);
      }
    }
    LastMarkerIs(s, 0);
  }
}
