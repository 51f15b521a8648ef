/** A second pass of the strict detail sanitizer: for every record, exactly when it changes nothing. */
module SanitizerTwice {
  import opened Prelude
  import opened Sanitizer

  /** The count's own key is neither an unsafe nor a dirty-entries key. */
  predicate PlainCountKey(rules: Rules) {
    SoundRules(rules) && !rules.dirtyKey(COUNT_KEY)
  }

  predicate DistinctKeys(fields: seq<Field>) {
    forall i, j :: 0 <= i < j < |fields| ==> fields[i].key != fields[j].key
  }

  /** Records have each key once, at every depth. */
  predicate WellFormed(v: Json)
    decreases v
  {
    match v
    case Arr(items) => forall i :: 0 <= i < |items| ==> WellFormed(items[i])
    case Obj(fields) => DistinctKeys(fields) && forall i :: 0 <= i < |fields| ==> WellFormed(fields[i].value)
    case _ => true
  }

  // ---- What settles ----

  /** One pass is enough for a value: no path in it stays absolute, and each of its records settles. */
  predicate Settles(rules: Rules, v: Json, dirty: bool)
    decreases v, 0
  {
    match v
    case Str(text) => dirty ==> !StaysAbsolute(text)
    case Arr(items) => forall i :: 0 <= i < |items| ==> Settles(rules, items[i], dirty)
    case Obj(fields) => RecordSettles(rules, fields)
    case Leaf(_) => true
  }

  /** An entry that is dropped, or overwritten by the count, does not matter. */
  predicate Matters(rules: Rules, f: Field, overwritten: bool) {
    !rules.unsafeKey(f.key) && !(overwritten && f.key == COUNT_KEY)
  }

  predicate EntriesSettle(rules: Rules, fields: seq<Field>, overwritten: bool)
    decreases fields, 0
  {
    forall i :: 0 <= i < |fields| && Matters(rules, fields[i], overwritten) ==>
      Settles(rules, fields[i].value, IsDirtyField(rules, fields[i]))
  }

  /** One pass is enough for a record: its entries settle, and it does not make placeholders and drop something else as well. */
  predicate RecordSettles(rules: Rules, fields: seq<Field>)
    decreases fields, 1
  {
    && EntriesSettle(rules, fields, Redactions(rules, fields) > 0)
    && (MadeByAll(rules, fields) == 0 || DroppedByAll(rules, fields) == 0)
  }

  // ---- A second pass over what is clean ----

  predicate FieldFixed(rules: Rules, f: Field) {
    SanitizeField(rules, f).value == Some(f.value)
  }

  predicate Fixed(rules: Rules, fields: seq<Field>, overwritten: bool) {
    forall i :: 0 <= i < |fields| && !(overwritten && fields[i].key == COUNT_KEY) ==> FieldFixed(rules, fields[i])
  }

  predicate AllClean(rules: Rules, fields: seq<Field>) {
    forall i :: 0 <= i < |fields| ==> CleanField(rules, fields[i])
  }

  /** Nothing disappears from a clean value. */
  lemma CleanIsKept(rules: Rules, v: Json, dirty: bool)
    requires Clean(rules, v, dirty)
    ensures SanitizeValue(rules, v, dirty).value.Some?
  {
  }

  /** A clean record is rewritten entry by entry. */
  lemma {:induction false} CleanIsMapped(rules: Rules, fields: seq<Field>)
    requires AllClean(rules, fields)
    ensures var out := SanitizeFields(rules, fields).0;
            && |out| == |fields|
            && forall i :: 0 <= i < |fields| ==> out[i].key == fields[i].key && SanitizeField(rules, fields[i]).value == Some(out[i].value)
    decreases |fields|
  {
    if fields != [] {
      var n := |fields| - 1;
      CleanIsMapped(rules, fields[..n]);
      assert CleanField(rules, fields[n]);
      CleanIsKept(rules, fields[n].value, IsDirtyField(rules, fields[n]));
      hide SanitizeField;
      assert forall i :: 0 <= i < n ==> fields[..n][i] == fields[i];
    }
  }

  /** `r` is `out` with the entry in the place of its key, or at the end. */
  ghost predicate IsSet(out: seq<Field>, r: seq<Field>, entry: Field) {
    && |out| <= |r| <= |out| + 1
    && (forall i :: 0 <= i < |out| ==> r[i] == if out[i].key == entry.key then entry else out[i])
    && (|r| == |out| <==> exists i :: 0 <= i < |out| && out[i].key == entry.key)
    && (|r| > |out| ==> r[|out|] == entry)
  }

  lemma {:induction false} SetFieldAt(fields: seq<Field>, key: string, value: Json)
    requires DistinctKeys(fields)
    ensures IsSet(fields, SetField(fields, key, value), Field(key, value))
    decreases |fields|
  {
    if fields != [] && fields[0].key != key {
      SetFieldAt(fields[1..], key, value);
      SetLater(fields[0], fields[1..], SetField(fields[1..], key, value), Field(key, value));
      assert fields == [fields[0]] + fields[1..];
    } else if fields != [] {
      SetFirst(fields, Field(key, value));
    }
  }

  lemma SetFirst(fields: seq<Field>, entry: Field)
    requires DistinctKeys(fields) && fields != [] && fields[0].key == entry.key
    ensures IsSet(fields, [entry] + fields[1..], entry)
  {
  }

  lemma SetLater(first: Field, out: seq<Field>, r: seq<Field>, entry: Field)
    requires first.key != entry.key && IsSet(out, r, entry)
    ensures IsSet([first] + out, [first] + r, entry)
  {
    var out', r' := [first] + out, [first] + r;
    forall i | 0 <= i < |out'|
      ensures r'[i] == if out'[i].key == entry.key then entry else out'[i]
    {
      if i > 0 {
        assert out'[i] == out[i - 1] && r'[i] == r[i - 1];
      }
    }
    if i :| 0 <= i < |out| && out[i].key == entry.key {
      assert out'[i + 1].key == entry.key;
    }
    if i :| 0 <= i < |out'| && out'[i].key == entry.key {
      assert out[i - 1].key == entry.key;
    }
  }

  lemma SetFieldSame(fields: seq<Field>, f: Field)
    requires DistinctKeys(fields) && f in fields
    ensures SetField(fields, f.key, f.value) == fields
  {
    SetFieldAt(fields, f.key, f.value);
    hide SetField;
    var i :| 0 <= i < |fields| && fields[i] == f;
    var r := SetField(fields, f.key, f.value);
    assert |r| == |fields|;
    assert forall j :: 0 <= j < |fields| ==> r[j] == fields[j];
  }

  /** A second pass over a clean record changes nothing exactly when no entry changes and the count, if it is set at all, is there already. */
  lemma AgainExactly(rules: Rules, fields: seq<Field>)
    requires AllClean(rules, fields) && DistinctKeys(fields)
    ensures var count := Redactions(rules, fields);
            SanitizeRecord(rules, fields) == fields <==>
            Fixed(rules, fields, false) && (count == 0 || Field(COUNT_KEY, Leaf(Number(count))) in fields)
  {
    var r := SanitizeFields(rules, fields);
    var out, count := r.0, r.1;
    ChargeOfFields(rules, fields);
    CleanIsMapped(rules, fields);
    var entry := Field(COUNT_KEY, Leaf(Number(count)));
    assert Fixed(rules, fields, false) <==> out == fields by {
      if Fixed(rules, fields, false) {
        assert forall i :: 0 <= i < |fields| ==> FieldFixed(rules, fields[i]) && out[i] == fields[i];
      }
    }
    if count > 0 {
      SetFieldAt(out, COUNT_KEY, entry.value);
      hide SetField, SanitizeFields, SanitizeField, Redactions;
      var again := SetField(out, COUNT_KEY, entry.value);
      if again == fields {
        forall i | 0 <= i < |fields|
          ensures out[i] == fields[i]
        {
          if out[i].key == COUNT_KEY {
            CountIsFixed(rules, fields[i], count);
          }
        }
      }
      if entry in out {
        SetFieldSame(out, entry);
      }
    }
  }

  lemma CountIsFixed(rules: Rules, f: Field, count: nat)
    requires f == Field(COUNT_KEY, Leaf(Number(count))) && CleanField(rules, f)
    ensures SanitizeField(rules, f).value == Some(f.value)
  {
  }

  // ---- The counts of the two passes ----

  lemma {:induction false} CleanDropsNothing(rules: Rules, v: Json)
    requires Clean(rules, v, false)
    ensures Dropped(rules, v) == 0
    decreases v, 1
  {
    if v.Arr? {
      CleanItemsDropNothing(rules, v.items);
    }
  }

  lemma {:induction false} CleanItemsDropNothing(rules: Rules, items: seq<Json>)
    requires forall i :: 0 <= i < |items| ==> Clean(rules, items[i], false)
    ensures DroppedIn(rules, items) == 0
    decreases items, 0
  {
    if items != [] {
      CleanItemsDropNothing(rules, items[..|items| - 1]);
      CleanDropsNothing(rules, items[|items| - 1]);
    }
  }

  lemma {:induction false} CleanFieldsDropNothing(rules: Rules, fields: seq<Field>)
    requires AllClean(rules, fields)
    ensures DroppedByAll(rules, fields) == 0
    decreases |fields|
  {
    if fields != [] {
      var f := fields[|fields| - 1];
      CleanFieldsDropNothing(rules, fields[..|fields| - 1]);
      assert CleanField(rules, f);
      if !IsDirtyField(rules, f) {
        CleanDropsNothing(rules, f.value);
      }
    }
  }

  lemma {:induction false} MadeByAllAppend(rules: Rules, a: seq<Field>, b: seq<Field>)
    ensures MadeByAll(rules, a + b) == MadeByAll(rules, a) + MadeByAll(rules, b)
    decreases |b|
  {
    hide MadeBy;
    if b == [] {
      assert a + b == a;
    } else {
      assert (a + b)[..|a + b| - 1] == a + b[..|b| - 1];
      MadeByAllAppend(rules, a, b[..|b| - 1]);
    }
  }

  lemma MadeByOne(rules: Rules, f: Field)
    ensures MadeByAll(rules, [f]) == MadeBy(rules, f)
  {
    assert [f][..0] == [];
  }

  /** Setting the count makes no placeholder. */
  lemma {:induction false} SetCountMakesNothing(rules: Rules, fields: seq<Field>, n: int)
    requires PlainCountKey(rules)
    ensures MadeByAll(rules, SetField(fields, COUNT_KEY, Leaf(Number(n)))) == MadeByAll(rules, fields)
    decreases |fields|
  {
    var f := Field(COUNT_KEY, Leaf(Number(n)));
    MadeByOne(rules, f);
    if fields != [] {
      var rest := fields[1..];
      assert fields == [fields[0]] + rest;
      MadeByAllAppend(rules, [fields[0]], rest);
      MadeByOne(rules, fields[0]);
      if fields[0].key == COUNT_KEY {
        MadeByAllAppend(rules, [f], rest);
      } else {
        SetCountMakesNothing(rules, rest, n);
        MadeByAllAppend(rules, [fields[0]], SetField(rest, COUNT_KEY, f.value));
      }
    }
  }

  /** Where a second pass changes nothing, it makes the placeholders of the first again. */
  lemma MadeAgain(rules: Rules, v: Json)
    requires var once := SanitizeValue(rules, v, true).value; once.Some? && SanitizeValue(rules, once.value, true).value == once
    ensures Made(SanitizeValue(rules, v, true).value.value) == Made(v)
  {
    var once := SanitizeValue(rules, v, true).value.value;
    ChargeOfValue(rules, v, true);
    ChargeOfValue(rules, once, true);
    ValueCount(rules, v, true);
    ValueCount(rules, once, true);
  }

  lemma FieldMadeAgain(rules: Rules, f: Field, overwritten: bool)
    requires PlainCountKey(rules) && SanitizeField(rules, f).value.Some?
    requires var g := Field(f.key, SanitizeField(rules, f).value.value); (overwritten && f.key == COUNT_KEY) || FieldFixed(rules, g)
    ensures MadeBy(rules, Field(f.key, SanitizeField(rules, f).value.value)) == MadeBy(rules, f)
  {
    ArraysStayArrays(rules, f.value, IsDirtyField(rules, f));
    if IsDirtyField(rules, f) {
      MadeAgain(rules, f.value);
    }
  }

  lemma {:induction false} FieldsMadeAgain(rules: Rules, fields: seq<Field>, overwritten: bool)
    requires PlainCountKey(rules) && Fixed(rules, SanitizeFields(rules, fields).0, overwritten)
    ensures MadeByAll(rules, SanitizeFields(rules, fields).0) == MadeByAll(rules, fields)
    decreases |fields|
  {
    if fields != [] {
      var n := |fields| - 1;
      var f, init, out := fields[n], SanitizeFields(rules, fields[..n]).0, SanitizeFields(rules, fields).0;
      var last := SanitizeField(rules, f);
      ArraysStayArrays(rules, f.value, IsDirtyField(rules, f));
      if last.value.Some? {
        var g := Field(f.key, last.value.value);
        assert out == init + [g] && out[|init|] == g;
        assert Fixed(rules, init, overwritten) by {
          assert forall i :: 0 <= i < |init| ==> out[i] == init[i];
        }
        FieldsMadeAgain(rules, fields[..n], overwritten);
        FieldMadeAgain(rules, f, overwritten);
        assert out[..|out| - 1] == init;
      } else {
        FieldsMadeAgain(rules, fields[..n], overwritten);
      }
    }
  }

  // ---- The second pass, exactly ----

  lemma {:induction false} ValueTwice(rules: Rules, v: Json, dirty: bool)
    requires PlainCountKey(rules) && WellFormed(v)
    ensures var once := SanitizeValue(rules, v, dirty).value;
            once.Some? ==> (SanitizeValue(rules, once.value, dirty).value == once <==> Settles(rules, v, dirty))
    decreases v, 1
  {
    match v
    case Str(text) => RelativeExactly(text);
    case Arr(items) => ItemsTwice(rules, items, dirty);
    case Obj(fields) => RecordTwice(rules, fields);
    case Leaf(_) => PlaceholderStays();
  }

  lemma PlaceholderStays()
    ensures RepoRelativeOrBasename(REDACTED) == REDACTED
  {
    PlaceholderExactly(REDACTED);
  }

  lemma {:induction false} ItemsTwice(rules: Rules, items: seq<Json>, dirty: bool)
    requires PlainCountKey(rules) && forall i :: 0 <= i < |items| ==> WellFormed(items[i])
    ensures var once := SanitizeItems(rules, items, dirty).0;
            && |SanitizeItems(rules, once, dirty).0| == |once|
            && (SanitizeItems(rules, once, dirty).0 == once <==> forall i :: 0 <= i < |items| ==> Settles(rules, items[i], dirty))
    decreases items, 0
  {
    if items != [] {
      var n := |items| - 1;
      var init, w := SanitizeItems(rules, items[..n], dirty).0, SanitizeValue(rules, items[n], dirty).value;
      var once := SanitizeItems(rules, items, dirty).0;
      ItemsTwice(rules, items[..n], dirty);
      ValueTwice(rules, items[n], dirty);
      if w.Some? {
        ValueIsClean(rules, items[n], dirty);
        CleanIsKept(rules, w.value, dirty);
        assert once == init + [w.value] && once[..|once| - 1] == init;
        var twice, before, x := SanitizeItems(rules, once, dirty).0, SanitizeItems(rules, init, dirty).0, SanitizeValue(rules, w.value, dirty).value.value;
        assert twice == before + [x];
        assert twice == once <==> before == init && x == w.value;
      } else {
        DroppedSettles(rules, items[n], dirty);
      }
      assert items == items[..n] + [items[n]];
    }
  }

  lemma DroppedSettles(rules: Rules, v: Json, dirty: bool)
    requires SanitizeValue(rules, v, dirty).value.None?
    ensures Settles(rules, v, dirty)
  {
  }

  lemma {:induction false} FieldsTwice(rules: Rules, fields: seq<Field>, overwritten: bool)
    requires PlainCountKey(rules) && forall i :: 0 <= i < |fields| ==> WellFormed(fields[i].value)
    ensures Fixed(rules, SanitizeFields(rules, fields).0, overwritten) <==> EntriesSettle(rules, fields, overwritten)
    decreases fields, 0
  {
    if fields != [] {
      var n := |fields| - 1;
      var f, init, out := fields[n], SanitizeFields(rules, fields[..n]).0, SanitizeFields(rules, fields).0;
      FieldsTwice(rules, fields[..n], overwritten);
      assert f in fields;
      ValueTwice(rules, f.value, IsDirtyField(rules, f));
      FieldTwice(rules, f);
      var last := SanitizeField(rules, f);
      hide SanitizeField, FieldFixed, Settles;
      if last.value.Some? {
        assert out == init + [Field(f.key, last.value.value)];
        FixedOneMore(rules, init, Field(f.key, last.value.value), overwritten);
      }
      EntriesOneMore(rules, fields, overwritten);
    }
  }

  lemma FixedOneMore(rules: Rules, init: seq<Field>, g: Field, overwritten: bool)
    ensures Fixed(rules, init + [g], overwritten) <==>
            Fixed(rules, init, overwritten) && ((overwritten && g.key == COUNT_KEY) || FieldFixed(rules, g))
  {
    hide FieldFixed;
    var all := init + [g];
    assert all[|init|] == g && forall i :: 0 <= i < |init| ==> all[i] == init[i];
  }

  lemma EntriesOneMore(rules: Rules, fields: seq<Field>, overwritten: bool)
    requires fields != []
    ensures var n := |fields| - 1;
            EntriesSettle(rules, fields, overwritten) <==>
              && EntriesSettle(rules, fields[..n], overwritten)
              && (Matters(rules, fields[n], overwritten) ==> Settles(rules, fields[n].value, IsDirtyField(rules, fields[n])))
  {
    hide Settles, Matters;
    var n := |fields| - 1;
    assert forall i :: 0 <= i < n ==> fields[..n][i] == fields[i];
  }

  lemma FieldTwice(rules: Rules, f: Field)
    requires PlainCountKey(rules)
    requires var once := SanitizeValue(rules, f.value, IsDirtyField(rules, f)).value;
             once.Some? ==>
               (SanitizeValue(rules, once.value, IsDirtyField(rules, f)).value == once <==> Settles(rules, f.value, IsDirtyField(rules, f)))
    ensures var kept := SanitizeField(rules, f).value;
            && (kept.Some? ==>
                 && !rules.unsafeKey(f.key)
                 && (FieldFixed(rules, Field(f.key, kept.value)) <==> Settles(rules, f.value, IsDirtyField(rules, f))))
            && (kept.None? ==> rules.unsafeKey(f.key) || Settles(rules, f.value, IsDirtyField(rules, f)))
  {
    ArraysStayArrays(rules, f.value, IsDirtyField(rules, f));
  }

  lemma {:induction false} KeysKept(rules: Rules, fields: seq<Field>)
    requires DistinctKeys(fields)
    ensures DistinctKeys(SanitizeFields(rules, fields).0)
    ensures forall g :: g in SanitizeFields(rules, fields).0 ==> exists f :: f in fields && f.key == g.key
    decreases |fields|
  {
    if fields != [] {
      var n := |fields| - 1;
      KeysKept(rules, fields[..n]);
      hide SanitizeField;
      assert forall f :: f in fields[..n] ==> f.key != fields[n].key;
      assert fields == fields[..n] + [fields[n]];
    }
  }

  /** Setting the count leaves what is clean clean, and its keys distinct. */
  lemma SetCountKeeps(rules: Rules, out: seq<Field>, count: nat)
    requires PlainCountKey(rules) && AllClean(rules, out) && DistinctKeys(out)
    ensures var r := SetField(out, COUNT_KEY, Leaf(Number(count)));
            && AllClean(rules, r) && DistinctKeys(r)
            && (Fixed(rules, r, false) <==> Fixed(rules, out, true))
            && (forall n :: Field(COUNT_KEY, Leaf(Number(n))) in r <==> n == count)
  {
    var entry := Field(COUNT_KEY, Leaf(Number(count)));
    var r := SetField(out, COUNT_KEY, entry.value);
    SetFieldAt(out, COUNT_KEY, entry.value);
    assert CleanField(rules, entry);
    CountIsFixed(rules, entry, count);
    assert FieldFixed(rules, entry) && entry in r;
    hide SetField, CleanField, SanitizeField, FieldFixed;
    CountSet(out, r, entry);
    assert AllClean(rules, r);
    FixedButCount(rules, out, r, entry);
  }

  lemma CountSet(out: seq<Field>, r: seq<Field>, entry: Field)
    requires IsSet(out, r, entry) && DistinctKeys(out)
    ensures DistinctKeys(r)
    ensures forall f :: f in r && f.key == entry.key ==> f == entry
  {
  }

  lemma FixedButCount(rules: Rules, out: seq<Field>, r: seq<Field>, entry: Field)
    requires IsSet(out, r, entry) && entry.key == COUNT_KEY && FieldFixed(rules, entry)
    ensures Fixed(rules, r, false) <==> Fixed(rules, out, true)
  {
    hide FieldFixed;
    if Fixed(rules, out, true) {
      forall i | 0 <= i < |r|
        ensures FieldFixed(rules, r[i])
      {
        if i < |out| && out[i].key != COUNT_KEY {
          assert r[i] == out[i];
        }
      }
    }
    if Fixed(rules, r, false) {
      forall i | 0 <= i < |out| && out[i].key != COUNT_KEY
        ensures FieldFixed(rules, out[i])
      {
        assert r[i] == out[i];
      }
    }
  }

  /** For every record: a second pass changes nothing if and only if the record settles. */
  lemma {:induction false} RecordTwice(rules: Rules, fields: seq<Field>)
    requires PlainCountKey(rules) && DistinctKeys(fields) && forall i :: 0 <= i < |fields| ==> WellFormed(fields[i].value)
    ensures var once := SanitizeRecord(rules, fields);
            SanitizeRecord(rules, once) == once <==> RecordSettles(rules, fields)
    decreases fields, 1
  {
    var out, count := SanitizeFields(rules, fields).0, SanitizeFields(rules, fields).1;
    ChargeOfFields(rules, fields);
    FieldsAreAllClean(rules, fields);
    KeysKept(rules, fields);
    FieldsTwice(rules, fields, count > 0);
    RecordAgain(rules, fields, out, count);
  }

  lemma FieldsAreAllClean(rules: Rules, fields: seq<Field>)
    requires SoundRules(rules)
    ensures AllClean(rules, SanitizeFields(rules, fields).0)
  {
    FieldsAreClean(rules, fields);
    var out := SanitizeFields(rules, fields).0;
    assert forall i :: 0 <= i < |out| ==> out[i] in out;
  }

  lemma RecordAgain(rules: Rules, fields: seq<Field>, out: seq<Field>, count: nat)
    requires PlainCountKey(rules) && SanitizeFields(rules, fields) == (out, count) && count == Redactions(rules, fields)
    requires AllClean(rules, out) && DistinctKeys(out)
    requires Fixed(rules, out, count > 0) <==> EntriesSettle(rules, fields, count > 0)
    ensures var once := SanitizeRecord(rules, fields);
            SanitizeRecord(rules, once) == once <==> RecordSettles(rules, fields)
  {
    var once := SanitizeRecord(rules, fields);
    if count > 0 {
      SetCountKeeps(rules, out, count);
      SetCountMakesNothing(rules, out, count);
    }
    if Fixed(rules, out, count > 0) {
      FieldsMadeAgain(rules, fields, count > 0);
    }
    CleanFieldsDropNothing(rules, once);
    AgainExactly(rules, once);
  }

  // ---- Consequences ----

  function DirtyRecord(key: string, path: string): seq<Field> {
    [Field(key, Arr([Str(path)]))]
  }

  /** One path under a dirty-entries key: a second pass changes it exactly when it stays absolute. */
  lemma DirtyPathIdempotentExactly(rules: Rules, key: string, path: string)
    requires PlainCountKey(rules) && rules.dirtyKey(key) && !rules.unsafeKey(key)
    ensures var once := SanitizeRecord(rules, DirtyRecord(key, path));
            SanitizeRecord(rules, once) == once <==> !StaysAbsolute(path)
  {
    var fields := DirtyRecord(key, path);
    RecordTwice(rules, fields);
    assert fields[..0] == [] && Matters(rules, fields[0], Redactions(rules, fields) > 0);
    assert Settles(rules, fields[0].value, true) <==> !StaysAbsolute(path) by {
      assert fields[0].value.items[0] == Str(path);
    }
    assert DroppedByAll(rules, fields) == 0;
    hide StaysAbsolute, Settles;
  }

  /** Where the entries settle, a second pass counts the placeholders alone. */
  lemma SecondCount(rules: Rules, fields: seq<Field>)
    requires PlainCountKey(rules) && DistinctKeys(fields) && forall i :: 0 <= i < |fields| ==> WellFormed(fields[i].value)
    requires EntriesSettle(rules, fields, Redactions(rules, fields) > 0)
    ensures Redactions(rules, SanitizeRecord(rules, fields)) == MadeByAll(rules, fields)
  {
    hide EntriesSettle, Fixed, AllClean, DistinctKeys, SanitizeFields, MadeByAll, DroppedByAll;
    var out, count := SanitizeFields(rules, fields).0, SanitizeFields(rules, fields).1;
    ChargeOfFields(rules, fields);
    FieldsAreAllClean(rules, fields);
    KeysKept(rules, fields);
    FieldsTwice(rules, fields, count > 0);
    FieldsMadeAgain(rules, fields, count > 0);
    if count > 0 {
      SetCountKeeps(rules, out, count);
      SetCountMakesNothing(rules, out, count);
    }
    CleanFieldsDropNothing(rules, SanitizeRecord(rules, fields));
  }

  lemma ChargesOfTwo(rules: Rules, a: Field, b: Field)
    ensures DroppedByAll(rules, [a, b]) == DroppedBy(rules, a) + DroppedBy(rules, b)
    ensures MadeByAll(rules, [a, b]) == MadeBy(rules, a) + MadeBy(rules, b)
  {
    hide DroppedBy, MadeBy;
    assert [a, b][..1] == [a] && [a][..0] == [];
    assert DroppedByAll(rules, [a]) == DroppedBy(rules, a) && MadeByAll(rules, [a]) == MadeBy(rules, a);
  }

  /** No path is needed: a dropped key beside a placeholder is counted once, the placeholder in every pass. */
  lemma TwoKindsOfRedaction(rules: Rules, secret: string, dirty: string)
    requires PlainCountKey(rules) && rules.unsafeKey(secret) && rules.dirtyKey(dirty) && !rules.unsafeKey(dirty)
    ensures var once := SanitizeRecord(rules, [Field(secret, Leaf(Null)), Field(dirty, Arr([Leaf(Null)]))]);
            && Reported(once) == Some(2)
            && Reported(SanitizeRecord(rules, once)) == Some(1)
  {
    var a, b := Field(secret, Leaf(Null)), Field(dirty, Arr([Leaf(Null)]));
    var fields := [a, b];
    NullIsMade();
    assert DroppedBy(rules, a) == 1 && DroppedBy(rules, b) == 0 && MadeBy(rules, a) == 0 && MadeBy(rules, b) == 1;
    ChargesOfTwo(rules, a, b);
    assert Settles(rules, b.value, true);
    assert EntriesSettle(rules, fields, true);
    hide EntriesSettle, MadeBy, DroppedBy, MadeByAll, DroppedByAll, SanitizeRecord, Reported;
    CountFieldExactly(rules, fields);
    SecondCount(rules, fields);
    CountFieldExactly(rules, SanitizeRecord(rules, fields));
  }

  lemma NullIsMade()
    ensures Made(Arr([Leaf(Null)])) == 1
  {
    assert [Leaf(Null)][..0] == [];
  }
}
