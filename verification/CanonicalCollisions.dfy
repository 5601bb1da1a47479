/** How keys that are copied without escaping make two values print alike. */
module CanonicalCollisions {
  import opened Sequences
  import opened JsonText
  import opened Canonicalize

  /* ---------- Two pairs become one ---------- */

  /** The key that swallows the pair `(key, value)` printed as `text` and the opening of the next. */
  function Swallowing(key: string, text: string, next: string): string {
    key + "\":" + text + ",\"" + next
  }

  lemma TwoKeys(a: Field, b: Field)
    ensures KeysOf([a]) == [a.key] && KeysOf([a, b]) == [a.key, b.key]
  {
    assert [a, b][1..] == [b] && [b][1..] == [] && [a][1..] == [];
  }

  lemma SortedPair(a: string, b: string)
    requires LessEq(a, b)
    ensures Sort([a]) == [a] && Sort([a, b]) == [a, b]
  {
    var none: seq<string> := [];
    assert Insert(a, none, Precedes) == [a] && Insert(b, none, Precedes) == [b];
    assert [a][1..] == none && [b][1..] == none && [a, b][1..] == [b];
    assert StableSort([b], Precedes) == Insert(b, StableSort(none, Precedes), Precedes);
    assert StableSort([a], Precedes) == Insert(a, StableSort(none, Precedes), Precedes);
    assert StableSort([a, b], Precedes) == Insert(a, [b], Precedes);
  }

  lemma PairText(a: Field, b: Field)
    requires a.key != b.key && LessEq(a.key, b.key)
    ensures Canonical(Obj([a, b]))
         == "{" + ("\"" + a.key + "\":" + Canonical(a.value) + "," + ("\"" + b.key + "\":" + Canonical(b.value))) + "}"
  {
    var fields := [a, b];
    TwoKeys(a, b);
    SortedPair(a.key, b.key);
    assert IndexOf(fields, a.key) == 0 && IndexOf(fields, b.key) == 1;
    assert [a.key, b.key][1..] == [b.key];
    assert CanonicalPairs(fields, [b.key]) == CanonicalPair(fields, b.key);
    assert CanonicalPairs(fields, [a.key, b.key])
        == CanonicalPair(fields, a.key) + "," + CanonicalPairs(fields, [b.key]);
    assert Canonical(Obj(fields)) == "{" + CanonicalPairs(fields, Sort(KeysOf(fields))) + "}";
  }

  lemma SingleText(a: Field)
    ensures Canonical(Obj([a])) == "{" + ("\"" + a.key + "\":" + Canonical(a.value)) + "}"
  {
    var fields := [a];
    TwoKeys(a, a);
    LessEqTotal(a.key, a.key);
    SortedPair(a.key, a.key);
    assert IndexOf(fields, a.key) == 0;
    assert CanonicalPairs(fields, [a.key]) == CanonicalPair(fields, a.key);
    assert Canonical(Obj(fields)) == "{" + CanonicalPairs(fields, Sort(KeysOf(fields))) + "}";
  }

  lemma Regrouped(k1: string, t1: string, k2: string, t2: string)
    ensures "\"" + k1 + "\":" + t1 + "," + ("\"" + k2 + "\":" + t2) == "\"" + Swallowing(k1, t1, k2) + "\":" + t2
  {
  }

  /** Every object of two pairs, whatever its keys and values, prints like an object of one pair
      that means something else. */
  lemma PairSwallowed(k1: string, v1: Json, k2: string, v2: Json)
    requires k1 != k2 && LessEq(k1, k2) && WellFormed(v1) && WellFormed(v2)
    ensures var two := Obj([Field(k1, v1), Field(k2, v2)]);
      var one := Obj([Field(Swallowing(k1, Canonical(v1), k2), v2)]);
      && WellFormed(two) && WellFormed(one)
      && Canonical(two) == Canonical(one) && MeaningOf(two) != MeaningOf(one)
  {
    var a, b, c := Field(k1, v1), Field(k2, v2), Field(Swallowing(k1, Canonical(v1), k2), v2);
    PairText(a, b);
    SingleText(c);
    Regrouped(k1, Canonical(v1), k2, Canonical(v2));
    assert |c.key| > |k1|;
    TwoKeys(c, c);
    assert k1 in MeaningOf(Obj([a, b])).fields && k1 !in MeaningOf(Obj([c])).fields;
  }

  /** The smallest such pair. */
  lemma RawKeysCollide()
    ensures var one := Obj([Field("a\":1,\"b", Int(2))]); var two := Obj([Field("a", Int(1)), Field("b", Int(2))]);
      WellFormed(one) && WellFormed(two) && MeaningOf(one) != MeaningOf(two) && Canonical(one) == Canonical(two)
  {
    assert LessEq("a", "b") && "a"[0] != "b"[0];
    assert Canonical(Int(1)) == "1";
    assert Swallowing("a", "1", "b") == "a\":1,\"b";
    PairSwallowed("a", Int(1), "b", Int(2));
  }

  /* ---------- Every object of two pairs or more collides ---------- */

  lemma {:induction false} SortDeepWellFormed(v: Json)
    requires WellFormed(v)
    ensures WellFormed(SortDeep(v))
    decreases v, 0
  {
    match v
    case Arr(items) =>
      forall i | 0 <= i < |items| ensures WellFormed(SortItems(items)[i]) {
        SortItemsAt(items, i);
        SortDeepWellFormed(items[i]);
      }
    case Obj(fields) =>
      var keys := Sort(KeysOf(fields));
      SortKeeps(KeysOf(fields));
      forall i | 0 <= i < |keys| ensures WellFormed(SortFields(fields, keys)[i].value) {
        SortFieldsAt(fields, keys, i);
        SortDeepWellFormed(fields[IndexOf(fields, keys[i])].value);
      }
    case _ =>
  }

  /** The fields are in key order and their values already sorted. */
  ghost predicate Arranged(fields: seq<Field>) {
    && Distinct(KeysOf(fields)) && Sorted(KeysOf(fields))
    && forall i {:trigger fields[i]} :: 0 <= i < |fields| ==>
        WellFormed(fields[i].value) && SortDeep(fields[i].value) == fields[i].value
  }

  lemma SortDeepFixed(v: Json)
    requires WellFormed(v)
    ensures WellFormed(SortDeep(v)) && SortDeep(SortDeep(v)) == SortDeep(v)
  {
    SortDeepWellFormed(v);
    SortDeepMeans(v);
    SameMeaningSortsSame(SortDeep(v), v);
  }

  lemma SortArranges(fields: seq<Field>)
    requires WellFormed(Obj(fields))
    ensures Arranged(SortDeep(Obj(fields)).fields) && |SortDeep(Obj(fields)).fields| == |fields|
  {
    var keys := Sort(KeysOf(fields));
    SortKeeps(KeysOf(fields));
    SortSorts(KeysOf(fields));
    assert |multiset(keys)| == |multiset(KeysOf(fields))|;
    var r := SortFields(fields, keys);
    forall i | 0 <= i < |r| ensures WellFormed(r[i].value) && SortDeep(r[i].value) == r[i].value {
      SortFieldsAt(fields, keys, i);
      SortDeepFixed(fields[IndexOf(fields, keys[i])].value);
    }
  }

  lemma SortedSorts(keys: seq<string>)
    requires Sorted(keys)
    ensures Sort(keys) == keys
  {
    SortSorts(keys);
    SortedUnique(Sort(keys), keys);
  }

  /** An arranged object prints field by field. */
  lemma ArrangedText(fields: seq<Field>)
    requires Arranged(fields)
    ensures Canonical(Obj(fields)) == "{" + FieldsText(fields, JS) + "}"
  {
    var keys := KeysOf(fields);
    SortedSorts(keys);
    var r := SortFields(fields, keys);
    forall i | 0 <= i < |fields| ensures r[i] == fields[i] {
      SortFieldsAt(fields, keys, i);
      IndexOfDistinct(fields, i);
    }
    assert r == fields;
    assert SortDeep(Obj(fields)) == Obj(fields);
    CanonicalIsText(Obj(fields));
  }

  function Merged(a: Field, b: Field): Field {
    Field(Swallowing(a.key, Text(a.value, JS), b.key), b.value)
  }

  lemma MergedText(a: Field, b: Field)
    ensures FieldsText([a, b], JS) == FieldsText([Merged(a, b)], JS)
  {
    assert [a, b][1..] == [b];
    Regrouped(a.key, Text(a.value, JS), b.key, Text(b.value, JS));
    assert Gap(JS) == "";
    assert FieldText(a, JS) == "\"" + a.key + "\":" + Text(a.value, JS);
    assert FieldText(b, JS) == "\"" + b.key + "\":" + Text(b.value, JS);
    assert FieldText(a, JS) + "," + "" == FieldText(a, JS) + ",";
  }

  lemma {:induction false} MergedLast(front: seq<Field>, a: Field, b: Field)
    ensures FieldsText(front + [a, b], JS) == FieldsText(front + [Merged(a, b)], JS)
  {
    if front == [] {
      assert front + [a, b] == [a, b] && front + [Merged(a, b)] == [Merged(a, b)];
      MergedText(a, b);
    } else {
      MergedLast(front[1..], a, b);
      assert (front + [a, b])[1..] == front[1..] + [a, b];
      assert (front + [Merged(a, b)])[1..] == front[1..] + [Merged(a, b)];
    }
  }

  lemma {:induction false} PrefixLessEq(a: string, more: string)
    ensures LessEq(a, a + more)
  {
    if a != "" {
      assert (a + more)[1..] == a[1..] + more;
      PrefixLessEq(a[1..], more);
    }
  }

  /** A key after the last-but-one keeps the fields arranged. */
  lemma MergedArranged(front: seq<Field>, a: Field, b: Field)
    requires Arranged(front + [a, b])
    ensures Arranged(front + [Merged(a, b)])
  {
    var before, after, m := front + [a, b], front + [Merged(a, b)], |front|;
    var more := "\":" + Text(a.value, JS) + ",\"" + b.key;
    assert Merged(a, b).key == a.key + more;
    PrefixLessEq(a.key, more);
    forall i | 0 <= i < m ensures LessEq(KeysOf(after)[i], a.key + more) && KeysOf(after)[i] != a.key + more {
      assert KeysOf(before)[i] == front[i].key && KeysOf(before)[m] == a.key;
      LessEqTransitive(front[i].key, a.key, a.key + more);
      LessEqTotal(a.key, front[i].key);
    }
    forall i, j | 0 <= i < j < |after|
      ensures LessEq(KeysOf(after)[i], KeysOf(after)[j]) && KeysOf(after)[i] != KeysOf(after)[j]
    {
      if j < m {
        assert KeysOf(before)[i] == front[i].key && KeysOf(before)[j] == front[j].key;
      }
    }
    assert after[m].value == before[m + 1].value;
    forall i | 0 <= i < |after| ensures WellFormed(after[i].value) && SortDeep(after[i].value) == after[i].value {
      if i < m { assert after[i] == before[i]; }
    }
  }

  /** The key of the first swallowed field is lost. */
  lemma MergedLoses(front: seq<Field>, a: Field, b: Field)
    requires Arranged(front + [a, b])
    ensures a.key !in MeaningOf(Obj(front + [Merged(a, b)])).fields
  {
    var before, after := front + [a, b], front + [Merged(a, b)];
    assert KeysOf(before)[|front|] == a.key;
    assert |Merged(a, b).key| > |a.key|;
    forall i | 0 <= i < |after| ensures KeysOf(after)[i] != a.key {
      if i < |front| { assert KeysOf(before)[i] == front[i].key; }
    }
  }

  lemma MergedSameText(front: seq<Field>, a: Field, b: Field)
    requires Arranged(front + [a, b])
    ensures WellFormed(Obj(front + [Merged(a, b)]))
    ensures Canonical(Obj(front + [Merged(a, b)])) == Text(Obj(front + [a, b]), JS)
  {
    MergedArranged(front, a, b);
    ArrangedText(front + [Merged(a, b)]);
    MergedLast(front, a, b);
  }

  /** Every object with two or more pairs, whatever its keys, has the text of another value that
      means something else: no condition on the keys of one value alone is enough. */
  lemma EveryObjectCollides(fields: seq<Field>) returns (other: Json)
    requires WellFormed(Obj(fields)) && |fields| >= 2
    ensures WellFormed(other)
    ensures Canonical(other) == Canonical(Obj(fields)) && MeaningOf(other) != MeaningOf(Obj(fields))
  {
    SortArranges(fields);
    var r := SortDeep(Obj(fields)).fields;
    var front, a, b := r[..|r| - 2], r[|r| - 2], r[|r| - 1];
    assert r == front + [a, b];
    other := Obj(front + [Merged(a, b)]);
    MergedSameText(front, a, b);
    CanonicalIsText(Obj(fields));
    SortDeepMeans(Obj(fields));
    MergedLoses(front, a, b);
  }
}
