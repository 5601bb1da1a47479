/**
 The SDK's canonical serializer: objects are printed with their keys sorted, and the
 keys are copied into the text without escaping.
 */
module Canonicalize {
  import opened Wrappers
  import opened Sequences
  import opened JsonText
  import opened JsonRoundTrip

  /* ---------- Sorting keys ---------- */

  predicate LessEq(a: string, b: string) {
    a == "" || (b != "" && (a[0] < b[0] || (a[0] == b[0] && LessEq(a[1..], b[1..]))))
  }

  predicate Precedes(a: string, b: string) {
    !LessEq(b, a)
  }

  function Sort(keys: seq<string>): seq<string> {
    StableSort(keys, Precedes)
  }

  ghost predicate Sorted(keys: seq<string>) {
    forall i, j :: 0 <= i < j < |keys| ==> LessEq(keys[i], keys[j])
  }

  lemma {:induction false} LessEqTotal(a: string, b: string)
    ensures LessEq(a, b) || LessEq(b, a)
    ensures LessEq(a, b) && LessEq(b, a) ==> a == b
  {
    if a != "" && b != "" && a[0] == b[0] {
      LessEqTotal(a[1..], b[1..]);
      assert a == [a[0]] + a[1..] && b == [b[0]] + b[1..];
    }
  }

  lemma {:induction false} LessEqTransitive(a: string, b: string, c: string)
    requires LessEq(a, b) && LessEq(b, c)
    ensures LessEq(a, c)
  {
    if a != "" && a[0] == b[0] == c[0] {
      LessEqTransitive(a[1..], b[1..], c[1..]);
    }
  }

  lemma {:induction false} InsertSorts(key: string, sorted: seq<string>)
    requires Sorted(sorted)
    ensures Sorted(Insert(key, sorted, Precedes))
  {
    if sorted == [] {
    } else if LessEq(key, sorted[0]) {
      forall j | 0 <= j < |sorted| ensures LessEq(key, sorted[j]) {
        LessEqTotal(sorted[0], sorted[0]);
        LessEqTransitive(key, sorted[0], sorted[j]);
      }
    } else {
      var rest := Insert(key, sorted[1..], Precedes);
      InsertSorts(key, sorted[1..]);
      InsertKeeps(key, sorted[1..], Precedes);
      LessEqTotal(key, sorted[0]);
      assert sorted == [sorted[0]] + sorted[1..];
      forall j | 0 <= j < |rest| ensures LessEq(sorted[0], rest[j]) {
        assert rest[j] in multiset(rest);
        assert rest[j] == key || rest[j] in sorted[1..];
      }
    }
  }

  lemma {:induction false} SortSorts(keys: seq<string>)
    ensures Sorted(Sort(keys)) && multiset(Sort(keys)) == multiset(keys)
  {
    SortKeepsElements(keys, Precedes);
    if keys != [] {
      SortSorts(keys[1..]);
      InsertSorts(keys[0], Sort(keys[1..]));
    }
  }

  lemma {:induction false} SortedUnique(a: seq<string>, b: seq<string>)
    requires Sorted(a) && Sorted(b) && multiset(a) == multiset(b)
    ensures a == b
  {
    assert |a| == |multiset(a)| == |b|;
    if a != [] {
      assert a[0] in multiset(b) && b[0] in multiset(a);
      LessEqTotal(a[0], b[0]);
      LessEqTotal(a[0], a[0]);
      assert a == [a[0]] + a[1..] && b == [b[0]] + b[1..];
      assert multiset(a[1..]) == multiset(a) - multiset{a[0]};
      assert multiset(b[1..]) == multiset(b) - multiset{b[0]};
      SortedUnique(a[1..], b[1..]);
    }
  }

  ghost predicate Distinct(keys: seq<string>) {
    forall i, j :: 0 <= i < j < |keys| ==> keys[i] != keys[j]
  }

  lemma {:induction false} DistinctCounts(keys: seq<string>, key: string)
    requires Distinct(keys)
    ensures multiset(keys)[key] == if key in keys then 1 else 0
  {
    if keys != [] {
      assert keys == [keys[0]] + keys[1..];
      DistinctCounts(keys[1..], key);
      assert keys[0] !in keys[1..];
    }
  }

  lemma CountsDistinct(keys: seq<string>)
    requires forall key :: multiset(keys)[key] <= 1
    ensures Distinct(keys)
  {
    forall i, j | 0 <= i < j < |keys| ensures keys[i] != keys[j] {
      assert keys == keys[..j] + keys[j..];
      assert keys[..j][i] in multiset(keys[..j]) && keys[j..][0] in multiset(keys[j..]);
      assert multiset(keys)[keys[i]] == multiset(keys[..j])[keys[i]] + multiset(keys[j..])[keys[i]];
    }
  }

  lemma SameKeysSortSame(a: seq<string>, b: seq<string>)
    requires Distinct(a) && Distinct(b) && forall key :: key in a <==> key in b
    ensures Sort(a) == Sort(b)
  {
    forall key ensures multiset(a)[key] == multiset(b)[key] {
      DistinctCounts(a, key);
      DistinctCounts(b, key);
    }
    assert multiset(a) == multiset(b);
    SortSorts(a);
    SortSorts(b);
    SortedUnique(Sort(a), Sort(b));
  }

  lemma SortKeeps(keys: seq<string>)
    ensures forall key :: key in Sort(keys) <==> key in keys
    ensures Distinct(keys) ==> Distinct(Sort(keys))
  {
    SortSorts(keys);
    forall key ensures key in Sort(keys) <==> key in keys {
      assert key in multiset(Sort(keys)) <==> key in multiset(keys);
    }
    if Distinct(keys) {
      forall key ensures multiset(Sort(keys))[key] <= 1 {
        DistinctCounts(keys, key);
      }
      CountsDistinct(Sort(keys));
    }
  }

  /* ---------- The serializer ---------- */

  function KeysOf(fields: seq<Field>): (keys: seq<string>)
    ensures |keys| == |fields| && forall i :: 0 <= i < |fields| ==> keys[i] == fields[i].key
  {
    if fields == [] then [] else [fields[0].key] + KeysOf(fields[1..])
  }

  /** `obj[key]`. */
  function IndexOf(fields: seq<Field>, key: string): (i: nat)
    requires key in KeysOf(fields)
    ensures i < |fields| && fields[i].key == key
  {
    assert KeysOf(fields)[1..] == KeysOf(fields[1..]);
    if fields[0].key == key then 0 else 1 + IndexOf(fields[1..], key)
  }

  /** How `JSON.stringify` prints scalars, and how keys are copied raw. */
  const JS := Style(true, false, false)

  function Canonical(v: Json): string
    decreases v, 0
  {
    match v
    case Null => "null"
    case Arr(items) => "[" + CanonicalItems(items) + "]"
    case Obj(fields) =>
      SortKeeps(KeysOf(fields));
      "{" + CanonicalPairs(fields, Sort(KeysOf(fields))) + "}"
    case _ => Text(v, JS)
  }

  function CanonicalItems(items: seq<Json>): string
    decreases items, 0
  {
    if items == [] then ""
    else if |items| == 1 then Canonical(items[0])
    else Canonical(items[0]) + "," + CanonicalItems(items[1..])
  }

  function CanonicalPair(fields: seq<Field>, key: string): string
    requires key in KeysOf(fields)
    decreases fields, 0
  {
    "\"" + key + "\":" + Canonical(fields[IndexOf(fields, key)].value)
  }

  function CanonicalPairs(fields: seq<Field>, keys: seq<string>): string
    requires forall key :: key in keys ==> key in KeysOf(fields)
    decreases fields, 1 + |keys|
  {
    if keys == [] then ""
    else if |keys| == 1 then CanonicalPair(fields, keys[0])
    else CanonicalPair(fields, keys[0]) + "," + CanonicalPairs(fields, keys[1..])
  }

  /* ---------- What it prints ---------- */

  /** The value with the keys of every object sorted. */
  function SortDeep(v: Json): Json
    decreases v, 0
  {
    match v
    case Arr(items) => Arr(SortItems(items))
    case Obj(fields) =>
      SortKeeps(KeysOf(fields));
      Obj(SortFields(fields, Sort(KeysOf(fields))))
    case _ => v
  }

  function SortItems(items: seq<Json>): (r: seq<Json>)
    ensures |r| == |items|
    decreases items, 0
  {
    if items == [] then [] else [SortDeep(items[0])] + SortItems(items[1..])
  }

  function SortFields(fields: seq<Field>, keys: seq<string>): (r: seq<Field>)
    requires forall key :: key in keys ==> key in KeysOf(fields)
    ensures |r| == |keys| && forall i :: 0 <= i < |keys| ==> r[i].key == keys[i]
    decreases fields, 1 + |keys|
  {
    if keys == [] then []
    else [Field(keys[0], SortDeep(fields[IndexOf(fields, keys[0])].value))] + SortFields(fields, keys[1..])
  }

  lemma {:induction false} CanonicalIsText(v: Json)
    ensures Canonical(v) == Text(SortDeep(v), JS)
    decreases v, 0
  {
    match v
    case Arr(items) => CanonicalItemsText(items);
    case Obj(fields) =>
      SortKeeps(KeysOf(fields));
      CanonicalPairsText(fields, Sort(KeysOf(fields)));
    case _ =>
  }

  lemma {:induction false} CanonicalItemsText(items: seq<Json>)
    ensures CanonicalItems(items) == ItemsText(SortItems(items), JS)
    decreases items, 0
  {
    if items != [] {
      CanonicalIsText(items[0]);
      CanonicalItemsText(items[1..]);
      assert SortItems(items)[1..] == SortItems(items[1..]);
      assert Text(SortDeep(items[0]), JS) + "," + Gap(JS) == Text(SortDeep(items[0]), JS) + ",";
    }
  }

  lemma {:induction false} CanonicalPairsText(fields: seq<Field>, keys: seq<string>)
    requires forall key :: key in keys ==> key in KeysOf(fields)
    ensures CanonicalPairs(fields, keys) == FieldsText(SortFields(fields, keys), JS)
    decreases fields, 1 + |keys|
  {
    if keys != [] {
      var value := fields[IndexOf(fields, keys[0])].value;
      CanonicalIsText(value);
      CanonicalPairsText(fields, keys[1..]);
      var f := Field(keys[0], SortDeep(value));
      assert SortFields(fields, keys)[1..] == SortFields(fields, keys[1..]);
      assert "\"" + keys[0] + "\":" + Gap(JS) == "\"" + keys[0] + "\":";
      assert FieldText(f, JS) == CanonicalPair(fields, keys[0]);
      assert FieldText(f, JS) + "," + Gap(JS) == FieldText(f, JS) + ",";
    }
  }

  /* ---------- Meaning: a value up to the order of keys ---------- */

  datatype Meaning =
    | MNull
    | MBool(b: bool)
    | MInt(n: int)
    | MStr(s: string)
    | MArr(items: seq<Meaning>)
    | MObj(fields: map<string, Meaning>)

  /** The keys of every object are distinct, as in any JavaScript object. */
  ghost predicate WellFormed(v: Json)
    decreases v
  {
    match v
    case Arr(items) => forall i :: 0 <= i < |items| ==> WellFormed(items[i])
    case Obj(fields) => Distinct(KeysOf(fields)) && forall i :: 0 <= i < |fields| ==> WellFormed(fields[i].value)
    case _ => true
  }

  function MeaningOf(v: Json): Meaning
    decreases v, 0
  {
    match v
    case Null => MNull
    case Bool(b) => MBool(b)
    case Int(n) => MInt(n)
    case Str(s) => MStr(s)
    case Arr(items) => MArr(MeaningsOf(items))
    case Obj(fields) => MObj(map key | key in KeysOf(fields) :: MeaningOf(fields[IndexOf(fields, key)].value))
  }

  function MeaningsOf(items: seq<Json>): (r: seq<Meaning>)
    ensures |r| == |items| && forall i :: 0 <= i < |items| ==> r[i] == MeaningOf(items[i])
    decreases items, 0
  {
    if items == [] then [] else [MeaningOf(items[0])] + MeaningsOf(items[1..])
  }

  /* ---------- Order of keys does not matter ---------- */

  lemma {:induction false} SameMeaningSortsSame(v: Json, w: Json)
    requires WellFormed(v) && WellFormed(w) && MeaningOf(v) == MeaningOf(w)
    ensures SortDeep(v) == SortDeep(w)
    decreases v, 0
  {
    match v
    case Arr(items) =>
      SameMeaningItems(items, w.items);
    case Obj(fields) =>
      var a, b := KeysOf(fields), KeysOf(w.fields);
      SameMeaningKeys(v, w);
      SameKeysSortSame(a, b);
      SortKeeps(a);
      SortKeeps(b);
      SameMeaningFields(fields, w.fields, Sort(a));
    case _ =>
  }

  lemma SameMeaningKeys(v: Json, w: Json)
    requires v.Obj? && w.Obj? && MeaningOf(v) == MeaningOf(w)
    ensures forall key :: key in KeysOf(v.fields) <==> key in KeysOf(w.fields)
    ensures forall key :: key in KeysOf(v.fields) ==>
      MeaningOf(v.fields[IndexOf(v.fields, key)].value) == MeaningOf(w.fields[IndexOf(w.fields, key)].value)
  {
    var m, n := MeaningOf(v).fields, MeaningOf(w).fields;
    assert m == n;
    forall key ensures key in KeysOf(v.fields) <==> key in KeysOf(w.fields) {
      assert key in KeysOf(v.fields) <==> key in m;
      assert key in KeysOf(w.fields) <==> key in n;
    }
    forall key | key in KeysOf(v.fields)
      ensures MeaningOf(v.fields[IndexOf(v.fields, key)].value) == MeaningOf(w.fields[IndexOf(w.fields, key)].value)
    {
      assert m[key] == n[key];
    }
  }

  lemma {:induction false} SameMeaningItems(items: seq<Json>, others: seq<Json>)
    requires MeaningsOf(items) == MeaningsOf(others)
    requires forall i :: 0 <= i < |items| ==> WellFormed(items[i])
    requires forall i :: 0 <= i < |others| ==> WellFormed(others[i])
    ensures SortItems(items) == SortItems(others)
    decreases items, 0
  {
    if items != [] {
      assert MeaningsOf(items)[0] == MeaningsOf(others)[0];
      SameMeaningSortsSame(items[0], others[0]);
      assert MeaningsOf(items)[1..] == MeaningsOf(items[1..]);
      assert MeaningsOf(others)[1..] == MeaningsOf(others[1..]);
      SameMeaningItems(items[1..], others[1..]);
    }
  }

  lemma {:induction false} SameMeaningFields(fields: seq<Field>, others: seq<Field>, keys: seq<string>)
    requires forall key :: key in keys ==> key in KeysOf(fields) && key in KeysOf(others)
    requires forall key :: key in keys ==>
      MeaningOf(fields[IndexOf(fields, key)].value) == MeaningOf(others[IndexOf(others, key)].value)
    requires forall i :: 0 <= i < |fields| ==> WellFormed(fields[i].value)
    requires forall i :: 0 <= i < |others| ==> WellFormed(others[i].value)
    ensures SortFields(fields, keys) == SortFields(others, keys)
    decreases fields, 1 + |keys|
  {
    if keys != [] {
      assert keys[0] in keys;
      SameMeaningSortsSame(fields[IndexOf(fields, keys[0])].value, others[IndexOf(others, keys[0])].value);
      SameMeaningFields(fields, others, keys[1..]);
    }
  }

  /** Values equal up to key order, at any depth, are serialized alike. */
  lemma OrderInsensitive(v: Json, w: Json)
    requires WellFormed(v) && WellFormed(w) && MeaningOf(v) == MeaningOf(w)
    ensures Canonical(v) == Canonical(w)
  {
    SameMeaningSortsSame(v, w);
    CanonicalIsText(v);
    CanonicalIsText(w);
  }

  /* ---------- Nothing else is lost ---------- */

  lemma {:induction false} IndexOfSorted(fields: seq<Field>, keys: seq<string>, key: string)
    requires forall k :: k in keys ==> k in KeysOf(fields)
    requires key in keys && key in KeysOf(SortFields(fields, keys))
    ensures SortFields(fields, keys)[IndexOf(SortFields(fields, keys), key)].value
         == SortDeep(fields[IndexOf(fields, key)].value)
    decreases |keys|
  {
    var r := SortFields(fields, keys);
    if keys[0] != key {
      assert r[1..] == SortFields(fields, keys[1..]);
      assert KeysOf(r) == [r[0].key] + KeysOf(r[1..]);
      IndexOfSorted(fields, keys[1..], key);
    }
  }

  lemma {:induction false} SortDeepMeans(v: Json)
    requires WellFormed(v)
    ensures MeaningOf(SortDeep(v)) == MeaningOf(v)
    decreases v, 0
  {
    match v
    case Arr(items) => SortItemsMean(items);
    case Obj(fields) =>
      var keys := Sort(KeysOf(fields));
      SortKeeps(KeysOf(fields));
      forall key ensures MeansAt(fields, key) {
        if key in KeysOf(fields) { SortDeepMeans(fields[IndexOf(fields, key)].value); }
      }
      SortedObjectMeans(fields, keys);
    case _ =>
  }

  ghost predicate MeansAt(fields: seq<Field>, key: string) {
    key in KeysOf(fields) ==>
      MeaningOf(SortDeep(fields[IndexOf(fields, key)].value)) == MeaningOf(fields[IndexOf(fields, key)].value)
  }

  lemma SortedMeansAt(fields: seq<Field>, keys: seq<string>, key: string)
    requires forall k :: k in keys ==> k in KeysOf(fields)
    requires KeysOf(SortFields(fields, keys)) == keys && key in keys && MeansAt(fields, key)
    ensures key in MeaningOf(Obj(fields)).fields && key in MeaningOf(Obj(SortFields(fields, keys))).fields
    ensures MeaningOf(Obj(SortFields(fields, keys))).fields[key] == MeaningOf(Obj(fields)).fields[key]
  {
    IndexOfSorted(fields, keys, key);
  }

  lemma SortedObjectMeans(fields: seq<Field>, keys: seq<string>)
    requires forall k :: k in keys <==> k in KeysOf(fields)
    requires KeysOf(SortFields(fields, keys)) == keys
    requires forall k {:trigger MeansAt(fields, k)} :: MeansAt(fields, k)
    ensures MeaningOf(Obj(SortFields(fields, keys))) == MeaningOf(Obj(fields))
  {
    var r := SortFields(fields, keys);
    var m, n := MeaningOf(Obj(r)).fields, MeaningOf(Obj(fields)).fields;
    forall key | key in m ensures m[key] == n[key] {
      assert MeansAt(fields, key);
      SortedMeansAt(fields, keys, key);
    }
  }

  lemma {:induction false} SortItemsMean(items: seq<Json>)
    requires forall i :: 0 <= i < |items| ==> WellFormed(items[i])
    ensures MeaningsOf(SortItems(items)) == MeaningsOf(items)
    decreases items, 0
  {
    if items != [] {
      SortDeepMeans(items[0]);
      SortItemsMean(items[1..]);
      assert SortItems(items)[1..] == SortItems(items[1..]);
    }
  }

  lemma {:induction false} SortDeepReadable(v: Json)
    requires KeysReadable(v, true)
    ensures KeysReadable(SortDeep(v), true)
    decreases v, 0
  {
    match v
    case Arr(items) => SortItemsReadable(items);
    case Obj(fields) =>
      SortKeeps(KeysOf(fields));
      SortFieldsReadable(fields, Sort(KeysOf(fields)));
    case _ =>
  }

  lemma {:induction false} SortItemsReadable(items: seq<Json>)
    requires forall i :: 0 <= i < |items| ==> KeysReadable(items[i], true)
    ensures forall i :: 0 <= i < |items| ==> KeysReadable(SortItems(items)[i], true)
    decreases items, 0
  {
    if items != [] {
      SortDeepReadable(items[0]);
      SortItemsReadable(items[1..]);
    }
  }

  lemma {:induction false} SortFieldsReadable(fields: seq<Field>, keys: seq<string>)
    requires forall key :: key in keys ==> key in KeysOf(fields)
    requires KeysReadable(Obj(fields), true)
    ensures KeysReadable(Obj(SortFields(fields, keys)), true)
    decreases fields, 1 + |keys|
  {
    if keys != [] {
      var i := IndexOf(fields, keys[0]);
      SortDeepReadable(fields[i].value);
      SortFieldsReadable(fields, keys[1..]);
      var r := SortFields(fields, keys);
      assert r[1..] == SortFields(fields, keys[1..]);
      forall j | 0 <= j < |r| ensures Terminated(r[j].key) && KeysReadable(r[j].value, true) {
        if j > 0 { assert r[j] == r[1..][j - 1]; }
      }
    }
  }

  /** The canonical text can be read back: the parser recovers the sorted value. */
  lemma CanonicalReadsBack(v: Json)
    requires KeysReadable(v, true)
    ensures Loads(Canonical(v), true) == Some(SortDeep(v))
  {
    SortDeepReadable(v);
    CanonicalIsText(v);
    LoadsText(SortDeep(v), JS);
  }

  /** Soundness and injectivity: two values, with no key containing a quote followed by a
      colon, have the same canonical text if and only if they are equal up to key order. */
  lemma CanonicalIffSameMeaning(v: Json, w: Json)
    requires WellFormed(v) && WellFormed(w) && KeysReadable(v, true) && KeysReadable(w, true)
    ensures Canonical(v) == Canonical(w) <==> MeaningOf(v) == MeaningOf(w)
  {
    if MeaningOf(v) == MeaningOf(w) {
      OrderInsensitive(v, w);
    }
    if Canonical(v) == Canonical(w) {
      CanonicalReadsBack(v);
      CanonicalReadsBack(w);
      SortDeepMeans(v);
      SortDeepMeans(w);
    }
  }

  /* ---------- Agreement with standard JSON text ---------- */

  const RFC := Style(false, false, false)

  /** A key that JSON copies without escaping anything. */
  ghost predicate PlainKey(key: string) {
    forall i :: 0 <= i < |key| ==> key[i] != '"' && key[i] != '\\' && key[i] as int >= 0x20
  }

  ghost predicate KeysPlain(v: Json)
    decreases v
  {
    match v
    case Arr(items) => forall i :: 0 <= i < |items| ==> KeysPlain(items[i])
    case Obj(fields) => forall i :: 0 <= i < |fields| ==> PlainKey(fields[i].key) && KeysPlain(fields[i].value)
    case _ => true
  }

  lemma {:induction false} EscapeLength(key: string)
    ensures |Escape(key, false)| >= |key|
    ensures PlainKey(key) ==> Escape(key, false) == key
    ensures !PlainKey(key) ==> |Escape(key, false)| > |key|
  {
    if key != "" {
      EscapeLength(key[1..]);
      assert key == [key[0]] + key[1..];
    }
  }

  lemma {:induction false} RawLength(v: Json)
    ensures |Text(v, RFC)| >= |Text(v, JS)|
    ensures KeysPlain(v) ==> Text(v, RFC) == Text(v, JS)
    ensures !KeysPlain(v) ==> |Text(v, RFC)| > |Text(v, JS)|
    decreases v, 0
  {
    match v
    case Arr(items) => RawItemsLength(items);
    case Obj(fields) => RawFieldsLength(fields);
    case _ =>
  }

  lemma {:induction false} RawItemsLength(items: seq<Json>)
    ensures |ItemsText(items, RFC)| >= |ItemsText(items, JS)|
    ensures KeysPlain(Arr(items)) ==> ItemsText(items, RFC) == ItemsText(items, JS)
    ensures !KeysPlain(Arr(items)) ==> |ItemsText(items, RFC)| > |ItemsText(items, JS)|
    decreases items, 1
  {
    if items != [] {
      RawLength(items[0]);
      RawItemsLength(items[1..]);
      assert KeysPlain(Arr(items)) <==> KeysPlain(items[0]) && KeysPlain(Arr(items[1..])) by {
        assert items == [items[0]] + items[1..];
      }
    }
  }

  lemma RawFieldLength(f: Field)
    requires |Text(f.value, RFC)| >= |Text(f.value, JS)|
    requires KeysPlain(f.value) ==> Text(f.value, RFC) == Text(f.value, JS)
    requires !KeysPlain(f.value) ==> |Text(f.value, RFC)| > |Text(f.value, JS)|
    ensures |FieldText(f, RFC)| >= |FieldText(f, JS)|
    ensures PlainKey(f.key) && KeysPlain(f.value) ==> FieldText(f, RFC) == FieldText(f, JS)
    ensures !(PlainKey(f.key) && KeysPlain(f.value)) ==> |FieldText(f, RFC)| > |FieldText(f, JS)|
  {
    EscapeLength(f.key);
  }

  lemma {:induction false} RawFieldsLength(fields: seq<Field>)
    ensures |FieldsText(fields, RFC)| >= |FieldsText(fields, JS)|
    ensures KeysPlain(Obj(fields)) ==> FieldsText(fields, RFC) == FieldsText(fields, JS)
    ensures !KeysPlain(Obj(fields)) ==> |FieldsText(fields, RFC)| > |FieldsText(fields, JS)|
    decreases fields, 2
  {
    if fields != [] {
      var f := fields[0];
      RawLength(f.value);
      RawFieldLength(f);
      RawFieldsLength(fields[1..]);
      assert KeysPlain(Obj(fields)) <==> PlainKey(f.key) && KeysPlain(f.value) && KeysPlain(Obj(fields[1..])) by {
        assert fields == [fields[0]] + fields[1..];
      }
    }
  }

  lemma {:induction false} SortDeepPlain(v: Json)
    requires WellFormed(v)
    ensures KeysPlain(SortDeep(v)) <==> KeysPlain(v)
    decreases v, 0
  {
    match v
    case Arr(items) =>
      forall i | 0 <= i < |items| ensures KeysPlain(SortItems(items)[i]) <==> KeysPlain(items[i]) {
        SortItemsAt(items, i);
        SortDeepPlain(items[i]);
      }
    case Obj(fields) =>
      var keys := Sort(KeysOf(fields));
      SortKeeps(KeysOf(fields));
      forall i | 0 <= i < |keys|
        ensures KeysPlain(SortFields(fields, keys)[i].value) <==> KeysPlain(fields[IndexOf(fields, keys[i])].value)
      {
        SortFieldsAt(fields, keys, i);
        SortDeepPlain(fields[IndexOf(fields, keys[i])].value);
      }
      SortedObjectPlain(fields, keys);
    case _ =>
  }

  lemma IndexOfDistinct(fields: seq<Field>, i: nat)
    requires i < |fields| && Distinct(KeysOf(fields))
    ensures fields[i].key in KeysOf(fields) && IndexOf(fields, fields[i].key) == i
  {
    assert KeysOf(fields)[i] == fields[i].key;
    assert KeysOf(fields)[IndexOf(fields, fields[i].key)] == fields[i].key;
  }

  /** The sorted object is plain exactly when the value found under every key is. */
  lemma SortedObjectPlain(fields: seq<Field>, keys: seq<string>)
    requires Distinct(KeysOf(fields)) && forall k :: k in keys <==> k in KeysOf(fields)
    requires forall i :: 0 <= i < |keys| ==>
      (KeysPlain(SortFields(fields, keys)[i].value) <==> KeysPlain(fields[IndexOf(fields, keys[i])].value))
    ensures KeysPlain(Obj(SortFields(fields, keys))) <==> KeysPlain(Obj(fields))
  {
    SortedPlainByLookup(fields, keys);
    PlainByLookup(fields);
  }

  ghost predicate PlainLookup(fields: seq<Field>, key: string)
    requires key in KeysOf(fields)
  {
    PlainKey(key) && KeysPlain(fields[IndexOf(fields, key)].value)
  }

  lemma SortedPlainByLookup(fields: seq<Field>, keys: seq<string>)
    requires forall k :: k in keys <==> k in KeysOf(fields)
    requires forall i :: 0 <= i < |keys| ==>
      (KeysPlain(SortFields(fields, keys)[i].value) <==> KeysPlain(fields[IndexOf(fields, keys[i])].value))
    ensures KeysPlain(Obj(SortFields(fields, keys)))
        <==> forall key :: key in KeysOf(fields) ==> PlainLookup(fields, key)
  {
    var r := SortFields(fields, keys);
    if KeysPlain(Obj(r)) {
      forall key | key in KeysOf(fields) ensures PlainLookup(fields, key) {
        assert key in keys;
        var i :| 0 <= i < |keys| && keys[i] == key;
        assert PlainKey(r[i].key) && KeysPlain(r[i].value);
      }
    } else {
      var i :| 0 <= i < |r| && !(PlainKey(r[i].key) && KeysPlain(r[i].value));
      assert keys[i] in keys && !PlainLookup(fields, keys[i]);
    }
  }

  lemma PlainByLookup(fields: seq<Field>)
    requires Distinct(KeysOf(fields))
    ensures KeysPlain(Obj(fields)) <==> forall key :: key in KeysOf(fields) ==> PlainLookup(fields, key)
  {
    if KeysPlain(Obj(fields)) {
      forall key | key in KeysOf(fields) ensures PlainLookup(fields, key) {
        assert PlainKey(fields[IndexOf(fields, key)].key);
      }
    } else {
      var i :| 0 <= i < |fields| && !(PlainKey(fields[i].key) && KeysPlain(fields[i].value));
      IndexOfDistinct(fields, i);
      assert !PlainLookup(fields, fields[i].key);
    }
  }

  lemma {:induction false} SortItemsAt(items: seq<Json>, i: nat)
    requires i < |items|
    ensures SortItems(items)[i] == SortDeep(items[i])
  {
    if i > 0 {
      SortItemsAt(items[1..], i - 1);
    }
  }

  lemma {:induction false} SortFieldsAt(fields: seq<Field>, keys: seq<string>, i: nat)
    requires i < |keys| && forall k :: k in keys ==> k in KeysOf(fields)
    ensures SortFields(fields, keys)[i].value == SortDeep(fields[IndexOf(fields, keys[i])].value)
  {
    if i > 0 {
      SortFieldsAt(fields, keys[1..], i - 1);
    }
  }

  /** The canonical text is the standard JSON text of the sorted value if and only if no
      key of the value, at any depth, needs escaping. */
  lemma StandardTextExact(v: Json)
    requires WellFormed(v)
    ensures Canonical(v) == Text(SortDeep(v), RFC) <==> KeysPlain(v)
  {
    CanonicalIsText(v);
    RawLength(SortDeep(v));
    SortDeepPlain(v);
  }
}
