/** In which order the canonical text prints keys, and which characters of a string it escapes. */
module CanonicalOrder {
  import opened Wrappers
  import opened Sequences
  import opened JsonText
  import opened JsonRoundTrip
  import opened Canonicalize

  /** `a` comes before `b` by code units: it ends first, or has the smaller one where they part. */
  ghost predicate Before(a: string, b: string) {
    exists k: nat :: PartsAt(a, b, k)
  }

  ghost predicate PartsAt(a: string, b: string, k: nat) {
    k <= |a| && k < |b| && a[..k] == b[..k] && (k == |a| || a[k] < b[k])
  }

  lemma SameHead(a: string, b: string)
    requires a != "" && b != "" && a[0] == b[0]
    ensures Before(a, b) <==> Before(a[1..], b[1..])
  {
    if k: nat :| PartsAt(a[1..], b[1..], k) {
      assert a[..k + 1] == [a[0]] + a[1..][..k] && b[..k + 1] == [b[0]] + b[1..][..k];
      assert PartsAt(a, b, k + 1);
    }
    if k: nat :| PartsAt(a, b, k) {
      assert k > 0;
      assert a[1..][..k - 1] == a[..k][1..] && b[1..][..k - 1] == b[..k][1..];
      assert PartsAt(a[1..], b[1..], k - 1);
    }
  }

  lemma OtherHead(a: string, b: string)
    requires a != "" && b != "" && a[0] != b[0]
    ensures Before(a, b) <==> a[0] < b[0]
  {
    forall k: nat | k > 0 ensures !PartsAt(a, b, k) {
      if k <= |a| && k <= |b| {
        assert a[..k][0] == a[0] && b[..k][0] == b[0];
      }
    }
    if a[0] < b[0] {
      assert PartsAt(a, b, 0);
    }
  }

  lemma {:induction false} LessEqExactly(a: string, b: string)
    ensures LessEq(a, b) <==> a == b || Before(a, b)
  {
    if a == "" {
      assert b != "" ==> PartsAt(a, b, 0);
    } else if b != "" && a[0] == b[0] {
      SameHead(a, b);
      LessEqExactly(a[1..], b[1..]);
      assert a == [a[0]] + a[1..] && b == [b[0]] + b[1..];
    } else if b != "" {
      OtherHead(a, b);
    }
  }

  /** The keys of every object, at any depth, come strictly in that order. */
  ghost predicate Ascends(v: Json)
    decreases v
  {
    match v
    case Arr(items) => forall i :: 0 <= i < |items| ==> Ascends(items[i])
    case Obj(fields) =>
      && (forall i, j :: 0 <= i < j < |fields| ==> Before(fields[i].key, fields[j].key))
      && forall i :: 0 <= i < |fields| ==> Ascends(fields[i].value)
    case _ => true
  }

  lemma {:induction false} SortDeepAscends(v: Json)
    requires WellFormed(v)
    ensures Ascends(SortDeep(v))
    decreases v, 0
  {
    match v
    case Arr(items) =>
      forall i | 0 <= i < |items| ensures Ascends(SortItems(items)[i]) {
        SortItemsAt(items, i);
        SortDeepAscends(items[i]);
      }
    case Obj(fields) =>
      var keys := Sort(KeysOf(fields));
      SortKeeps(KeysOf(fields));
      SortSorts(KeysOf(fields));
      var r := SortFields(fields, keys);
      forall i, j | 0 <= i < j < |r| ensures Before(r[i].key, r[j].key) {
        LessEqExactly(keys[i], keys[j]);
      }
      forall i | 0 <= i < |r| ensures Ascends(r[i].value) {
        SortFieldsAt(fields, keys, i);
        SortDeepAscends(fields[IndexOf(fields, keys[i])].value);
      }
    case _ =>
  }

  /** The canonical text reads back as a value that means the same and whose objects list their
      keys in ascending code-unit order, at any depth. */
  lemma KeysInOrder(v: Json)
    requires WellFormed(v) && KeysReadable(v, true)
    ensures var r := Loads(Canonical(v), true);
      r.Some? && Ascends(r.value) && MeaningOf(r.value) == MeaningOf(v)
  {
    CanonicalReadsBack(v);
    SortDeepAscends(v);
    SortDeepMeans(v);
  }

  /** The characters that have an escape of two characters. */
  predicate HasShort(c: char) {
    c == '"' || c == '\\' || c == '\n' || c == '\r' || c == '\t' || c as int == 8 || c as int == 12
  }

  /** `JSON.stringify` escapes strings no more than it must: a character is copied exactly when it is
      neither a quote, a backslash nor a control character; a short escape is used whenever there is
      one; every other control character is six characters of lower-case hexadecimal. `json.dumps`
      escapes the same characters and all that are not printable ASCII. */
  lemma EscapesExactly(c: char)
    ensures var e := EscapeChar(c, false);
      && (e == [c] <==> c != '"' && c != '\\' && c as int >= 0x20)
      && (|e| == 2 <==> HasShort(c))
      && (|e| == 6 <==> c as int < 0x20 && !HasShort(c))
      && (e != [c] ==> e[0] == '\\')
      && (EscapeChar(c, true) == [c] <==> e == [c] && c <= '~')
      && forall i :: 0 <= i < |e| ==> e[i] as int >= 0x20 && (e != [c] ==> !('A' <= e[i] <= 'F'))
  {
  }
}
