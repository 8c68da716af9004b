/** The canonical form of audit records: object keys sorted, volatile entries dropped, at every depth. */
module Canonical {
  import opened Text
  import opened Sorting

  datatype Json =
    | Null
    | Bool(flag: bool)
    | Number(literal: string)
    | Text(text: string)
    | Array(items: seq<Json>)
    | Object(entries: seq<Entry>)

  /** An object keeps its entries in some order; no key comes twice. */
  datatype Entry = Entry(key: string, value: Json)

  const VOLATILE_KEYS := ["event_id", "window_id", "intent_id", "latency_us", "backend_error"]

  predicate IsVolatile(key: string) {
    key in VOLATILE_KEYS
  }

  function Keys(entries: seq<Entry>): (r: seq<string>)
    ensures |r| == |entries|
    ensures forall i :: 0 <= i < |entries| ==> r[i] == entries[i].key
  {
    seq(|entries|, i requires 0 <= i < |entries| => entries[i].key)
  }

  predicate HasKey(entries: seq<Entry>, key: string) {
    key in Keys(entries)
  }

  function Lookup(entries: seq<Entry>, key: string): Json
    requires HasKey(entries, key)
  {
    if entries[0].key == key then entries[0].value
    else
      FoundInRest(entries, key);
      Lookup(entries[1..], key)
  }

  lemma FoundInRest(entries: seq<Entry>, key: string)
    requires HasKey(entries, key) && entries[0].key != key
    ensures HasKey(entries[1..], key)
  {
    var i :| 0 <= i < |entries| && Keys(entries)[i] == key;
    assert Keys(entries[1..])[i - 1] == key;
  }

  lemma {:induction false} LookupIndex(entries: seq<Entry>, key: string) returns (i: nat)
    requires HasKey(entries, key)
    ensures i < |entries| && entries[i] == Entry(key, Lookup(entries, key))
  {
    if entries[0].key == key {
      i := 0;
    } else {
      FoundInRest(entries, key);
      i := LookupIndex(entries[1..], key);
      i := i + 1;
    }
  }

  ghost predicate WellFormed(v: Json) {
    match v
    case Array(items) => forall i :: 0 <= i < |items| ==> WellFormed(items[i])
    case Object(entries) =>
      Distinct(Keys(entries)) && forall i :: 0 <= i < |entries| ==> WellFormed(entries[i].value)
    case _ => true
  }

  lemma ValueIsPart(v: Json, key: string)
    requires v.Object? && HasKey(v.entries, key)
    ensures Lookup(v.entries, key) < v
    ensures WellFormed(v) ==> WellFormed(Lookup(v.entries, key))
  {
    var i := LookupIndex(v.entries, key);
  }

  /* ----- The code ----- */

  function Canonicalize(v: Json): Json
    decreases v, if v.Object? then |v.entries| + 1 else 0
  {
    match v
    case Array(items) => Array(seq(|items|, i requires 0 <= i < |items| => Canonicalize(items[i])))
    case Object(entries) => Object(CanonicalEntries(v, Sort(Le, Keys(entries))))
    case _ => v
  }

  /** The entries of object `v` under `keys`, in that order, without the volatile ones. */
  function CanonicalEntries(v: Json, keys: seq<string>): seq<Entry>
    requires v.Object?
    decreases v, |keys|
  {
    if keys == [] then []
    else
      var key := keys[|keys| - 1];
      var rest := CanonicalEntries(v, keys[..|keys| - 1]);
      if IsVolatile(key) || !HasKey(v.entries, key) then rest
      else
        ValueIsPart(v, key);
        rest + [Entry(key, Canonicalize(Lookup(v.entries, key)))]
  }

  /* ----- What canonical means ----- */

  /** Keys in strict order and none volatile, at every depth. */
  ghost predicate IsCanonical(v: Json) {
    match v
    case Array(items) => forall i :: 0 <= i < |items| ==> IsCanonical(items[i])
    case Object(entries) =>
      && Sorted(Le, Keys(entries)) && Distinct(Keys(entries))
      && forall i :: 0 <= i < |entries| ==> !IsVolatile(entries[i].key) && IsCanonical(entries[i].value)
    case _ => true
  }

  /** Equal but for the order of keys and for volatile entries, at every depth. */
  ghost predicate SameContent(v: Json, w: Json)
    decreases v
  {
    if v.Array? && w.Array? then
      |v.items| == |w.items| && forall i :: 0 <= i < |v.items| ==> SameContent(v.items[i], w.items[i])
    else if v.Object? && w.Object? then
      forall key :: !IsVolatile(key) ==> SameEntry(v, w, key)
    else v == w
  }

  ghost predicate SameEntry(v: Json, w: Json, key: string)
    requires v.Object? && w.Object?
    decreases v, 0
  {
    && (HasKey(v.entries, key) <==> HasKey(w.entries, key))
    && (HasKey(v.entries, key) && HasKey(w.entries, key) ==>
          (ValueIsPart(v, key); SameContent(Lookup(v.entries, key), Lookup(w.entries, key))))
  }

  /* ----- Proofs ----- */

  lemma LeIsTotalOrder()
    ensures TotalOrder(Le) && Antisymmetric(Le)
  {
    hide Le;
    forall a, b ensures Le(a, b) || Le(b, a) {
      LeTotal(a, b);
    }
    forall a, b, c | Le(a, b) && Le(b, c) ensures Le(a, c) {
      LeTransitive(a, b, c);
    }
    forall a, b | Le(a, b) && Le(b, a) ensures a == b {
      LeAntisymmetric(a, b);
    }
  }

  function Stable(keys: seq<string>): seq<string> {
    if keys == [] then []
    else
      Stable(keys[..|keys| - 1]) + if IsVolatile(keys[|keys| - 1]) then [] else [keys[|keys| - 1]]
  }

  lemma {:induction false} StableKeys(keys: seq<string>)
    ensures forall k :: k in Stable(keys) <==> k in keys && !IsVolatile(k)
    ensures Distinct(keys) ==> Distinct(Stable(keys))
    ensures Sorted(Le, keys) ==> Sorted(Le, Stable(keys))
  {
    hide Le, IsVolatile, Distinct, Sorted;
    if keys == [] {
      NoKeys();
    } else {
      var init, last := keys[..|keys| - 1], keys[|keys| - 1];
      assert keys == init + [last];
      StableKeys(init);
      OneKeyLess(init, last);
      assert Stable(init) + [] == Stable(init);
      OneKeyMore(Stable(init), last);
    }
  }

  lemma NoKeys()
    ensures Distinct<string>([]) && Sorted(Le, [])
  {
  }

  lemma OneKeyLess(init: seq<string>, last: string)
    ensures Distinct(init + [last]) ==> Distinct(init) && last !in init
    ensures Sorted(Le, init + [last]) ==> Sorted(Le, init) && forall k :: k in init ==> Le(k, last)
  {
    hide Le;
    var keys := init + [last];
    assert forall i :: 0 <= i < |init| ==> keys[i] == init[i];
    assert keys[|init|] == last;
  }

  lemma OneKeyMore(init: seq<string>, last: string)
    ensures Distinct(init) && last !in init ==> Distinct(init + [last])
    ensures Sorted(Le, init) && (forall k :: k in init ==> Le(k, last)) ==> Sorted(Le, init + [last])
  {
    hide Le;
    var keys := init + [last];
    assert forall i :: 0 <= i < |init| ==> keys[i] == init[i] && init[i] in init;
  }

  /** The canonical entries, key by key. */
  lemma {:induction false} EntriesByKey(v: Json, keys: seq<string>)
    requires v.Object? && forall k :: k in keys ==> HasKey(v.entries, k)
    ensures Keys(CanonicalEntries(v, keys)) == Stable(keys)
    ensures forall i :: 0 <= i < |Stable(keys)| ==>
              HasKey(v.entries, Stable(keys)[i]) &&
              CanonicalEntries(v, keys)[i] == Entry(Stable(keys)[i], Canonicalize(Lookup(v.entries, Stable(keys)[i])))
  {
    hide Canonicalize, IsVolatile, Lookup, HasKey;
    if keys != [] {
      EntriesByKey(v, keys[..|keys| - 1]);
    }
  }

  /** The key list a canonical object ends up with. */
  function CanonicalKeys(v: Json): seq<string>
    requires v.Object?
  {
    Stable(Sort(Le, Keys(v.entries)))
  }

  lemma CanonicalKeysAre(v: Json)
    requires v.Object? && WellFormed(v)
    ensures Distinct(CanonicalKeys(v)) && Sorted(Le, CanonicalKeys(v))
    ensures forall k :: k in CanonicalKeys(v) <==> HasKey(v.entries, k) && !IsVolatile(k)
  {
    hide Le, IsVolatile, Stable, Sort;
    LeIsTotalOrder();
    SortElements(Le, Keys(v.entries));
    SortSorted(Le, Keys(v.entries));
    StableKeys(Sort(Le, Keys(v.entries)));
  }

  lemma CanonicalObject(v: Json)
    requires v.Object? && WellFormed(v)
    ensures Canonicalize(v).Object?
    ensures Keys(Canonicalize(v).entries) == CanonicalKeys(v)
    ensures forall i :: 0 <= i < |CanonicalKeys(v)| ==>
              HasKey(v.entries, CanonicalKeys(v)[i]) &&
              Canonicalize(v).entries[i] == Entry(CanonicalKeys(v)[i], Canonicalize(Lookup(v.entries, CanonicalKeys(v)[i])))
  {
    hide Le, IsVolatile, Stable, Sort, Lookup, CanonicalEntries;
    SortElements(Le, Keys(v.entries));
    EntriesByKey(v, Sort(Le, Keys(v.entries)));
  }

  /** Canonical values have sorted keys and no volatile entry, at every depth. */
  lemma {:induction false} CanonicalizeIsCanonical(v: Json)
    requires WellFormed(v)
    ensures IsCanonical(Canonicalize(v)) && WellFormed(Canonicalize(v))
    decreases v
  {
    hide Le, IsVolatile, Stable, Sort, Lookup, CanonicalEntries;
    if v.Array? {
      forall i | 0 <= i < |v.items| ensures IsCanonical(Canonicalize(v.items[i])) && WellFormed(Canonicalize(v.items[i])) {
        CanonicalizeIsCanonical(v.items[i]);
      }
    } else if v.Object? {
      CanonicalObject(v);
      CanonicalKeysAre(v);
      forall i | 0 <= i < |CanonicalKeys(v)|
        ensures IsCanonical(Canonicalize(v).entries[i].value) && WellFormed(Canonicalize(v).entries[i].value)
      {
        ValueIsPart(v, CanonicalKeys(v)[i]);
        CanonicalizeIsCanonical(Lookup(v.entries, CanonicalKeys(v)[i]));
      }
    }
  }

  lemma SameKeysSameOrder(v: Json, w: Json)
    requires v.Object? && w.Object? && WellFormed(v) && WellFormed(w)
    ensures CanonicalKeys(v) == CanonicalKeys(w) <==>
            forall k :: !IsVolatile(k) ==> (HasKey(v.entries, k) <==> HasKey(w.entries, k))
  {
    hide Le, IsVolatile, CanonicalKeys, HasKey;
    CanonicalKeysAre(v);
    CanonicalKeysAre(w);
    LeIsTotalOrder();
    if forall k :: !IsVolatile(k) ==> (HasKey(v.entries, k) <==> HasKey(w.entries, k)) {
      SortedUnique(Le, CanonicalKeys(v), CanonicalKeys(w));
    }
  }

  /** Two values have the same canonical form exactly when they have the same content. */
  lemma {:induction false} NormalForm(v: Json, w: Json)
    requires WellFormed(v) && WellFormed(w)
    ensures Canonicalize(v) == Canonicalize(w) <==> SameContent(v, w)
    decreases v
  {
    hide Le, IsVolatile, Lookup, CanonicalEntries, HasKey, SameEntry;
    if v.Array? && w.Array? {
      var cv, cw := Canonicalize(v), Canonicalize(w);
      assert |cv.items| == |v.items| && |cw.items| == |w.items|;
      if |v.items| == |w.items| {
        forall i | 0 <= i < |v.items| ensures cv.items[i] == cw.items[i] <==> SameContent(v.items[i], w.items[i]) {
          NormalForm(v.items[i], w.items[i]);
        }
      }
    } else if v.Object? && w.Object? {
      NormalFormOfObjects(v, w);
    } else {
      SameConstructor(v);
      SameConstructor(w);
    }
  }

  lemma SameConstructor(v: Json)
    ensures Canonicalize(v).Array? == v.Array? && Canonicalize(v).Object? == v.Object?
    ensures !v.Array? && !v.Object? ==> Canonicalize(v) == v
  {
  }

  lemma NormalFormOfObjects(v: Json, w: Json)
    requires v.Object? && w.Object? && WellFormed(v) && WellFormed(w)
    ensures Canonicalize(v) == Canonicalize(w) <==> forall key :: !IsVolatile(key) ==> SameEntry(v, w, key)
    decreases v, 0
  {
    hide Le, IsVolatile, Lookup, CanonicalEntries, HasKey, CanonicalKeys, WellFormed, SameContent, Canonicalize;
    CanonicalObject(v);
    CanonicalObject(w);
    CanonicalKeysAre(v);
    CanonicalKeysAre(w);
    SameKeysSameOrder(v, w);
    var cv, cw := Canonicalize(v), Canonicalize(w);
    forall key | HasKey(v.entries, key) && HasKey(w.entries, key)
      ensures SameEntry(v, w, key) <==> Canonicalize(Lookup(v.entries, key)) == Canonicalize(Lookup(w.entries, key))
    {
      ValueIsPart(v, key);
      ValueIsPart(w, key);
      NormalForm(Lookup(v.entries, key), Lookup(w.entries, key));
    }
    if CanonicalKeys(v) == CanonicalKeys(w) {
      var keys := CanonicalKeys(v);
      assert |cv.entries| == |Keys(cv.entries)| == |keys| && |cw.entries| == |keys|;
      if forall key :: !IsVolatile(key) ==> SameEntry(v, w, key) {
        forall i | 0 <= i < |keys| ensures cv.entries[i] == cw.entries[i] {
          assert keys[i] in keys;
        }
        assert cv.entries == cw.entries;
      } else {
        var key :| !IsVolatile(key) && !SameEntry(v, w, key);
        assert key in keys;
        var i :| 0 <= i < |keys| && keys[i] == key;
        assert cv.entries[i] != cw.entries[i];
      }
    }
  }

  lemma LookupFinds(entries: seq<Entry>, i: nat)
    requires Distinct(Keys(entries)) && i < |entries|
    ensures HasKey(entries, entries[i].key) && Lookup(entries, entries[i].key) == entries[i].value
  {
    hide Lookup, HasKey, Keys, Distinct;
    KeyAt(entries, i);
    var j := LookupIndex(entries, entries[i].key);
    KeysDiffer(entries, i, j);
  }

  lemma KeysDiffer(entries: seq<Entry>, i: nat, j: nat)
    requires Distinct(Keys(entries)) && i < |entries| && j < |entries| && entries[i].key == entries[j].key
    ensures i == j
  {
    var keys := Keys(entries);
    assert keys[i] == keys[j];
  }

  lemma KeyAt(entries: seq<Entry>, i: nat)
    requires i < |entries|
    ensures HasKey(entries, entries[i].key)
  {
    assert Keys(entries)[i] == entries[i].key;
  }

  /** Canonicalizing drops no content. */
  lemma {:induction false} ContentKept(v: Json)
    requires WellFormed(v)
    ensures SameContent(v, Canonicalize(v))
    decreases v
  {
    hide Le, IsVolatile, CanonicalEntries, CanonicalKeys, Lookup, HasKey;
    if v.Array? {
      forall i | 0 <= i < |v.items| ensures SameContent(v.items[i], Canonicalize(v.items[i])) {
        ContentKept(v.items[i]);
      }
    } else if v.Object? {
      CanonicalObject(v);
      CanonicalKeysAre(v);
      forall key | !IsVolatile(key) ensures SameEntry(v, Canonicalize(v), key) {
        EntryKept(v, key);
        if HasKey(v.entries, key) {
          ValueIsPart(v, key);
          ContentKept(Lookup(v.entries, key));
        }
      }
    }
  }

  lemma EntryKept(v: Json, key: string)
    requires v.Object? && WellFormed(v) && !IsVolatile(key)
    ensures Canonicalize(v).Object?
    ensures HasKey(v.entries, key) <==> HasKey(Canonicalize(v).entries, key)
    ensures HasKey(v.entries, key) ==> Lookup(Canonicalize(v).entries, key) == Canonicalize(Lookup(v.entries, key))
  {
    hide Le, IsVolatile, CanonicalEntries, CanonicalKeys, Lookup, Canonicalize;
    CanonicalObject(v);
    CanonicalKeysAre(v);
    if HasKey(v.entries, key) {
      var i :| 0 <= i < |CanonicalKeys(v)| && CanonicalKeys(v)[i] == key;
      LookupFinds(Canonicalize(v).entries, i);
    }
  }

  /** Canonicalizing twice is canonicalizing once. */
  lemma Idempotent(v: Json)
    requires WellFormed(v)
    ensures Canonicalize(Canonicalize(v)) == Canonicalize(v)
  {
    hide Canonicalize, SameContent, WellFormed, IsCanonical;
    CanonicalizeIsCanonical(v);
    ContentKept(v);
    NormalForm(v, Canonicalize(v));
  }
}
