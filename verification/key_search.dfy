/** Positions of keys in sorted lists: what the binary searches of both page kinds must find. */
module KeySearch {
  import opened ByteStrings
  import opened PageFormat
  import opened SplitPoints

  ghost predicate SortedEntries(es: seq<Entry>) {
    forall i, j :: 0 <= i < j < |es| ==> Less(es[i].key, es[j].key)
  }

  ghost predicate AllBelow(es: seq<Entry>, n: int, key: Key) {
    forall j :: 0 <= j < n && j < |es| ==> Less(es[j].key, key)
  }

  ghost predicate AllAbove(es: seq<Entry>, n: int, key: Key) {
    forall j :: 0 <= j && n <= j < |es| ==> Less(key, es[j].key)
  }

  /** How many entries at the front have smaller keys. */
  function Rank(es: seq<Entry>, key: Key): (r: nat)
    ensures r <= |es|
  {
    if es == [] || !Less(es[0].key, key) then 0 else 1 + Rank(es[1..], key)
  }

  predicate HasKeyAt(es: seq<Entry>, i: nat, key: Key) {
    i < |es| && es[i].key == key
  }

  /** The result of `slice::binary_search`: the index of the key, or where it belongs. */
  datatype SearchResult = Ok(idx: nat) | Err(idx: nat)

  function Search(es: seq<Entry>, key: Key): (r: SearchResult)
    ensures r.idx <= |es| && (r.Ok? ==> r.idx < |es|)
  {
    var i := Rank(es, key);
    if HasKeyAt(es, i, key) then Ok(i) else Err(i)
  }

  /** A leaf's entries after a put. */
  function Upserted(es: seq<Entry>, e: Entry): seq<Entry> {
    match Search(es, e.key)
    case Ok(i) => Replaced(es, i, e)
    case Err(i) => Inserted(es, i, e)
  }

  /** How many separators at the front are at most the key: the child that covers it. */
  function ChildRank(keys: seq<Key>, key: Key): (r: nat)
    ensures r <= |keys|
  {
    if keys == [] || Less(key, keys[0]) then 0 else 1 + ChildRank(keys[1..], key)
  }

  ghost predicate KeysAtMost(keys: seq<Key>, n: nat, key: Key) {
    forall j :: 0 <= j < n && j < |keys| ==> AtMost(keys[j], key)
  }

  ghost predicate KeysAbove(keys: seq<Key>, n: nat, key: Key) {
    forall j :: n <= j < |keys| ==> Less(key, keys[j])
  }

  /* ---- Leaves ---- */

  /** In a sorted leaf the rank separates smaller keys from the rest. */
  lemma {:induction false} RankSeparates(es: seq<Entry>, key: Key)
    requires SortedEntries(es)
    ensures var i := Rank(es, key);
            && AllBelow(es, i, key)
            && (if HasKeyAt(es, i, key) then AllAbove(es, i + 1, key) else AllAbove(es, i, key))
    decreases |es|
  {
    hide Less;
    if es != [] {
      if Less(es[0].key, key) {
        RankSeparates(es[1..], key);
        assert forall j :: 0 < j < |es| ==> es[j] == es[1..][j - 1];
      } else {
        LessTotal(es[0].key, key);
        forall j | 0 < j < |es|
          ensures Less(key, es[j].key)
        {
          AtMostLess(key, es[0].key, es[j].key);
        }
      }
    }
  }

  /** The rank is the only position with that property. */
  lemma {:induction false} RankIs(es: seq<Entry>, key: Key, i: nat)
    requires i <= |es| && AllBelow(es, i, key) && (HasKeyAt(es, i, key) || AllAbove(es, i, key))
    ensures Rank(es, key) == i
    decreases i
  {
    hide Less;
    if i > 0 {
      assert forall j :: 0 <= j < |es[1..]| ==> es[1..][j] == es[j + 1];
      RankIs(es[1..], key, i - 1);
    } else if es != [] {
      if es[0].key == key {
        LessIrreflexive(key);
      } else {
        LessAsymmetric(key, es[0].key);
      }
    }
  }

  lemma BelowUpTo(es: seq<Entry>, mid: nat, key: Key)
    requires SortedEntries(es) && mid < |es| && AtMost(es[mid].key, key)
    ensures AllBelow(es, mid, key) && (Less(es[mid].key, key) ==> AllBelow(es, mid + 1, key))
  {
    hide Less, AtMost;
    forall j | 0 <= j < mid
      ensures Less(es[j].key, key)
    {
      AtMostLess(es[j].key, es[mid].key, key);
    }
  }

  lemma AboveFrom(es: seq<Entry>, mid: nat, key: Key)
    requires SortedEntries(es) && mid < |es| && Less(key, es[mid].key)
    ensures AllAbove(es, mid, key)
  {
    hide Less;
    forall j | mid < j < |es|
      ensures Less(key, es[j].key)
    {
      LessTransitive(key, es[mid].key, es[j].key);
    }
  }

  /** A put keeps a leaf sorted. */
  lemma UpsertedSorted(es: seq<Entry>, e: Entry)
    requires SortedEntries(es)
    ensures SortedEntries(Upserted(es, e))
  {
    hide Less, Rank;
    RankSeparates(es, e.key);
  }

  /* ---- Internal pages ---- */

  lemma {:induction false} ChildRankSeparates(keys: seq<Key>, key: Key)
    requires Sorted(keys)
    ensures KeysAtMost(keys, ChildRank(keys, key), key) && KeysAbove(keys, ChildRank(keys, key), key)
    decreases |keys|
  {
    hide Less;
    if keys != [] {
      if Less(key, keys[0]) {
        forall j | 0 < j < |keys|
          ensures Less(key, keys[j])
        {
          LessTransitive(key, keys[0], keys[j]);
        }
      } else {
        ChildRankSeparates(keys[1..], key);
        assert forall j :: 0 < j < |keys| ==> keys[j] == keys[1..][j - 1];
      }
    }
  }

  lemma {:induction false} ChildRankIs(keys: seq<Key>, key: Key, i: nat)
    requires i <= |keys| && KeysAtMost(keys, i, key) && KeysAbove(keys, i, key)
    ensures ChildRank(keys, key) == i
    decreases i
  {
    hide Less;
    if i > 0 {
      assert forall j :: 0 <= j < |keys[1..]| ==> keys[1..][j] == keys[j + 1];
      ChildRankIs(keys[1..], key, i - 1);
    }
  }
}
