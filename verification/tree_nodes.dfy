/**
 The B+tree as a value: every page's contents with the pages below it in place of their ids.
 Leaves hold all entries; separators only guide the search.
 */
module TreeNodes {
  import opened Wrappers
  import opened ByteStrings
  import opened PageFormat
  import opened SplitPoints
  import opened KeySearch

  datatype Node =
    | Leaf(entries: seq<Entry>)
    | Inner(keys: seq<Key>, ids: seq<PageId>, kids: seq<Node>)

  function ContentOf(t: Node): Content {
    match t
    case Leaf(es) => LeafContent(es)
    case Inner(keys, ids, _) => InnerContent(keys, ids)
  }

  /* ---- What a tree holds ---- */

  function Entries(t: Node): seq<Entry>
    decreases t
  {
    match t
    case Leaf(es) => es
    case Inner(_, _, kids) => AllEntries(kids)
  }

  function AllEntries(ts: seq<Node>): seq<Entry>
    decreases ts
  {
    if ts == [] then [] else Entries(ts[0]) + AllEntries(ts[1..])
  }

  /** The map a list of entries stands for; a sorted list has each key once. */
  function MapOf(es: seq<Entry>): map<Key, Value> {
    if es == [] then map[] else MapOf(es[..|es| - 1])[es[|es| - 1].key := es[|es| - 1].value]
  }

  /** The pages below a node, with multiplicity. */
  function PagesBelow(t: Node): multiset<PageId>
    decreases t
  {
    match t
    case Leaf(_) => multiset{}
    case Inner(_, ids, kids) => multiset(ids) + AllPagesBelow(kids)
  }

  function AllPagesBelow(ts: seq<Node>): multiset<PageId>
    decreases ts
  {
    if ts == [] then multiset{} else PagesBelow(ts[0]) + AllPagesBelow(ts[1..])
  }

  lemma {:induction false} AllEntriesConcat(a: seq<Node>, b: seq<Node>)
    ensures AllEntries(a + b) == AllEntries(a) + AllEntries(b)
    decreases |a|
  {
    hide Entries;
    if a == [] {
      assert a + b == b;
    } else {
      assert (a + b)[1..] == a[1..] + b;
      AllEntriesConcat(a[1..], b);
    }
  }

  lemma {:induction false} AllPagesBelowConcat(a: seq<Node>, b: seq<Node>)
    ensures AllPagesBelow(a + b) == AllPagesBelow(a) + AllPagesBelow(b)
    decreases |a|
  {
    hide PagesBelow;
    if a == [] {
      assert a + b == b;
    } else {
      assert (a + b)[1..] == a[1..] + b;
      AllPagesBelowConcat(a[1..], b);
    }
  }

  lemma EntriesAround(kids: seq<Node>, i: nat)
    requires i < |kids|
    ensures AllEntries(kids) == AllEntries(kids[..i]) + Entries(kids[i]) + AllEntries(kids[i + 1..])
  {
    assert kids == kids[..i] + kids[i..];
    AllEntriesConcat(kids[..i], kids[i..]);
    assert kids[i..][1..] == kids[i + 1..];
    assert AllEntries(kids[i..]) == Entries(kids[i]) + AllEntries(kids[i + 1..]);
  }

  lemma BelowAround(ids: seq<PageId>, kids: seq<Node>, i: nat)
    requires i < |kids| == |ids|
    ensures multiset(ids) == multiset(ids[..i]) + multiset{ids[i]} + multiset(ids[i + 1..])
    ensures AllPagesBelow(kids) == AllPagesBelow(kids[..i]) + PagesBelow(kids[i]) + AllPagesBelow(kids[i + 1..])
  {
    assert ids == ids[..i] + [ids[i]] + ids[i + 1..];
    assert kids == kids[..i] + kids[i..];
    AllPagesBelowConcat(kids[..i], kids[i..]);
    assert kids[i..][1..] == kids[i + 1..];
  }

  /* ---- Well-formed trees ---- */

  /** All leaves at the same depth h, and every internal page with at least one separator. */
  ghost predicate Shaped(t: Node, h: nat)
    decreases h
  {
    match t
    case Leaf(_) => h == 0
    case Inner(keys, ids, kids) =>
      && h > 0 && |keys| >= 1 && |ids| == |kids| == |keys| + 1
      && forall i :: 0 <= i < |kids| ==> Shaped(kids[i], h - 1)
  }

  /** Every page fits, and every key and entry is within the limits. */
  ghost predicate Sized(t: Node, h: nat, pageSize: nat)
    decreases h
  {
    match t
    case Leaf(es) => LeafFits(es, pageSize)
    case Inner(keys, ids, kids) =>
      && InnerFits(keys, pageSize)
      && (h > 0 ==> forall i :: 0 <= i < |kids| ==> Sized(kids[i], h - 1, pageSize))
  }

  /** Key bounds; `None` is unbounded. */
  ghost predicate From(lo: Option<Key>, k: Key) {
    lo.Some? ==> AtMost(lo.value, k)
  }

  ghost predicate After(lo: Option<Key>, k: Key) {
    lo.Some? ==> Less(lo.value, k)
  }

  ghost predicate Before(k: Key, hi: Option<Key>) {
    hi.Some? ==> Less(k, hi.value)
  }

  function LowerBound(keys: seq<Key>, i: nat, lo: Option<Key>): Option<Key>
    requires i <= |keys|
  {
    if i == 0 then lo else Some(keys[i - 1])
  }

  function UpperBound(keys: seq<Key>, i: nat, hi: Option<Key>): Option<Key>
    requires i <= |keys|
  {
    if i == |keys| then hi else Some(keys[i])
  }

  /** The separator convention: leaf keys in [lo, hi), separators strictly inside, child i between its separators. */
  ghost predicate Ordered(t: Node, h: nat, lo: Option<Key>, hi: Option<Key>)
    requires Shaped(t, h)
    decreases h, 0
  {
    match t
    case Leaf(es) =>
      SortedEntries(es) && forall e :: e in es ==> From(lo, e.key) && Before(e.key, hi)
    case Inner(keys, ids, kids) =>
      && Sorted(keys) && (forall k :: k in keys ==> After(lo, k) && Before(k, hi))
      && forall i :: 0 <= i < |kids| ==> KidOrdered(keys, kids, h, i, lo, hi)
  }

  ghost predicate KidOrdered(keys: seq<Key>, kids: seq<Node>, h: nat, i: nat, lo: Option<Key>, hi: Option<Key>)
    requires h > 0 && |kids| == |keys| + 1 && i < |kids| && Shaped(kids[i], h - 1)
    decreases h - 1, 1
  {
    Ordered(kids[i], h - 1, LowerBound(keys, i, lo), UpperBound(keys, i, hi))
  }

  ghost predicate WellFormed(t: Node, h: nat, pageSize: nat) {
    Shaped(t, h) && Sized(t, h, pageSize) && Ordered(t, h, None, None)
  }

  /* ---- Lookup ---- */

  function FoundValue(es: seq<Entry>, r: SearchResult): Option<Value>
    requires r.Ok? ==> r.idx < |es|
  {
    if r.Ok? then Some(es[r.idx].value) else None
  }

  function Lookup(t: Node, h: nat, key: Key): Option<Value>
    requires Shaped(t, h)
    decreases h
  {
    match t
    case Leaf(es) => FoundValue(es, Search(es, key))
    case Inner(keys, _, kids) => Lookup(kids[ChildRank(keys, key)], h - 1, key)
  }

  function Get(m: map<Key, Value>, key: Key): Option<Value> {
    if key in m then Some(m[key]) else None
  }

  /* ---- Order across pages ---- */

  ghost predicate Within(es: seq<Entry>, lo: Option<Key>, hi: Option<Key>) {
    forall e :: e in es ==> From(lo, e.key) && Before(e.key, hi)
  }

  lemma SortedConcat(a: seq<Entry>, b: seq<Entry>, mid: Key)
    requires SortedEntries(a) && SortedEntries(b)
    requires (forall e :: e in a ==> Less(e.key, mid)) && (forall e :: e in b ==> AtMost(mid, e.key))
    ensures SortedEntries(a + b)
  {
    hide Less, AtMost;
    var ab := a + b;
    forall i, j | 0 <= i < j < |ab|
      ensures Less(ab[i].key, ab[j].key)
    {
      if i < |a| && |a| <= j {
        assert ab[i] in a && ab[j] in b;
        AtMostLess(ab[i].key, mid, ab[j].key);
      }
    }
  }

  /** The entries of a run of adjacent children lie, sorted, between its outer bounds. */
  lemma {:induction false} RunOrdered(t: Node, h: nat, lo: Option<Key>, hi: Option<Key>, from: nat, to: nat)
    requires Shaped(t, h) && Ordered(t, h, lo, hi) && t.Inner? && from < to <= |t.kids|
    ensures var es := AllEntries(t.kids[from..to]);
            SortedEntries(es) && Within(es, LowerBound(t.keys, from, lo), UpperBound(t.keys, to - 1, hi))
    decreases h, to - from
  {
    hide Less, AtMost;
    var keys, kids := t.keys, t.kids;
    assert KidOrdered(keys, kids, h, from, lo, hi);
    TreeOrdered(kids[from], h - 1, LowerBound(keys, from, lo), UpperBound(keys, from, hi));
    var first := Entries(kids[from]);
    assert kids[from..to][1..] == kids[from + 1..to];
    if from + 1 == to {
      assert AllEntries(kids[from..to]) == first;
    } else {
      RunOrdered(t, h, lo, hi, from + 1, to);
      var rest := AllEntries(kids[from + 1..to]);
      SortedConcat(first, rest, keys[from]);
      JoinWithin(first, rest, LowerBound(keys, from, lo), keys[from], UpperBound(keys, to - 1, hi)) by {
        if to - 1 < |keys| {
          assert Less(keys[from], keys[to - 1]);
        } else {
          assert keys[from] in keys;
        }
        if from > 0 {
          assert Less(keys[from - 1], keys[from]);
        } else {
          assert keys[from] in keys;
        }
      }
    }
  }

  lemma JoinWithin(a: seq<Entry>, b: seq<Entry>, lo: Option<Key>, mid: Key, hi: Option<Key>)
    requires Within(a, lo, Some(mid)) && Within(b, Some(mid), hi) && After(lo, mid) && Before(mid, hi)
    ensures Within(a + b, lo, hi)
  {
    hide Less;
    forall e | e in a + b
      ensures From(lo, e.key) && Before(e.key, hi)
    {
      if e in a && hi.Some? {
        LessTransitive(e.key, mid, hi.value);
      }
      if e in b && lo.Some? {
        AtMostLess(lo.value, mid, e.key);
        LessAsymmetric(lo.value, e.key);
      }
    }
  }

  /** An ordered tree's entries are sorted and within its bounds. */
  lemma {:induction false} TreeOrdered(t: Node, h: nat, lo: Option<Key>, hi: Option<Key>)
    requires Shaped(t, h) && Ordered(t, h, lo, hi)
    ensures SortedEntries(Entries(t)) && Within(Entries(t), lo, hi)
    decreases h, if t.Inner? then |t.kids| + 1 else 0
  {
    hide Less, AtMost;
    if t.Inner? {
      assert t.kids[0..|t.kids|] == t.kids;
      RunOrdered(t, h, lo, hi, 0, |t.kids|);
    }
  }

  /* ---- Lookups and puts against the map ---- */

  lemma {:induction false} MapOfKeys(es: seq<Entry>, i: nat)
    requires SortedEntries(es) && i < |es|
    ensures es[i].key in MapOf(es) && MapOf(es)[es[i].key] == es[i].value
    decreases |es|
  {
    hide Less;
    if i < |es| - 1 {
      MapOfKeys(es[..|es| - 1], i);
      LessAsymmetric(es[i].key, es[|es| - 1].key);
    }
  }

  lemma {:induction false} MapOfOnlyKeys(es: seq<Entry>, key: Key)
    requires key in MapOf(es)
    ensures exists e :: e in es && e.key == key
    decreases |es|
  {
    if es[|es| - 1].key != key {
      MapOfOnlyKeys(es[..|es| - 1], key);
      var e :| e in es[..|es| - 1] && e.key == key;
      assert e in es;
    } else {
      assert es[|es| - 1] in es;
    }
  }

  /** Searching a sorted leaf is looking up its map. */
  lemma SearchIsLookup(es: seq<Entry>, key: Key)
    requires SortedEntries(es)
    ensures FoundValue(es, Search(es, key)) == Get(MapOf(es), key)
  {
    hide Less, Rank, MapOf;
    RankSeparates(es, key);
    var i := Rank(es, key);
    if HasKeyAt(es, i, key) {
      MapOfKeys(es, i);
    } else if key in MapOf(es) {
      MapOfOnlyKeys(es, key);
      var e :| e in es && e.key == key;
      LessIrreflexive(key);
    }
  }

  /** Keys of one part of a sorted concatenation are looked up in that part. */
  lemma LookupInPart(a: seq<Entry>, m: seq<Entry>, b: seq<Entry>, key: Key)
    requires SortedEntries(a + m + b) && SortedEntries(m)
    requires (forall e :: e in a ==> Less(e.key, key)) && (forall e :: e in b ==> Less(key, e.key))
    ensures Get(MapOf(a + m + b), key) == Get(MapOf(m), key)
  {
    hide Less, MapOf, Rank, SortedEntries;
    SearchIsLookup(a + m + b, key);
    SearchIsLookup(m, key);
    RankInPart(a, m, b, key);
    var i := Rank(m, key);
    assert |a| + i < |a + m + b| && i < |m| ==> (a + m + b)[|a| + i] == m[i];
    if i == |m| && b != [] {
      assert (a + m + b)[|a| + i] == b[0];
      LessIrreflexive(key);
    }
  }

  lemma RankInPart(a: seq<Entry>, m: seq<Entry>, b: seq<Entry>, key: Key)
    requires SortedEntries(m)
    requires (forall e :: e in a ==> Less(e.key, key)) && (forall e :: e in b ==> Less(key, e.key))
    ensures Rank(a + m + b, key) == |a| + Rank(m, key)
  {
    hide Less, Rank, SortedEntries;
    RankSeparates(m, key);
    var i, all := Rank(m, key), a + m + b;
    forall j | 0 <= j < |a| + i
      ensures Less(all[j].key, key)
    {
      assert j < |a| ==> all[j] in a;
      assert j >= |a| ==> all[j] == m[j - |a|];
    }
    if !HasKeyAt(m, i, key) {
      forall j | |a| + i <= j < |all|
        ensures Less(key, all[j].key)
      {
        assert j < |a| + |m| ==> all[j] == m[j - |a|];
        assert j >= |a| + |m| ==> all[j] in b;
      }
    }
    RankIs(all, key, |a| + i);
  }

  /** A put in the part that covers the key is a put in the whole. */
  lemma UpsertInPart(a: seq<Entry>, m: seq<Entry>, b: seq<Entry>, e: Entry)
    requires SortedEntries(m)
    requires (forall x :: x in a ==> Less(x.key, e.key)) && (forall x :: x in b ==> Less(e.key, x.key))
    ensures Upserted(a + m + b, e) == a + Upserted(m, e) + b
  {
    hide Less, Rank, SortedEntries;
    RankInPart(a, m, b, e.key);
    var i, all := Rank(m, e.key), a + m + b;
    assert i < |m| ==> all[|a| + i] == m[i];
    if i == |m| && b != [] {
      assert all[|a| + i] == b[0];
      LessIrreflexive(e.key);
    }
    if HasKeyAt(m, i, e.key) {
      ReplacedInPart(a, m, b, i, e);
    } else {
      InsertedInPart(a, m, b, i, e);
    }
  }

  lemma ReplacedInPart(a: seq<Entry>, m: seq<Entry>, b: seq<Entry>, i: nat, e: Entry)
    requires i < |m|
    ensures Replaced(a + m + b, |a| + i, e) == a + Replaced(m, i, e) + b
  {
    var all := a + m + b;
    assert all[..|a| + i] == a + m[..i] && all[|a| + i + 1..] == m[i + 1..] + b;
  }

  lemma InsertedInPart(a: seq<Entry>, m: seq<Entry>, b: seq<Entry>, i: nat, e: Entry)
    requires i <= |m|
    ensures Inserted(a + m + b, |a| + i, e) == a + Inserted(m, i, e) + b
  {
    var all := a + m + b;
    assert all[..|a| + i] == a + m[..i] && all[|a| + i..] == m[i..] + b;
  }

  lemma {:induction false} MapOfInsertAt(es: seq<Entry>, i: nat, e: Entry)
    requires i <= |es| && forall j :: i <= j < |es| ==> es[j].key != e.key
    ensures MapOf(Inserted(es, i, e)) == MapOf(es)[e.key := e.value]
    decreases |es|
  {
    var ins := Inserted(es, i, e);
    if i == |es| {
      assert ins[..|ins| - 1] == es;
    } else {
      assert ins[..|ins| - 1] == Inserted(es[..|es| - 1], i, e);
      MapOfInsertAt(es[..|es| - 1], i, e);
    }
  }

  lemma {:induction false} MapOfReplaceAt(es: seq<Entry>, i: nat, e: Entry)
    requires i < |es| && es[i].key == e.key && forall j :: i < j < |es| ==> es[j].key != e.key
    ensures MapOf(Replaced(es, i, e)) == MapOf(es)[e.key := e.value]
    decreases |es|
  {
    var rep := Replaced(es, i, e);
    if i == |es| - 1 {
      assert rep[..|rep| - 1] == es[..i];
    } else {
      assert rep[..|rep| - 1] == Replaced(es[..|es| - 1], i, e);
      MapOfReplaceAt(es[..|es| - 1], i, e);
    }
  }

  /** A put changes exactly its own key. */
  lemma UpsertIsMapUpdate(es: seq<Entry>, e: Entry)
    requires SortedEntries(es)
    ensures MapOf(Upserted(es, e)) == MapOf(es)[e.key := e.value]
  {
    hide Less, Rank, MapOf;
    RankSeparates(es, e.key);
    LessIrreflexive(e.key);
    var i := Rank(es, e.key);
    if HasKeyAt(es, i, e.key) {
      MapOfReplaceAt(es, i, e);
    } else {
      MapOfInsertAt(es, i, e);
    }
  }

  /* ---- Descending to the child that covers a key ---- */

  /** The child a search descends to covers the key, and the children on either side do not. */
  lemma CoveringChild(t: Node, h: nat, lo: Option<Key>, hi: Option<Key>, key: Key)
    requires t.Inner? && Shaped(t, h) && Ordered(t, h, lo, hi) && From(lo, key) && Before(key, hi)
    ensures var i := ChildRank(t.keys, key);
            && KidOrdered(t.keys, t.kids, h, i, lo, hi)
            && From(LowerBound(t.keys, i, lo), key) && Before(key, UpperBound(t.keys, i, hi))
            && (forall e :: e in AllEntries(t.kids[..i]) ==> Less(e.key, key))
            && (forall e :: e in AllEntries(t.kids[i + 1..]) ==> Less(key, e.key))
  {
    hide Less, AtMost, ChildRank, AllEntries;
    var i := ChildRank(t.keys, key);
    ChildRankSeparates(t.keys, key);
    if i > 0 {
      RunOrdered(t, h, lo, hi, 0, i);
      assert t.kids[0..i] == t.kids[..i];
      forall e | e in AllEntries(t.kids[..i])
        ensures Less(e.key, key)
      {
        AtMostLess(e.key, t.keys[i - 1], key);
      }
    } else {
      NoEntries(t.kids[..i]);
    }
    if i < |t.keys| {
      RunOrdered(t, h, lo, hi, i + 1, |t.kids|);
      assert t.kids[i + 1..|t.kids|] == t.kids[i + 1..];
      forall e | e in AllEntries(t.kids[i + 1..])
        ensures Less(key, e.key)
      {
        AtMostLess(key, t.keys[i], e.key);
      }
    } else {
      NoEntries(t.kids[i + 1..]);
    }
  }

  lemma NoEntries(ts: seq<Node>)
    requires ts == []
    ensures AllEntries(ts) == []
  {
  }

  /** Looking a key up by descending agrees with the map of all entries. */
  lemma {:induction false} LookupIsMapLookup(t: Node, h: nat, lo: Option<Key>, hi: Option<Key>, key: Key)
    requires Shaped(t, h) && Ordered(t, h, lo, hi) && From(lo, key) && Before(key, hi)
    ensures Lookup(t, h, key) == Get(MapOf(Entries(t)), key)
    decreases h
  {
    hide Less, AtMost, ChildRank, AllEntries, MapOf, Search, From, Before, SortedEntries;
    TreeOrdered(t, h, lo, hi);
    match t {
      case Leaf(es) => SearchIsLookup(es, key);
      case Inner(keys, ids, kids) =>
        CoveringChild(t, h, lo, hi, key);
        var i := ChildRank(keys, key);
        LookupIsMapLookup(kids[i], h - 1, LowerBound(keys, i, lo), UpperBound(keys, i, hi), key);
        TreeOrdered(kids[i], h - 1, LowerBound(keys, i, lo), UpperBound(keys, i, hi));
        EntriesAround(kids, i);
        LookupInPart(AllEntries(kids[..i]), Entries(kids[i]), AllEntries(kids[i + 1..]), key);
    }
  }
}
