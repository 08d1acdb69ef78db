/**
 * Grouping in first-occurrence order, and the sorts applied to groups and
 * lists. The aggregations of lib/dashboard-utils.ts and app/reports/page.tsx
 * accumulate into a `new Map()` keyed by a string: a group is created at the
 * first entry with its key and updated in place afterwards, and iteration
 * follows insertion order. Each caller first turns its records into
 * `Entry` values (key, name, two amounts).
 */
module Grouping {
  import opened Wrappers
  import opened Seqs

  /** One contribution to a grouping: its key, a name and two amounts. */
  datatype Entry = Entry(key: string, name: string, a: int, b: int)

  /** A group: its key, the name of its first entry, the number of entries and the sums of both amounts. */
  datatype Group = Group(key: string, name: string, count: nat, sumA: int, sumB: int)

  // ---------------------------------------------------------------------------
  // Reference definitions, one key at a time

  /** The number of entries with key `k`. */
  function Count(es: seq<Entry>, k: string): nat {
    if es == [] then 0 else Count(es[..|es| - 1], k) + (if es[|es| - 1].key == k then 1 else 0)
  }

  /** The sum of the first amounts of the entries with key `k`. */
  function SumA(es: seq<Entry>, k: string): int {
    if es == [] then 0 else SumA(es[..|es| - 1], k) + (if es[|es| - 1].key == k then es[|es| - 1].a else 0)
  }

  /** The sum of the second amounts of the entries with key `k`. */
  function SumB(es: seq<Entry>, k: string): int {
    if es == [] then 0 else SumB(es[..|es| - 1], k) + (if es[|es| - 1].key == k then es[|es| - 1].b else 0)
  }

  /** The position of the first entry with key `k`, or `|es|` when there is none. */
  function Pos(es: seq<Entry>, k: string): (r: nat)
    ensures r <= |es|
    ensures r < |es| ==> es[r].key == k
  {
    if es == [] then 0
    else
      var p := Pos(es[..|es| - 1], k);
      if p < |es| - 1 then p else if es[|es| - 1].key == k then |es| - 1 else |es|
  }

  /** No entry before `Pos(es, k)` has key `k`: it is the first occurrence. */
  lemma {:induction false} PosIsFirst(es: seq<Entry>, k: string)
    ensures forall j :: 0 <= j < Pos(es, k) ==> es[j].key != k
  {
    if es != [] {
      PosIsFirst(es[..|es| - 1], k);
    }
  }

  /** `g` is the group of key `g.key` over `es`: first name, count and both sums. */
  predicate Describes(g: Group, es: seq<Entry>) {
    var p := Pos(es, g.key);
    && p < |es| && g.name == es[p].name
    && g.count == Count(es, g.key) && g.sumA == SumA(es, g.key) && g.sumB == SumB(es, g.key)
  }

  /** No two groups share a key. */
  predicate Keyed(gs: seq<Group>) {
    forall i, j :: 0 <= i < j < |gs| ==> gs[i].key != gs[j].key
  }

  /** Some group has key `k`. */
  predicate HasGroup(gs: seq<Group>, k: string) {
    exists i :: 0 <= i < |gs| && gs[i].key == k
  }

  /**
   * `gs` is the grouping of `es`: one group per key that occurs, each
   * describing its entries, in the order the keys first occur.
   */
  predicate Summarises(gs: seq<Group>, es: seq<Entry>) {
    Keyed(gs) && AllDescribe(gs, es) && InKeyOrder(gs, es) && Covers(gs, es)
  }

  /** Every group describes its key's entries. */
  predicate AllDescribe(gs: seq<Group>, es: seq<Entry>) {
    forall i :: 0 <= i < |gs| ==> Describes(gs[i], es)
  }

  /** The groups come in the order their keys first occur. */
  predicate InKeyOrder(gs: seq<Group>, es: seq<Entry>) {
    forall i, j :: 0 <= i < j < |gs| ==> Pos(es, gs[i].key) < Pos(es, gs[j].key)
  }

  /** Every entry's key has a group. */
  predicate Covers(gs: seq<Group>, es: seq<Entry>) {
    forall n :: 0 <= n < |es| ==> HasGroup(gs, es[n].key)
  }

  // ---------------------------------------------------------------------------
  // The accumulation

  /** `map.get(k)`: the index of the group with key `k`, if any. */
  function IndexOfKey(gs: seq<Group>, k: string): (r: Option<nat>)
    ensures r.Some? ==> r.value < |gs| && gs[r.value].key == k
    ensures r.None? ==> forall i :: 0 <= i < |gs| ==> gs[i].key != k
  {
    if gs == [] then None
    else if gs[0].key == k then Some(0)
    else match IndexOfKey(gs[1..], k)
      case None => None
      case Some(i) => Some(i + 1)
  }

  /** `existing.count += 1; existing.sum += amount` for both amounts. */
  function Add(g: Group, e: Entry): Group {
    g.(count := g.count + 1, sumA := g.sumA + e.a, sumB := g.sumB + e.b)
  }

  /** One `forEach` step: update the entry's group in place, or append a new one. */
  function Upsert(gs: seq<Group>, e: Entry): (r: seq<Group>)
    ensures |gs| <= |r| <= |gs| + 1
  {
    match IndexOfKey(gs, e.key)
    case Some(i) => gs[i := Add(gs[i], e)]
    case None => gs + [Group(e.key, e.name, 1, e.a, e.b)]
  }

  /** Appending an entry changes the reference values of its own key only. */
  lemma SnocFacts(es: seq<Entry>, e: Entry, k: string)
    ensures Count(es + [e], k) == Count(es, k) + (if e.key == k then 1 else 0)
    ensures SumA(es + [e], k) == SumA(es, k) + (if e.key == k then e.a else 0)
    ensures SumB(es + [e], k) == SumB(es, k) + (if e.key == k then e.b else 0)
    ensures Pos(es + [e], k) == if Pos(es, k) < |es| then Pos(es, k) else if e.key == k then |es| else |es| + 1
  {
    assert (es + [e])[..|es|] == es;
  }

  /** A key that never occurs counts nothing and sums to zero. */
  lemma {:induction false} AbsentKey(es: seq<Entry>, k: string)
    requires forall j :: 0 <= j < |es| ==> es[j].key != k
    ensures Count(es, k) == 0 && SumA(es, k) == 0 && SumB(es, k) == 0
  {
    if es != [] {
      AbsentKey(es[..|es| - 1], k);
    }
  }

  /** Updating the group of a key that already occurs keeps every group exact and in order. */
  lemma ExistingDescribes(gs: seq<Group>, es: seq<Entry>, e: Entry, i: nat)
    requires AllDescribe(gs, es) && InKeyOrder(gs, es)
    requires i < |gs| && gs[i].key == e.key
    ensures AllDescribe(gs[i := Add(gs[i], e)], es + [e])
    ensures InKeyOrder(gs[i := Add(gs[i], e)], es + [e])
  {
    var es' := es + [e];
    var gs' := gs[i := Add(gs[i], e)];
    forall j | 0 <= j < |gs'|
      ensures Describes(gs'[j], es')
      ensures Pos(es', gs'[j].key) == Pos(es, gs[j].key)
    {
      assert Describes(gs[j], es);
      SnocFacts(es, e, gs[j].key);
    }
  }

  /** ... and keeps every key covered. */
  lemma ExistingCovers(gs: seq<Group>, es: seq<Entry>, e: Entry, i: nat)
    requires Covers(gs, es)
    requires i < |gs| && gs[i].key == e.key
    ensures Covers(gs[i := Add(gs[i], e)], es + [e])
  {
    var es' := es + [e];
    var gs' := gs[i := Add(gs[i], e)];
    forall n | 0 <= n < |es'|
      ensures HasGroup(gs', es'[n].key)
    {
      if n < |es| {
        assert HasGroup(gs, es[n].key);
        var m :| 0 <= m < |gs| && gs[m].key == es[n].key;
        assert gs'[m].key == es'[n].key;
      } else {
        assert gs'[i].key == es'[n].key;
      }
    }
  }

  /** A key that no group has does not occur among the entries. */
  lemma NewKeyAbsent(gs: seq<Group>, es: seq<Entry>, k: string)
    requires Covers(gs, es)
    requires forall i :: 0 <= i < |gs| ==> gs[i].key != k
    ensures forall j :: 0 <= j < |es| ==> es[j].key != k
  {
    forall j | 0 <= j < |es|
      ensures es[j].key != k
    {
      assert HasGroup(gs, es[j].key);
      var m :| 0 <= m < |gs| && gs[m].key == es[j].key;
    }
  }

  /** Appending the group of a new key keeps every group exact and in order. */
  lemma NewDescribes(gs: seq<Group>, es: seq<Entry>, e: Entry)
    requires AllDescribe(gs, es) && InKeyOrder(gs, es)
    requires forall j :: 0 <= j < |es| ==> es[j].key != e.key
    ensures AllDescribe(gs + [Group(e.key, e.name, 1, e.a, e.b)], es + [e])
    ensures InKeyOrder(gs + [Group(e.key, e.name, 1, e.a, e.b)], es + [e])
  {
    var es' := es + [e];
    var gs' := gs + [Group(e.key, e.name, 1, e.a, e.b)];
    AbsentKey(es, e.key);
    SnocFacts(es, e, e.key);
    forall j | 0 <= j < |gs|
      ensures Describes(gs'[j], es')
      ensures Pos(es', gs'[j].key) == Pos(es, gs[j].key) < |es|
    {
      assert Describes(gs[j], es);
      SnocFacts(es, e, gs[j].key);
    }
    assert Describes(gs'[|gs|], es');
  }

  /** ... and keeps every key covered. */
  lemma NewCovers(gs: seq<Group>, es: seq<Entry>, e: Entry)
    requires Covers(gs, es)
    ensures Covers(gs + [Group(e.key, e.name, 1, e.a, e.b)], es + [e])
  {
    var es' := es + [e];
    var gs' := gs + [Group(e.key, e.name, 1, e.a, e.b)];
    forall n | 0 <= n < |es'|
      ensures HasGroup(gs', es'[n].key)
    {
      if n < |es| {
        assert HasGroup(gs, es[n].key);
        var m :| 0 <= m < |gs| && gs[m].key == es[n].key;
        assert gs'[m].key == es'[n].key;
      } else {
        assert gs'[|gs|].key == es'[n].key;
      }
    }
  }

  /** One accumulation step keeps the grouping exact. */
  lemma UpsertSummarises(gs: seq<Group>, es: seq<Entry>, e: Entry)
    requires Summarises(gs, es)
    ensures Summarises(Upsert(gs, e), es + [e])
  {
    match IndexOfKey(gs, e.key)
    case Some(i) =>
      ExistingDescribes(gs, es, e, i);
      ExistingCovers(gs, es, e, i);
      assert forall j :: 0 <= j < |gs| ==> gs[i := Add(gs[i], e)][j].key == gs[j].key;
    case None =>
      NewKeyAbsent(gs, es, e.key);
      NewDescribes(gs, es, e);
      NewCovers(gs, es, e);
  }

  /** The whole accumulation: the entries' groups, in first-occurrence order. */
  function Tally(es: seq<Entry>): (gs: seq<Group>)
    ensures Summarises(gs, es)
    ensures |gs| <= |es|
    decreases |es|
  {
    if es == [] then []
    else
      var init := es[..|es| - 1];
      var gs := Tally(init);
      assert es == init + [es[|es| - 1]];
      UpsertSummarises(gs, init, es[|es| - 1]);
      Upsert(gs, es[|es| - 1])
  }

  // ---------------------------------------------------------------------------
  // Totals

  function CountOf(g: Group): int { g.count }
  function SumAOf(g: Group): int { g.sumA }
  function SumBOf(g: Group): int { g.sumB }
  function EntryA(e: Entry): int { e.a }
  function EntryB(e: Entry): int { e.b }

  /** One step adds one to the total count and the entry's amounts to the sums. */
  lemma UpsertTotals(gs: seq<Group>, e: Entry)
    ensures SumOf(Upsert(gs, e), CountOf) == SumOf(gs, CountOf) + 1
    ensures SumOf(Upsert(gs, e), SumAOf) == SumOf(gs, SumAOf) + e.a
    ensures SumOf(Upsert(gs, e), SumBOf) == SumOf(gs, SumBOf) + e.b
  {
    match IndexOfKey(gs, e.key)
    case Some(i) =>
      SumOfUpdate(gs, i, Add(gs[i], e), CountOf);
      SumOfUpdate(gs, i, Add(gs[i], e), SumAOf);
      SumOfUpdate(gs, i, Add(gs[i], e), SumBOf);
    case None =>
      var g := Group(e.key, e.name, 1, e.a, e.b);
      SumOfSnoc(gs, g, CountOf);
      SumOfSnoc(gs, g, SumAOf);
      SumOfSnoc(gs, g, SumBOf);
  }

  /** The groups' counts add up to the number of entries, and their sums to the totals. */
  lemma {:induction false} TallyTotals(es: seq<Entry>)
    ensures SumOf(Tally(es), CountOf) == |es|
    ensures SumOf(Tally(es), SumAOf) == SumOf(es, EntryA)
    ensures SumOf(Tally(es), SumBOf) == SumOf(es, EntryB)
    decreases |es|
  {
    if es != [] {
      var init := es[..|es| - 1];
      var last := es[|es| - 1];
      TallyTotals(init);
      TallyLast(es);
      EntrySumsLast(es);
      UpsertTotals(Tally(init), last);
    }
  }

  /** The last entry is the last step of the accumulation ... */
  lemma TallyLast(es: seq<Entry>)
    requires es != []
    ensures Tally(es) == Upsert(Tally(es[..|es| - 1]), es[|es| - 1])
  {
  }

  /** ... and the last term of the totals. */
  lemma EntrySumsLast(es: seq<Entry>)
    requires es != []
    ensures SumOf(es, EntryA) == SumOf(es[..|es| - 1], EntryA) + es[|es| - 1].a
    ensures SumOf(es, EntryB) == SumOf(es[..|es| - 1], EntryB) + es[|es| - 1].b
  {
    var init := es[..|es| - 1];
    var last := es[|es| - 1];
    assert es == init + [last];
    SumOfSnoc(init, last, EntryA);
    SumOfSnoc(init, last, EntryB);
  }

  // ---------------------------------------------------------------------------
  // Sorting by decreasing rank

  /** Non-increasing `rank`. */
  predicate SortedDesc<T>(xs: seq<T>, rank: T -> int) {
    forall i, j :: 0 <= i < j < |xs| ==> rank(xs[i]) >= rank(xs[j])
  }

  /** Where `x` goes in a list of decreasing rank: before the first element ranked no higher. */
  function InsertPos<T>(x: T, s: seq<T>, rank: T -> int): (i: nat)
    ensures i <= |s|
    ensures forall j :: 0 <= j < i ==> rank(s[j]) > rank(x)
    ensures i < |s| ==> rank(s[i]) <= rank(x)
  {
    if s == [] || rank(s[0]) <= rank(x) then 0 else 1 + InsertPos(x, s[1..], rank)
  }

  /** Inserting the head of `xs` anywhere into a permutation of its tail gives a permutation of `xs`. */
  lemma InsertPermutes<T>(xs: seq<T>, rest: seq<T>, i: nat)
    requires xs != [] && i <= |rest| && multiset(rest) == multiset(xs[1..])
    ensures multiset(rest[..i] + [xs[0]] + rest[i..]) == multiset(xs)
  {
    assert rest == rest[..i] + rest[i..];
    assert xs == [xs[0]] + xs[1..];
  }

  /** Inserting at `InsertPos` keeps a list of decreasing rank sorted. */
  lemma InsertDescSorted<T>(s: seq<T>, x: T, rank: T -> int)
    requires SortedDesc(s, rank)
    ensures SortedDesc(s[..InsertPos(x, s, rank)] + [x] + s[InsertPos(x, s, rank)..], rank)
  {
    var i := InsertPos(x, s, rank);
    var r := s[..i] + [x] + s[i..];
    forall p, q | 0 <= p < q < |r|
      ensures rank(r[p]) >= rank(r[q])
    {
      if q < i {
        assert r[p] == s[p] && r[q] == s[q];
      } else if q == i {
        assert r[p] == s[p];
      } else if p == i {
        assert r[q] == s[q - 1];
      } else if p < i {
        assert r[p] == s[p] && r[q] == s[q - 1];
      } else {
        assert r[p] == s[p - 1] && r[q] == s[q - 1];
      }
    }
  }

  /**
   * `sort((a, b) => rank(b) - rank(a))`: the elements by decreasing rank,
   * each inserted ahead of later ones of equal rank.
   */
  function SortDesc<T>(xs: seq<T>, rank: T -> int): (r: seq<T>)
    ensures |r| == |xs|
    ensures multiset(r) == multiset(xs)
    ensures SortedDesc(r, rank)
  {
    if xs == [] then []
    else
      var rest := SortDesc(xs[1..], rank);
      var i := InsertPos(xs[0], rest, rank);
      InsertDescSorted(rest, xs[0], rank);
      InsertPermutes(xs, rest, i);
      rest[..i] + [xs[0]] + rest[i..]
  }

  /** `slice(0, n)`. */
  function Take<T>(xs: seq<T>, n: nat): (r: seq<T>)
    ensures |r| == if n < |xs| then n else |xs|
    ensures r <= xs
  {
    if n < |xs| then xs[..n] else xs
  }

  /** Inserting a group whose key is new keeps the keys distinct. */
  lemma KeyedInsert(s: seq<Group>, g: Group, i: nat)
    requires i <= |s| && Keyed(s)
    requires forall x :: x in s ==> x.key != g.key
    ensures Keyed(s[..i] + [g] + s[i..])
  {
    var r := s[..i] + [g] + s[i..];
    forall p, q | 0 <= p < q < |r|
      ensures r[p].key != r[q].key
    {
      var sp := if p < i then p else p - 1;
      var sq := if q < i then q else q - 1;
      if p != i && q != i {
        assert r[p] == s[sp] && r[q] == s[sq];
      } else if p == i {
        assert r[q] == s[sq];
      } else {
        assert r[p] == s[sp];
      }
    }
  }

  /** Sorting groups keeps their keys distinct. */
  lemma {:induction false} SortKeepsKeyed(gs: seq<Group>, rank: Group -> int)
    ensures Keyed(gs) ==> Keyed(SortDesc(gs, rank))
    decreases |gs|
  {
    if gs != [] && Keyed(gs) {
      var rest := SortDesc(gs[1..], rank);
      SortKeepsKeyed(gs[1..], rank);
      forall x | x in rest
        ensures x.key != gs[0].key
      {
        assert x in multiset(gs[1..]);
        var m :| 0 <= m < |gs[1..]| && gs[1..][m] == x;
        assert gs[m + 1] == x;
      }
      KeyedInsert(rest, gs[0], InsertPos(gs[0], rest, rank));
    }
  }

  /** The `n` groups of largest second sum, distinct keys, in non-increasing order. */
  function TopBySumB(gs: seq<Group>, n: nat): (r: seq<Group>)
    ensures |r| <= n && |r| <= |gs|
    ensures SortedDesc(r, SumBOf)
    ensures forall g :: g in r ==> g in gs
    ensures Keyed(gs) ==> Keyed(r)
    ensures |gs| <= n ==> forall g :: g in gs ==> g in r
  {
    var sorted := SortDesc(gs, SumBOf);
    SortKeepsKeyed(gs, SumBOf);
    assert forall g :: g in Take(sorted, n) ==> g in multiset(sorted);
    assert forall g :: g in gs ==> g in multiset(sorted);
    Take(sorted, n)
  }

  /** Every group left out of the top `n` ranks no higher than every group kept. */
  lemma TopIsTop(gs: seq<Group>, n: nat, g: Group)
    requires g in gs && g !in TopBySumB(gs, n)
    ensures forall t :: t in TopBySumB(gs, n) ==> t.sumB >= g.sumB
  {
    var sorted := SortDesc(gs, SumBOf);
    assert g in multiset(sorted);
    var k :| 0 <= k < |sorted| && sorted[k] == g;
    assert k >= n;
    forall t | t in TopBySumB(gs, n)
      ensures t.sumB >= g.sumB
    {
      var j :| 0 <= j < |TopBySumB(gs, n)| && TopBySumB(gs, n)[j] == t;
      assert sorted[j] == t;
    }
  }

  // ---------------------------------------------------------------------------
  // Sorting groups by increasing key

  /** Keys in non-decreasing lexicographic order. */
  predicate SortedByKey(gs: seq<Group>) {
    forall i, j :: 0 <= i < j < |gs| ==> LexLe(gs[i].key, gs[j].key)
  }

  /** Where `g` goes in a key-sorted list: before the first key it does not exceed. */
  function InsertPosByKey(g: Group, s: seq<Group>): (i: nat)
    ensures i <= |s|
    ensures forall j :: 0 <= j < i ==> !LexLe(g.key, s[j].key)
    ensures i < |s| ==> LexLe(g.key, s[i].key)
  {
    if s == [] || LexLe(g.key, s[0].key) then 0 else 1 + InsertPosByKey(g, s[1..])
  }

  /** Inserting at `InsertPosByKey` keeps a key-sorted list sorted. */
  lemma InsertByKeySorted(s: seq<Group>, g: Group)
    requires SortedByKey(s)
    ensures SortedByKey(s[..InsertPosByKey(g, s)] + [g] + s[InsertPosByKey(g, s)..])
  {
    var i := InsertPosByKey(g, s);
    var r := s[..i] + [g] + s[i..];
    forall p, q | 0 <= p < q < |r|
      ensures LexLe(r[p].key, r[q].key)
    {
      if q < i {
        assert r[p] == s[p] && r[q] == s[q];
      } else if q == i {
        assert r[p] == s[p];
        LexLeTotal(g.key, s[p].key);
      } else if p == i {
        assert r[q] == s[q - 1];
        if q - 1 > i {
          LexLeTransitive(g.key, s[i].key, s[q - 1].key);
        }
      } else if p < i {
        assert r[p] == s[p] && r[q] == s[q - 1];
      } else {
        assert r[p] == s[p - 1] && r[q] == s[q - 1];
      }
    }
  }

  /** `sort((a, b) => a.key.localeCompare(b.key))`, with code-unit order for the comparison. */
  function SortByKey(gs: seq<Group>): (r: seq<Group>)
    ensures |r| == |gs|
    ensures multiset(r) == multiset(gs)
    ensures SortedByKey(r)
  {
    if gs == [] then []
    else
      var rest := SortByKey(gs[1..]);
      var i := InsertPosByKey(gs[0], rest);
      InsertPermutes(gs, rest, i);
      InsertByKeySorted(rest, gs[0]);
      rest[..i] + [gs[0]] + rest[i..]
  }

  /** Sorting groups by key keeps their keys distinct. */
  lemma {:induction false} SortByKeyKeepsKeyed(gs: seq<Group>)
    ensures Keyed(gs) ==> Keyed(SortByKey(gs))
    decreases |gs|
  {
    if gs != [] && Keyed(gs) {
      var rest := SortByKey(gs[1..]);
      SortByKeyKeepsKeyed(gs[1..]);
      forall x | x in rest
        ensures x.key != gs[0].key
      {
        assert x in multiset(gs[1..]);
        var m :| 0 <= m < |gs[1..]| && gs[1..][m] == x;
        assert gs[m + 1] == x;
      }
      KeyedInsert(rest, gs[0], InsertPosByKey(gs[0], rest));
    }
  }

  /** Sorting groups by key keeps every sum over them. */
  lemma {:induction false} SortByKeyKeepsSums(gs: seq<Group>, f: Group -> int)
    ensures SumOf(SortByKey(gs), f) == SumOf(gs, f)
    decreases |gs|
  {
    if gs != [] {
      var rest := SortByKey(gs[1..]);
      SortByKeyKeepsSums(gs[1..], f);
      SumOfInsert(rest, InsertPosByKey(gs[0], rest), gs[0], f);
    }
  }

  /** Any reordering of a grouping still describes and covers its entries. */
  lemma PermutedSummary(gs: seq<Group>, hs: seq<Group>, es: seq<Entry>)
    requires multiset(hs) == multiset(gs)
    requires AllDescribe(gs, es) && Covers(gs, es)
    ensures AllDescribe(hs, es) && Covers(hs, es)
  {
    forall i | 0 <= i < |hs|
      ensures Describes(hs[i], es)
    {
      assert hs[i] in multiset(gs);
      var j :| 0 <= j < |gs| && gs[j] == hs[i];
    }
    forall n | 0 <= n < |es|
      ensures HasGroup(hs, es[n].key)
    {
      var j :| 0 <= j < |gs| && gs[j].key == es[n].key;
      assert gs[j] in multiset(hs);
      var i :| 0 <= i < |hs| && hs[i] == gs[j];
    }
  }
}
