/** Catalog entries and the in-place sort of the result rows, newest first. */
module Catalog {
  import opened Wrappers
  import opened Seqs

  /** One plugin or theme of the feed, with the fields the pipeline reads. */
  datatype Item = Item(title: string, name: string, theme: bool, addedAt: Option<int>)

  /** JavaScript truthiness of an optional timestamp: `undefined` and `0` are falsy. */
  predicate Truthy(t: Option<int>) {
    t.Some? && t.value != 0
  }

  predicate Dated(it: Item) {
    Truthy(it.addedAt)
  }

  /** The timestamp an item sorts by, 0 when it has none. */
  function Stamp(it: Item): int {
    it.addedAt.GetOr(0)
  }

  /** The comparator `(a, b) => { if (!b.addedAt) return; return b.addedAt - a.addedAt }`
    * as written. `None` stands for a result that is not a Number other than `NaN`: the
    * `undefined` returned when `b.addedAt` is falsy, and the `NaN` of `b.addedAt - undefined`. */
  function Comparator(a: Item, b: Item): (r: Option<int>)
    ensures r.Some? <==> Dated(b) && a.addedAt.Some?
  {
    if !Dated(b) then None
    else if a.addedAt.None? then None
    else Some(b.addedAt.value - a.addedAt.value)
  }

  /** The comparator as `Array.prototype.sort` reads it: `undefined` and `NaN` count as
    * 0 ("equal"). Positive means `b` goes before `a`. The sort reorders only items whose
    * `addedAt` differ, and two dated items exactly as their timestamps say. */
  function Compare(a: Item, b: Item): (r: int)
    ensures !Dated(b) || a.addedAt.None? ==> r == 0
    ensures Dated(b) && a.addedAt.Some? ==> r == Stamp(b) - Stamp(a)
    ensures r != 0 ==> a.addedAt != b.addedAt
    ensures Dated(a) && Dated(b) ==> (r > 0 <==> Stamp(a) < Stamp(b)) && (r < 0 <==> Stamp(b) < Stamp(a))
  {
    Comparator(a, b).GetOr(0)
  }

  /** Accepts the items whose `addedAt` is exactly `k`. */
  function AddedIs(k: Option<int>): Item -> bool {
    (it: Item) => it.addedAt == k
  }

  /** The items of `s` sharing the `addedAt` value `k`, in order. */
  function WithAdded(s: seq<Item>, k: Option<int>): seq<Item> {
    Filter(s, AddedIs(k))
  }

  ghost predicate AllDated(s: seq<Item>) {
    forall i :: 0 <= i < |s| ==> Dated(s[i])
  }

  /** Non-increasing in `addedAt`. */
  ghost predicate SortedDesc(s: seq<Item>) {
    forall i, j :: 0 <= i < j < |s| ==> Stamp(s[j]) <= Stamp(s[i])
  }

  /** The comparator calls every pair of items of `s` equal, in either order. */
  ghost predicate Ties(s: seq<Item>) {
    forall i, j :: 0 <= i < |s| && 0 <= j < |s| ==> Compare(s[i], s[j]) == 0
  }

  /** The comparator is a consistent comparator for the items of `s`, in the sense of
    * the ECMAScript definition of `Array.prototype.sort`: every call returns a Number that
    * is not `NaN`, every item equals itself, the sign flips when the arguments are
    * exchanged, and "equal" and "less" are transitive. */
  ghost predicate Consistent(s: seq<Item>) {
    && (forall i, j :: 0 <= i < |s| && 0 <= j < |s| ==> Comparator(s[i], s[j]).Some?)
    && (forall i :: 0 <= i < |s| ==> Compare(s[i], s[i]) == 0)
    && (forall i, j :: 0 <= i < |s| && 0 <= j < |s| ==>
          (Compare(s[i], s[j]) < 0 <==> Compare(s[j], s[i]) > 0))
    && (forall i, j, k :: 0 <= i < |s| && 0 <= j < |s| && 0 <= k < |s| ==>
          Compare(s[i], s[j]) == 0 && Compare(s[j], s[k]) == 0 ==> Compare(s[i], s[k]) == 0)
    && (forall i, j, k :: 0 <= i < |s| && 0 <= j < |s| && 0 <= k < |s| ==>
          Compare(s[i], s[j]) < 0 && Compare(s[j], s[k]) < 0 ==> Compare(s[i], s[k]) < 0)
  }

  /** What `ret.sort(...)` promises about its output `out` for the input `s` on an engine
    * that follows ECMAScript 2019 or later, where the sort is stable: a permutation; and,
    * when the comparator is consistent, which by `ConsistentCases` is when every item has
    * a truthy `addedAt`, newest first with the relative order of items with equal
    * `addedAt` kept. Otherwise the order is implementation-defined. */
  ghost predicate SortOutcome(s: seq<Item>, out: seq<Item>) {
    && multiset(out) == multiset(s)
    && (AllDated(s) ==> SortedDesc(out) && forall k :: WithAdded(out, k) == WithAdded(s, k))
  }

  /** On dated items the comparator is the difference of the timestamps. */
  lemma DatedConsistent(s: seq<Item>)
    requires AllDated(s)
    ensures Consistent(s)
  {
    forall i, j, k | 0 <= i < |s| && 0 <= j < |s| && 0 <= k < |s|
      ensures Compare(s[i], s[j]) < 0 && Compare(s[j], s[k]) < 0 ==> Compare(s[i], s[k]) < 0
    {
      assert Dated(s[i]) && Dated(s[j]) && Dated(s[k]);
    }
  }

  /** The comparator is consistent exactly when every item is dated: comparing an item
    * without a truthy `addedAt` with itself already returns `undefined`. */
  lemma ConsistentCases(s: seq<Item>)
    ensures Consistent(s) <==> AllDated(s)
  {
    if Consistent(s) {
      forall i | 0 <= i < |s| ensures Dated(s[i]) {
        assert Comparator(s[i], s[i]).Some?;
      }
    }
    if AllDated(s) {
      DatedConsistent(s);
    }
  }

  lemma PermutationKeepsDated(s: seq<Item>, out: seq<Item>)
    requires multiset(out) == multiset(s) && AllDated(s)
    ensures AllDated(out)
  {
    forall i | 0 <= i < |out| ensures Dated(out[i]) {
      assert out[i] in multiset(out);
      assert out[i] in s;
    }
  }

  /** The first `n` items are newest first. */
  ghost predicate SortedPrefix(s: seq<Item>, n: nat)
    requires n <= |s|
  {
    forall p, q :: 0 <= p < q < n ==> Stamp(s[q]) <= Stamp(s[p])
  }

  /** While the item at `j` moves towards the front of `s[..i + 1]`: the other items
    * there are newest first, and those behind it are strictly older than it. */
  ghost predicate Inserting(s: seq<Item>, i: nat, j: nat)
    requires j <= i < |s|
  {
    && (forall p, q :: 0 <= p < q <= i && p != j && q != j ==> Stamp(s[q]) <= Stamp(s[p]))
    && (forall q :: j < q <= i ==> Stamp(s[q]) < Stamp(s[j]))
  }

  lemma StartInserting(s: seq<Item>, i: nat)
    requires i < |s| && SortedPrefix(s, i)
    ensures Inserting(s, i, i)
  {
  }

  lemma StepInserting(s: seq<Item>, i: nat, j: nat)
    requires 0 < j <= i < |s| && AllDated(s) && Inserting(s, i, j)
    requires Compare(s[j - 1], s[j]) > 0
    ensures AllDated(Swapped(s, j)) && Inserting(Swapped(s, j), i, j - 1)
  {
  }

  lemma DoneInserting(s: seq<Item>, i: nat, j: nat)
    requires j <= i < |s| && AllDated(s) && Inserting(s, i, j)
    requires j == 0 || Compare(s[j - 1], s[j]) <= 0
    ensures SortedPrefix(s, i + 1)
  {
  }

  /** Swapping two neighbours the comparator orders keeps the items and the order within each timestamp. */
  lemma SwapKeepsItems(s: seq<Item>, j: nat)
    requires 0 < j < |s| && Compare(s[j - 1], s[j]) > 0
    ensures multiset(Swapped(s, j)) == multiset(s)
    ensures forall k :: WithAdded(Swapped(s, j), k) == WithAdded(s, k)
  {
    SwappedMultiset(s, j);
    forall k ensures WithAdded(Swapped(s, j), k) == WithAdded(s, k) {
      FilterSwapped(s, j, AddedIs(k));
    }
  }

  method SwapNeighbours(a: array<Item>, j: nat)
    requires 0 < j < a.Length
    modifies a
    ensures a[..] == Swapped(old(a[..]), j)
  {
    a[j - 1], a[j] := a[j], a[j - 1];
  }

  /** `ret.sort(...)`: an insertion sort by neighbour swaps, driven by the comparator.
    * Beyond what the language promises, this sort keeps the relative order of items with
    * equal `addedAt` on every input, because it only swaps neighbours whose `addedAt`
    * differ, and it leaves rows that all compare equal in their input order. */
  method SortByAddedAt(a: array<Item>)
    modifies a
    ensures SortOutcome(old(a[..]), a[..])
    ensures forall k :: WithAdded(a[..], k) == WithAdded(old(a[..]), k)
    ensures Ties(old(a[..])) ==> a[..] == old(a[..])
  {
    ghost var dated := AllDated(a[..]);
    ghost var ties := Ties(a[..]);
    var i := 0;
    while i < a.Length
      invariant 0 <= i <= a.Length
      invariant multiset(a[..]) == multiset(old(a[..]))
      invariant forall k :: WithAdded(a[..], k) == WithAdded(old(a[..]), k)
      invariant dated ==> AllDated(a[..]) && SortedPrefix(a[..], i)
      invariant ties ==> a[..] == old(a[..])
    {
      var j := i;
      if dated {
        StartInserting(a[..], i);
      }
      if ties && 0 < i {
        assert Compare(a[..][i - 1], a[..][i]) == 0;
      }
      while 0 < j && Compare(a[j - 1], a[j]) > 0
        invariant 0 <= j <= i
        invariant multiset(a[..]) == multiset(old(a[..]))
        invariant forall k :: WithAdded(a[..], k) == WithAdded(old(a[..]), k)
        invariant dated ==> AllDated(a[..]) && Inserting(a[..], i, j)
        invariant ties ==> a[..] == old(a[..]) && j == i && (0 < i ==> Compare(a[i - 1], a[i]) == 0)
      {
        ghost var before := a[..];
        SwapNeighbours(a, j);
        SwapKeepsItems(before, j);
        if dated {
          StepInserting(before, i, j);
        }
        j := j - 1;
      }
      if dated {
        DoneInserting(a[..], i, j);
      }
      i := i + 1;
    }
  }

  lemma WithAddedCons(s: seq<Item>, k: Option<int>)
    requires s != []
    ensures WithAdded(s, k) == if s[0].addedAt == k then [s[0]] + WithAdded(s[1..], k) else WithAdded(s[1..], k)
  {
  }

  /** Two newest-first permutations of each other start with the same timestamp. */
  lemma SameFirstStamp(r1: seq<Item>, r2: seq<Item>)
    requires r1 != [] && multiset(r1) == multiset(r2)
    requires SortedDesc(r1) && SortedDesc(r2)
    ensures r2 != [] && Stamp(r1[0]) == Stamp(r2[0])
  {
    assert r1[0] in multiset(r2);
    assert r2 != [];
    assert r2[0] in multiset(r1);
    assert r1[0] in r2 && r2[0] in r1;
  }

  /** Two newest-first, all-dated permutations of each other that agree on the order
    * within each timestamp start with the same item. */
  lemma SameFirst(r1: seq<Item>, r2: seq<Item>)
    requires r1 != [] && multiset(r1) == multiset(r2)
    requires AllDated(r1) && AllDated(r2)
    requires SortedDesc(r1) && SortedDesc(r2)
    requires forall k :: WithAdded(r1, k) == WithAdded(r2, k)
    ensures r2 != [] && r1[0] == r2[0]
  {
    SameFirstStamp(r1, r2);
    var k := r1[0].addedAt;
    WithAddedCons(r1, k);
    WithAddedCons(r2, k);
    assert r1[0] == WithAdded(r1, k)[0] == WithAdded(r2, k)[0] == r2[0];
  }

  lemma TailWithAdded(r: seq<Item>, k: Option<int>)
    requires r != []
    ensures WithAdded(r[1..], k) == if r[0].addedAt == k then WithAdded(r, k)[1..] else WithAdded(r, k)
  {
    WithAddedCons(r, k);
  }

  lemma SameTails(r1: seq<Item>, r2: seq<Item>)
    requires r1 != [] && r2 != [] && r1[0] == r2[0]
    requires multiset(r1) == multiset(r2)
    requires forall k :: WithAdded(r1, k) == WithAdded(r2, k)
    ensures multiset(r1[1..]) == multiset(r2[1..])
    ensures forall k :: WithAdded(r1[1..], k) == WithAdded(r2[1..], k)
  {
    assert r1 == [r1[0]] + r1[1..] && r2 == [r2[0]] + r2[1..];
    assert multiset(r1[1..]) == multiset(r1) - multiset{r1[0]};
    assert multiset(r2[1..]) == multiset(r2) - multiset{r2[0]};
    forall k ensures WithAdded(r1[1..], k) == WithAdded(r2[1..], k) {
      TailWithAdded(r1, k);
      TailWithAdded(r2, k);
    }
  }

  /** The sort's promise fixes its output when every item is dated: any two outputs
    * that are newest-first permutations keeping the order within each timestamp coincide. */
  lemma {:induction false} SortOutcomeUnique(r1: seq<Item>, r2: seq<Item>)
    requires multiset(r1) == multiset(r2)
    requires AllDated(r1) && AllDated(r2)
    requires SortedDesc(r1) && SortedDesc(r2)
    requires forall k :: WithAdded(r1, k) == WithAdded(r2, k)
    ensures r1 == r2
    decreases |r1|
  {
    if r1 == [] {
      assert |multiset(r2)| == 0;
    } else {
      SameFirst(r1, r2);
      SameTails(r1, r2);
      SortOutcomeUnique(r1[1..], r2[1..]);
      assert r1 == [r1[0]] + r1[1..] && r2 == [r2[0]] + r2[1..];
    }
  }

  /** Hence, for an input whose items are all dated, any two outputs the sort may give are equal. */
  lemma SortOutcomeDetermined(s: seq<Item>, r1: seq<Item>, r2: seq<Item>)
    requires Consistent(s) && SortOutcome(s, r1) && SortOutcome(s, r2)
    ensures r1 == r2
  {
    ConsistentCases(s);
    PermutationKeepsDated(s, r1);
    PermutationKeepsDated(s, r2);
    SortOutcomeUnique(r1, r2);
  }

  /** When no item has a truthy `addedAt`, the comparator calls every pair equal, so
    * `SortByAddedAt` leaves the rows in their input order. */
  lemma UndatedTie(s: seq<Item>)
    requires forall i :: 0 <= i < |s| ==> !Dated(s[i])
    ensures Ties(s)
  {
    forall i, j | 0 <= i < |s| && 0 <= j < |s| ensures Compare(s[i], s[j]) == 0 {
      assert !Dated(s[j]);
    }
  }

  /** The order V8's binary insertion sort leaves seven items in when the comparator
    * calls every pair involving an undated item equal (see `UndatedOrderIsFree`). */
  ghost function EngineOrder(s: seq<Item>): seq<Item>
    requires |s| == 7
  {
    Swapped(Swapped(Swapped(Swapped(s, 3), 6), 5), 4)
  }

  lemma EngineOrderMultiset(s: seq<Item>)
    requires |s| == 7
    ensures multiset(EngineOrder(s)) == multiset(s)
  {
    var s1 := Swapped(s, 3);
    var s2 := Swapped(s1, 6);
    var s3 := Swapped(s2, 5);
    SwappedMultiset(s, 3);
    SwappedMultiset(s1, 6);
    SwappedMultiset(s2, 5);
    SwappedMultiset(s3, 4);
  }

  lemma EngineOrderItems(s: seq<Item>)
    requires |s| == 7
    ensures EngineOrder(s) == [s[0], s[1], s[3], s[6], s[2], s[4], s[5]]
  {
  }

  /** With undated items the engine may reorder equal timestamps: for `addedAt` =
    * [undefined, undefined, 1, 5, undefined, 5, 5] a binary insertion sort puts the last
    * item dated 5 before the one dated 5 in front of it, and that order satisfies the promise. */
  lemma UndatedOrderIsFree(u0: Item, u1: Item, w2: Item, p3: Item, u4: Item, p5: Item, q6: Item)
    requires u0.addedAt.None? && u1.addedAt.None? && u4.addedAt.None?
    requires w2.addedAt == Some(1)
    requires p3.addedAt == p5.addedAt == q6.addedAt == Some(5)
    ensures SortOutcome([u0, u1, w2, p3, u4, p5, q6], [u0, u1, p3, q6, w2, u4, p5])
  {
    var s := [u0, u1, w2, p3, u4, p5, q6];
    assert !Dated(s[0]);
    EngineOrderMultiset(s);
    EngineOrderItems(s);
  }


}
