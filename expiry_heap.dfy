// The binary min-heap of expiry entries shared by TimedSet and TimedDict
// (data_types/timed.py keeps it in a Python list and drives it with heapq).
// The heap lives in a sequence with the usual index arithmetic: the parent of
// slot i > 0 is slot (i - 1) / 2.
module ExpiryHeap {

  /** One scheduled expiry `(expiry, seq, key)`. */
  datatype Entry<K> = Entry(expiry: int, serial: int, key: K)

  /** heapq's tuple order: by expiry, then by sequence number (sequence
      numbers are unique, so the key is never compared). */
  predicate Le<K>(a: Entry<K>, b: Entry<K>)
  {
    a.expiry < b.expiry || (a.expiry == b.expiry && a.serial <= b.serial)
  }

  function Parent(i: int): int requires i > 0 { (i - 1) / 2 }

  /** Every slot is ordered after its parent. */
  ghost predicate IsHeap<K>(h: seq<Entry<K>>)
  {
    forall i :: 0 < i < |h| ==> Le(h[Parent(i)], h[i])
  }

  /** The root of a heap is ordered before every slot. */
  lemma {:induction false} RootIsMin<K>(h: seq<Entry<K>>, i: int)
    requires IsHeap(h) && 0 <= i < |h|
    ensures Le(h[0], h[i])
    decreases i
  {
    if i > 0 {
      RootIsMin(h, Parent(i));
    }
  }

  /** Corollary used by the sweep: when the root is not due, nothing is. */
  lemma RootBoundsAll<K>(h: seq<Entry<K>>, now: int)
    requires IsHeap(h) && |h| > 0 && h[0].expiry > now
    ensures forall e :: e in h ==> e.expiry > now
  {
    forall e | e in h ensures e.expiry > now {
      var i :| 0 <= i < |h| && h[i] == e;
      RootIsMin(h, i);
    }
  }

  /** Exchanging two slots keeps the entries. */
  lemma SwapKeepsEntries<K>(r: seq<Entry<K>>, a: int, b: int)
    requires 0 <= a < |r| && 0 <= b < |r|
    ensures multiset(r[a := r[b]][b := r[a]]) == multiset(r)
    ensures |r[a := r[b]][b := r[a]]| == |r|
  {
    if a != b {
      var r1 := r[a := r[b]];
      assert multiset(r1) == multiset(r) - multiset{r[a]} + multiset{r[b]};
      var r2 := r1[b := r[a]];
      assert multiset(r2) == multiset(r1) - multiset{r1[b]} + multiset{r[a]};
    }
  }

  /** Heap order holds everywhere except between slot k and its parent. */
  ghost predicate HeapBelow<K>(r: seq<Entry<K>>, k: int)
  {
    forall i :: 0 < i < |r| && i != k ==> Le(r[Parent(i)], r[i])
  }

  /** While slot k moves up, its parent is still ordered before k's children. */
  ghost predicate BridgeUp<K>(r: seq<Entry<K>>, k: int)
  {
    k > 0 ==> forall i :: 0 < i < |r| && Parent(i) == k ==> Le(r[Parent(k)], r[i])
  }

  lemma SiftUpStep<K>(r: seq<Entry<K>>, k: int)
    requires 0 < k < |r|
    requires HeapBelow(r, k) && BridgeUp(r, k)
    requires !Le(r[Parent(k)], r[k])
    ensures HeapBelow(r[k := r[Parent(k)]][Parent(k) := r[k]], Parent(k))
    ensures BridgeUp(r[k := r[Parent(k)]][Parent(k) := r[k]], Parent(k))
  {
    var p := Parent(k);
    var r2 := r[k := r[p]][p := r[k]];
    assert r2[p] == r[k] && r2[k] == r[p];
    forall i | 0 < i < |r2| && i != p
      ensures Le(r2[Parent(i)], r2[i])
    {
      if i == k {
      } else if Parent(i) == k {
        assert Le(r[p], r[i]);
      } else if Parent(i) == p {
        assert Le(r[p], r[i]);
      } else {
        assert r2[i] == r[i];
        assert Parent(i) != k && Parent(i) != p;
      }
    }
    if p > 0 {
      forall i | 0 < i < |r2| && Parent(i) == p
        ensures Le(r2[Parent(p)], r2[i])
      {
        assert Parent(p) != k && Parent(p) != p;
        assert Le(r[Parent(p)], r[p]);
        if i != k {
          assert Le(r[p], r[i]);
        }
      }
    }
  }

  /** heapq.heappush: append, then move the new entry up while it is ordered
      before its parent. */
  method Push<K>(h: seq<Entry<K>>, e: Entry<K>) returns (r: seq<Entry<K>>)
    requires IsHeap(h)
    ensures IsHeap(r)
    ensures multiset(r) == multiset(h) + multiset{e}
    ensures |r| == |h| + 1
  {
    r := h + [e];
    var k := |h|;
    assert BridgeUp(r, k);
    while k > 0 && !Le(r[Parent(k)], r[k])
      invariant 0 <= k < |r| == |h| + 1
      invariant multiset(r) == multiset(h) + multiset{e}
      invariant HeapBelow(r, k)
      invariant BridgeUp(r, k)
      decreases k
    {
      var p := Parent(k);
      SiftUpStep(r, k);
      SwapKeepsEntries(r, k, p);
      r := r[k := r[p]][p := r[k]];
      k := p;
    }
  }

  /** Heap order holds everywhere except between slot k and its children. */
  ghost predicate HeapAbove<K>(r: seq<Entry<K>>, k: int)
  {
    forall i :: 0 < i < |r| && Parent(i) != k ==> Le(r[Parent(i)], r[i])
  }

  /** While slot k moves down, its parent is ordered before k's children. */
  ghost predicate BridgeDown<K>(r: seq<Entry<K>>, k: int)
  {
    k > 0 ==> forall i :: 0 < i < |r| && Parent(i) == k ==> Le(r[Parent(k)], r[i])
  }

  lemma SiftDownStep<K>(r: seq<Entry<K>>, k: int, c: int)
    requires 0 <= k < c < |r| && Parent(c) == k
    requires HeapAbove(r, k) && BridgeDown(r, k)
    requires forall i :: 0 < i < |r| && Parent(i) == k ==> Le(r[c], r[i])
    requires !Le(r[k], r[c])
    ensures HeapAbove(r[k := r[c]][c := r[k]], c)
    ensures BridgeDown(r[k := r[c]][c := r[k]], c)
  {
    var r2 := r[k := r[c]][c := r[k]];
    assert r2[k] == r[c] && r2[c] == r[k];
    forall i | 0 < i < |r2| && Parent(i) != c
      ensures Le(r2[Parent(i)], r2[i])
    {
      if i == c {
      } else if Parent(i) == k {
        assert Le(r[c], r[i]);
      } else if i == k {
        assert Le(r[Parent(k)], r[c]);
      } else {
        assert r2[i] == r[i];
      }
    }
    forall i | 0 < i < |r2| && Parent(i) == c
      ensures Le(r2[Parent(c)], r2[i])
    {
      assert i != k && i != c;
      assert Le(r[c], r[i]);
    }
  }

  /** The children of slot k are exactly slots 2k+1 and 2k+2. */
  lemma ChildrenOf(k: int, i: int)
    requires k >= 0 && i > 0
    ensures Parent(i) == k <==> (i == 2 * k + 1 || i == 2 * k + 2)
  {
  }

  lemma SiftDownDone<K>(r: seq<Entry<K>>, k: int)
    requires 0 <= k < |r|
    requires HeapAbove(r, k)
    requires forall i :: 0 < i < |r| && Parent(i) == k ==> Le(r[k], r[i])
    ensures IsHeap(r)
  {
  }

  /** Moving the last entry to the root leaves a heap except below the root. */
  lemma PopStart<K>(h: seq<Entry<K>>, r: seq<Entry<K>>)
    requires IsHeap(h) && |h| > 1
    requires r == [h[|h| - 1]] + h[1..|h| - 1]
    ensures multiset(r) + multiset{h[0]} == multiset(h)
    ensures HeapAbove(r, 0) && BridgeDown(r, 0)
  {
    var n := |h| - 1;
    assert h == [h[0]] + h[1..n] + [h[n]];
    assert multiset(h) == multiset{h[0]} + multiset(h[1..n]) + multiset{h[n]};
    forall i | 0 < i < |r| && Parent(i) != 0
      ensures Le(r[Parent(i)], r[i])
    {
      assert r[i] == h[i] && r[Parent(i)] == h[Parent(i)];
    }
  }

  /** Picks the child of slot k that is ordered first, if k has children. */
  lemma SmallestChild<K>(r: seq<Entry<K>>, k: int, c: int)
    requires 0 <= k && c == 2 * k + 1 && c < |r|
    ensures c + 1 < |r| && !Le(r[c], r[c + 1]) ==>
      forall i :: 0 < i < |r| && Parent(i) == k ==> Le(r[c + 1], r[i])
    ensures !(c + 1 < |r| && !Le(r[c], r[c + 1])) ==>
      forall i :: 0 < i < |r| && Parent(i) == k ==> Le(r[c], r[i])
    ensures Parent(c) == k && (c + 1 < |r| ==> Parent(c + 1) == k)
  {
    forall i | 0 < i < |r| && Parent(i) == k ensures i == c || i == c + 1 { ChildrenOf(k, i); }
    ChildrenOf(k, c);
    ChildrenOf(k, c + 1);
  }

  /** The child of slot k that SiftDown moves up: the right one only when the left is not ordered before it. */
  function SmallerChild<K>(r: seq<Entry<K>>, k: int): (c: int)
    requires 0 <= k && 2 * k + 1 < |r|
    ensures k < c < |r| && Parent(c) == k
    ensures forall i :: 0 < i < |r| && Parent(i) == k ==> Le(r[c], r[i])
  {
    SmallestChild(r, k, 2 * k + 1);
    if 2 * k + 2 < |r| && !Le(r[2 * k + 1], r[2 * k + 2]) then 2 * k + 2 else 2 * k + 1
  }

  lemma Leaf<K>(r: seq<Entry<K>>, k: int)
    requires 0 <= k && 2 * k + 1 >= |r|
    ensures forall i :: 0 < i < |r| ==> Parent(i) != k
  {
    forall i | 0 < i < |r| ensures Parent(i) != k { ChildrenOf(k, i); }
  }

  /** Moves slot k down until neither child is ordered before it. */
  method SiftDown<K>(r0: seq<Entry<K>>, k0: int) returns (r: seq<Entry<K>>)
    requires 0 <= k0 < |r0|
    requires HeapAbove(r0, k0) && BridgeDown(r0, k0)
    ensures IsHeap(r)
    ensures multiset(r) == multiset(r0) && |r| == |r0|
  {
    r := r0;
    var k := k0;
    while true
      invariant 0 <= k < |r| == |r0|
      invariant multiset(r) == multiset(r0)
      invariant HeapAbove(r, k)
      invariant BridgeDown(r, k)
      decreases |r| - k
    {
      var c := 2 * k + 1;
      if c >= |r| {
        Leaf(r, k);
        SiftDownDone(r, k);
        return;
      }
      c := SmallerChild(r, k);
      if Le(r[k], r[c]) {
        SiftDownDone(r, k);
        return;
      }
      SiftDownStep(r, k, c);
      SwapKeepsEntries(r, k, c);
      r := r[k := r[c]][c := r[k]];
      k := c;
    }
  }

  /** heapq.heappop: the root leaves, the last entry takes its place and
      moves down towards the smaller child while a child is ordered before it. */
  method PopMin<K>(h: seq<Entry<K>>) returns (m: Entry<K>, r: seq<Entry<K>>)
    requires IsHeap(h) && |h| > 0
    ensures m == h[0]
    ensures IsHeap(r)
    ensures multiset(r) + multiset{m} == multiset(h)
    ensures |r| == |h| - 1
  {
    m := h[0];
    var n := |h| - 1;
    if n == 0 {
      r := [];
      assert h == [m];
      return;
    }
    var moved := [h[n]] + h[1..n];
    PopStart(h, moved);
    r := SiftDown(moved, 0);
  }

  /** heapq.heapify: rearranges entries into heap order. Modelled by pushing
      the entries one at a time; the result is a heap of the same entries. */
  method Heapify<K>(s: seq<Entry<K>>) returns (r: seq<Entry<K>>)
    ensures IsHeap(r)
    ensures multiset(r) == multiset(s)
  {
    r := [];
    var i := 0;
    while i < |s|
      invariant 0 <= i <= |s|
      invariant IsHeap(r)
      invariant multiset(r) == multiset(s[..i])
    {
      r := Push(r, s[i]);
      assert s[..i + 1] == s[..i] + [s[i]];
      i := i + 1;
    }
    assert s[..|s|] == s;
  }

  /** Pushes a batch of entries one at a time (the source's small-batch path). */
  method PushAll<K>(h: seq<Entry<K>>, es: seq<Entry<K>>) returns (r: seq<Entry<K>>)
    requires IsHeap(h)
    ensures IsHeap(r)
    ensures multiset(r) == multiset(h) + multiset(es)
  {
    r := h;
    var i := 0;
    while i < |es|
      invariant 0 <= i <= |es|
      invariant IsHeap(r)
      invariant multiset(r) == multiset(h) + multiset(es[..i])
    {
      r := Push(r, es[i]);
      assert es[..i + 1] == es[..i] + [es[i]];
      i := i + 1;
    }
    assert es[..|es|] == es;
  }

  // ---------------------------------------------------------------------
  // Views of the heap used by the containers' invariants.

  /** `k` still has a pending entry that is not older than `lo`. */
  ghost predicate Covered<K>(h: seq<Entry<K>>, k: K, lo: int)
  {
    exists e :: e in h && e.key == k && e.expiry >= lo
  }

  /** `d` is the earliest pending expiry of `k` that is not older than `lo`:
      with a timestamp `ts`, the first entry popped at or after `ts + T`,
      which is the one whose sweep deletes the key. */
  ghost predicate IsDeadline<K>(h: seq<Entry<K>>, k: K, lo: int, d: int)
  {
    d >= lo
    && (exists e :: e in h && e.key == k && e.expiry == d)
    && (forall e :: e in h && e.key == k && e.expiry >= lo ==> d <= e.expiry)
  }

  /** The keys that have at least one entry due at `now`. */
  ghost function DueKeys<K>(h: seq<Entry<K>>, now: int): set<K>
  {
    set e | e in h && e.expiry <= now :: e.key
  }

  /** The largest sequence number in the heap is at most `n`. */
  ghost predicate SeqsAtMost<K>(h: seq<Entry<K>>, n: int)
  {
    forall e :: e in h ==> 1 <= e.serial <= n
  }

  /** A heap whose entries are a subset of another keeps every deadline
      whose witnessing entry it still holds. */
  lemma DeadlineKept<K>(old_h: seq<Entry<K>>, h: seq<Entry<K>>, k: K, lo: int, d: int)
    requires IsDeadline(old_h, k, lo, d)
    requires forall e :: e in h ==> e in old_h
    requires exists e :: e in h && e.key == k && e.expiry == d
    ensures IsDeadline(h, k, lo, d)
  {
  }

  /** Computes the earliest pending expiry of `k` not older than `lo`
      (the corrected from-scratch rebuild carries it over to the new heap). */
  method DeadlineOf<K(==)>(h: seq<Entry<K>>, k: K, lo: int) returns (d: int)
    requires Covered(h, k, lo)
    ensures IsDeadline(h, k, lo, d)
  {
    var found := false;
    d := 0;
    var i := 0;
    while i < |h|
      invariant 0 <= i <= |h|
      invariant found ==> d >= lo && exists j :: 0 <= j < i && h[j].key == k && h[j].expiry == d
      invariant !found ==> forall j :: 0 <= j < i ==> !(h[j].key == k && h[j].expiry >= lo)
      invariant found ==> forall j :: 0 <= j < i && h[j].key == k && h[j].expiry >= lo ==> d <= h[j].expiry
    {
      if h[i].key == k && h[i].expiry >= lo && (!found || h[i].expiry < d) {
        d := h[i].expiry;
        found := true;
      }
      i := i + 1;
    }
    ghost var e :| e in h && e.key == k && e.expiry >= lo;
    ghost var w :| 0 <= w < |h| && h[w] == e;
    assert h[w].key == k && h[w].expiry >= lo;
    var j :| 0 <= j < |h| && h[j].key == k && h[j].expiry == d;
    assert h[j] in h;
  }
}
