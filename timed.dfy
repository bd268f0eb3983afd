// data_types/timed.py: TimedSet and TimedDict, containers whose members
// expire a fixed time after they were last added.
//
// Each container keeps a map from key to insertion timestamp and a binary
// min-heap of `(expiry, seq, key)` entries. Expiry is lazy about the heap:
// refreshing a key pushes a new entry and leaves the old one in place, and
// a popped entry deletes its key only if the key's stored timestamp is old
// enough. The clock is the explicit parameter `now`; the source's worker
// thread becomes the explicit method `Sweep(now)`.
module Timed {
  import opened Common
  import opened ExpiryHeap

  // Tuning constants of both containers (timed.py:90-93 and 579-582).
  const CleanupThreshold: int := 1000
  const CleanupRatio: int := 2
  const HeapSizeLimit: int := 100000
  const SmallHeap: int := 1000
  const SmallBatch: int := 10

  function Max(a: int, b: int): int { if a >= b then a else b }
  function Min(a: int, b: int): int { if a <= b then a else b }

  /** `max(1000, min(int(n * 0.1), 100000 // 10))`; for a count `n`,
      `int(n * 0.1)` is `n / 10`. */
  function AdaptiveThreshold(n: nat): (r: int)
    ensures CleanupThreshold <= r <= HeapSizeLimit / 10
    ensures n <= 10 * CleanupThreshold ==> r == CleanupThreshold
  {
    Max(CleanupThreshold, Min(n / 10, HeapSizeLimit / 10))
  }

  /** The constructor's check: a non-positive expiration time raises
      ValueError (timed.py:71-72 and 560-561). */
  function CheckExpiration(ttl: int): (r: Result<int>)
    ensures r.Ok? <==> ttl > 0
    ensures r.Ok? ==> r.value == ttl
  {
    if ttl <= 0 then Err("Expiration time must be positive") else Ok(ttl)
  }

  // ---------------------------------------------------------------------
  // Invariants shared by both containers.

  /** Every stored key still has a pending heap entry at or after its
      timestamp plus the expiration time, so some later sweep removes it. */
  ghost predicate CoversAll<K>(stamps: map<K, int>, h: seq<Entry<K>>, ttl: int)
  {
    forall k :: k in stamps ==> Covered(h, k, stamps[k] + ttl)
  }

  /** `d` is the deadline of the stored key `k`: the earliest pending
      expiry at or after its timestamp plus the expiration time. */
  ghost predicate KeyDeadline<K>(stamps: map<K, int>, h: seq<Entry<K>>, ttl: int, k: K, d: int)
  {
    k in stamps && IsDeadline(h, k, stamps[k] + ttl, d)
  }

  /** Every stored key keeps the deadline it had in `before`. */
  ghost predicate DeadlinesKept<K(!new)>(stamps: map<K, int>, before: seq<Entry<K>>, after: seq<Entry<K>>, ttl: int)
  {
    forall k, d :: KeyDeadline(stamps, before, ttl, k, d) ==> KeyDeadline(stamps, after, ttl, k, d)
  }

  /** Every entry of `a` is an entry of `b`. */
  ghost predicate Within<K>(a: seq<Entry<K>>, b: seq<Entry<K>>)
  {
    forall e :: e in a ==> e in b
  }

  lemma DeadlineUnique<K>(h: seq<Entry<K>>, k: K, lo: int, d1: int, d2: int)
    requires IsDeadline(h, k, lo, d1) && IsDeadline(h, k, lo, d2)
    ensures d1 == d2
  {
    var e1 :| e1 in h && e1.key == k && e1.expiry == d1;
    var e2 :| e2 in h && e2.key == k && e2.expiry == d2;
  }

  /** The entries of a heap built from two parts are those of the parts. */
  lemma MultisetParts<K>(r: seq<Entry<K>>, h: seq<Entry<K>>, es: seq<Entry<K>>)
    requires multiset(r) == multiset(h) + multiset(es)
    ensures forall e :: e in r <==> e in h || e in es
  {
    forall e ensures e in r <==> e in h || e in es {
      assert e in r <==> e in multiset(r);
      assert e in h <==> e in multiset(h);
      assert e in es <==> e in multiset(es);
    }
  }

  /** A heap holding more entries still covers every key. */
  lemma CoverGrow<K>(stamps: map<K, int>, h: seq<Entry<K>>, r: seq<Entry<K>>, ttl: int)
    requires CoversAll(stamps, h, ttl) && Within(h, r)
    ensures CoversAll(stamps, r, ttl)
  {
    forall k | k in stamps ensures Covered(r, k, stamps[k] + ttl) {
      var e :| e in h && e.key == k && e.expiry >= stamps[k] + ttl;
      assert e in r;
    }
  }

  /** The keys of some entries. */
  ghost function KeysOf<K>(s: seq<Entry<K>>): set<K>
  {
    set e | e in s :: e.key
  }

  /** The keys a sweep at `now` deletes: those with an entry due and a
      timestamp at least the expiration time old. */
  ghost function ExpiredKeys<K>(stamps: map<K, int>, h: seq<Entry<K>>, ttl: int, now: int): set<K>
  {
    set k | k in stamps && k in DueKeys(h, now) && stamps[k] <= now - ttl
  }

  // ---------------------------------------------------------------------
  // The pop-while loop of `_remove_expired_items` / `_remove_expired_entries`
  // (timed.py:141-149 and 630-641).

  /** Pops every entry due at `now` and reports which stored keys to delete
      and how many entries were popped. */
  method PopDue<K(==)>(stamps: map<K, int>, h: seq<Entry<K>>, ttl: int, now: int)
    returns (rest: seq<Entry<K>>, dead: set<K>, pops: nat)
    requires IsHeap(h)
    ensures IsHeap(rest)
    ensures forall e :: e in rest <==> e in h && e.expiry > now
    ensures pops == |h| - |rest|
    ensures dead == ExpiredKeys(stamps, h, ttl, now)
  {
    rest := h;
    dead := {};
    pops := 0;
    ghost var popped: seq<Entry<K>> := [];
    while |rest| > 0 && rest[0].expiry <= now
      invariant IsHeap(rest)
      invariant multiset(h) == multiset(rest) + multiset(popped)
      invariant forall e :: e in popped ==> e.expiry <= now
      invariant pops == |popped| && |rest| + |popped| == |h|
      invariant dead == set k | k in stamps && k in KeysOf(popped) && stamps[k] <= now - ttl
      decreases |rest|
    {
      var m;
      m, rest := PopMin(rest);
      // Only the key's current timestamp decides, so a stale entry of a
      // re-added key never deletes it.
      if m.key in stamps && m.key !in dead && stamps[m.key] <= now - ttl {
        dead := dead + {m.key};
      }
      assert KeysOf(popped + [m]) == KeysOf(popped) + {m.key} by {
        assert forall e :: e in popped + [m] <==> e in popped || e == m;
      }
      popped := popped + [m];
      pops := pops + 1;
    }
    if |rest| > 0 {
      RootBoundsAll(rest, now);
    }
    MultisetParts(h, rest, popped);
    assert KeysOf(popped) == DueKeys(h, now);
  }

  /** The keys that survive a sweep keep a covering entry, keep their
      deadline, and that deadline lies after the sweep. */
  lemma SweepKeeps<K(!new)>(stamps: map<K, int>, h: seq<Entry<K>>, rest: seq<Entry<K>>, ttl: int, now: int)
    requires forall e :: e in rest <==> e in h && e.expiry > now
    requires CoversAll(stamps, h, ttl)
    ensures CoversAll(stamps - ExpiredKeys(stamps, h, ttl, now), rest, ttl)
    ensures DeadlinesKept(stamps - ExpiredKeys(stamps, h, ttl, now), h, rest, ttl)
    ensures forall k, d :: KeyDeadline(stamps - ExpiredKeys(stamps, h, ttl, now), h, ttl, k, d) ==> d > now
  {
    var live := stamps - ExpiredKeys(stamps, h, ttl, now);
    forall k | k in live ensures Covered(rest, k, live[k] + ttl) {
      var e :| e in h && e.key == k && e.expiry >= stamps[k] + ttl;
      assert e in rest;
    }
    forall k, d | KeyDeadline(live, h, ttl, k, d) ensures d > now && KeyDeadline(live, rest, ttl, k, d) {
      var e :| e in h && e.key == k && e.expiry == d;
      assert e in rest;
    }
  }

  /** A stored key whose deadline has passed is deleted by the sweep. */
  lemma SweepReachesDeadline<K>(stamps: map<K, int>, h: seq<Entry<K>>, ttl: int, now: int, k: K, d: int)
    requires KeyDeadline(stamps, h, ttl, k, d) && d <= now
    ensures k in ExpiredKeys(stamps, h, ttl, now)
  {
    var e :| e in h && e.key == k && e.expiry == d;
    assert k in DueKeys(h, now);
  }

  /** No sweep deletes a key before its timestamp is the expiration time
      old, whatever stale entries it still has in the heap. */
  lemma NoExpiryBeforeTtl<K>(stamps: map<K, int>, h: seq<Entry<K>>, ttl: int, now: int, k: K)
    requires k in stamps && now < stamps[k] + ttl
    ensures k !in ExpiredKeys(stamps, h, ttl, now)
  {
  }

  // ---------------------------------------------------------------------
  // `_rebuild_expiration_heap` (timed.py:161-220 and 653-711).

  /** The entries whose key is in `keys`, in their original order. */
  function KeepKeys<K>(h: seq<Entry<K>>, keys: set<K>): (r: seq<Entry<K>>)
    ensures |r| <= |h|
  {
    if h == [] then []
    else KeepKeys(h[..|h| - 1], keys) + (if h[|h| - 1].key in keys then [h[|h| - 1]] else [])
  }

  /** The filter keeps exactly the entries of live keys. */
  lemma {:induction false} KeepKeysMembers<K>(h: seq<Entry<K>>, keys: set<K>)
    ensures forall e :: e in KeepKeys(h, keys) <==> e in h && e.key in keys
    decreases |h|
  {
    if h != [] {
      var init := h[..|h| - 1];
      KeepKeysMembers(init, keys);
      assert h == init + [h[|h| - 1]];
    }
  }

  /** The source's two-pointer compaction: entries of live keys are moved
      down over the others, then the tail is cut off. */
  method FilterInPlace<K>(h: seq<Entry<K>>, keys: set<K>) returns (r: seq<Entry<K>>)
    ensures r == KeepKeys(h, keys)
  {
    var a := h;
    var i, w := 0, 0;
    while i < |a|
      invariant 0 <= w <= i <= |a| == |h|
      invariant a[..w] == KeepKeys(h[..i], keys)
      invariant forall j :: i <= j < |a| ==> a[j] == h[j]
    {
      var entry := a[i];
      assert h[..i + 1][..i] == h[..i];
      if entry.key in keys {
        if i != w {
          a := a[w := entry];
        }
        w := w + 1;
      }
      i := i + 1;
    }
    assert h[..|h|] == h;
    if w < |a| {
      a := a[..w];
    }
    r := a;
  }

  /** One fresh entry per stored key, at its deadline, numbered after `counter`. */
  ghost predicate FreshFor<K>(stamps: map<K, int>, h: seq<Entry<K>>, ttl: int, counter: int, e: Entry<K>)
  {
    e.key in stamps && counter < e.serial && IsDeadline(h, e.key, stamps[e.key] + ttl, e.expiry)
  }

  /** The from-scratch path with the deadline carried over: one fresh entry
      per stored key, at the earliest pending expiry that would delete it. */
  method FreshEntries<K(==)>(stamps: map<K, int>, h: seq<Entry<K>>, ttl: int, counter: int)
    returns (es: seq<Entry<K>>, c: int)
    requires CoversAll(stamps, h, ttl)
    ensures c == counter + |stamps| && |es| == |stamps|
    ensures forall e :: e in es ==> FreshFor(stamps, h, ttl, counter, e) && e.serial <= c
    ensures stamps.Keys <= KeysOf(es)
  {
    es := [];
    c := counter;
    var todo := stamps.Keys;
    while todo != {}
      invariant todo <= stamps.Keys
      invariant |es| + |todo| == |stamps| && c == counter + |es|
      invariant forall e :: e in es ==> FreshFor(stamps, h, ttl, counter, e) && e.serial <= c
      invariant stamps.Keys - todo <= KeysOf(es)
      decreases |todo|
    {
      var k :| k in todo;
      var d := DeadlineOf(h, k, stamps[k] + ttl);
      c := c + 1;
      var e := Entry(d, c, k);
      assert KeysOf(es + [e]) == KeysOf(es) + {k} by {
        assert forall x :: x in es + [e] <==> x in es || x == e;
      }
      es := es + [e];
      todo := todo - {k};
    }
  }

  /** A heap made of the fresh entries keeps every stored key's deadline. */
  lemma FreshKeeps<K(!new)>(stamps: map<K, int>, h: seq<Entry<K>>, ttl: int, counter: int, es: seq<Entry<K>>, h2: seq<Entry<K>>)
    requires forall e :: e in es ==> FreshFor(stamps, h, ttl, counter, e)
    requires stamps.Keys <= KeysOf(es)
    requires forall e :: e in h2 <==> e in es
    ensures CoversAll(stamps, h2, ttl)
    ensures DeadlinesKept(stamps, h, h2, ttl)
    ensures forall e :: e in h2 ==> e.key in stamps
  {
    forall k, d | KeyDeadline(stamps, h, ttl, k, d) ensures KeyDeadline(stamps, h2, ttl, k, d) {
      var e :| e in es && e.key == k;
      DeadlineUnique(h, k, stamps[k] + ttl, d, e.expiry);
      forall x | x in h2 && x.key == k ensures x.expiry == d {
        DeadlineUnique(h, k, stamps[k] + ttl, d, x.expiry);
      }
    }
    forall k | k in stamps ensures Covered(h2, k, stamps[k] + ttl) {
      var e :| e in es && e.key == k;
    }
  }

  /** A heap of the entries of stored keys keeps every deadline. */
  lemma FilterKeeps<K(!new)>(stamps: map<K, int>, h: seq<Entry<K>>, ttl: int, h2: seq<Entry<K>>)
    requires CoversAll(stamps, h, ttl)
    requires forall e :: e in h2 <==> e in h && e.key in stamps
    ensures CoversAll(stamps, h2, ttl)
    ensures DeadlinesKept(stamps, h, h2, ttl)
  {
    forall k | k in stamps ensures Covered(h2, k, stamps[k] + ttl) {
      var e :| e in h && e.key == k && e.expiry >= stamps[k] + ttl;
      assert e in h2;
    }
    forall k, d | KeyDeadline(stamps, h, ttl, k, d) ensures KeyDeadline(stamps, h2, ttl, k, d) {
      var e :| e in h && e.key == k && e.expiry == d;
      assert e in h2;
    }
  }

  /** The source's from-scratch path as written: only keys whose
      `timestamp + T` lies after `now` get an entry, at `timestamp + T`. */
  function FreshEntriesAsWritten<K>(pairs: seq<(K, int)>, ttl: int, now: int, counter: int): (r: seq<Entry<K>>)
    ensures forall e :: e in r ==> e.expiry > now
  {
    if pairs == [] then []
    else
      var (k, ts) := pairs[0];
      if ts + ttl > now then [Entry(ts + ttl, counter + 1, k)] + FreshEntriesAsWritten(pairs[1..], ttl, now, counter + 1)
      else FreshEntriesAsWritten(pairs[1..], ttl, now, counter)
  }

  /** A key without any heap entry is never deleted by a sweep. */
  lemma UncoveredNeverExpires<K>(stamps: map<K, int>, h: seq<Entry<K>>, ttl: int, k: K)
    requires forall e :: e in h ==> e.key != k
    ensures forall now :: k !in ExpiredKeys(stamps, h, ttl, now)
  {
  }

  /** An extended key (stored at 5 with T = 10, its only pending entry due at
      115) loses its entry when a from-scratch rebuild runs at 20, so no
      later sweep ever removes it. */
  lemma RebuildAsWrittenLosesKey()
    ensures FreshEntriesAsWritten([("a", 5)], 10, 20, 2) == []
    ensures Covered([Entry(115, 2, "a")], "a", 5 + 10)
    ensures forall now :: "a" !in ExpiredKeys(map["a" := 5], FreshEntriesAsWritten([("a", 5)], 10, 20, 2), 10, now)
  {
    assert Entry(115, 2, "a") in [Entry(115, 2, "a")];
    UncoveredNeverExpires(map["a" := 5], FreshEntriesAsWritten([("a", 5)], 10, 20, 2), 10, "a");
  }

  /** The whole rebuild: decides whether to rebuild at all, then rebuilds
      from scratch or by filtering, and restarts the stale-entry count. */
  method RebuildHeap<K(==,!new)>(stamps: map<K, int>, h: seq<Entry<K>>, ttl: int, counter: int, stale: int, now: int)
    returns (h2: seq<Entry<K>>, counter2: int, stale2: int)
    requires IsHeap(h) && SeqsAtMost(h, counter) && counter >= 0
    requires CoversAll(stamps, h, ttl)
    ensures IsHeap(h2) && SeqsAtMost(h2, counter2) && counter2 >= counter
    ensures CoversAll(stamps, h2, ttl)
    ensures DeadlinesKept(stamps, h, h2, ttl)
    ensures stale <= AdaptiveThreshold(|stamps|) && |h| <= |stamps| * CleanupRatio
      ==> h2 == h && counter2 == counter && stale2 == stale
    ensures !(stale <= AdaptiveThreshold(|stamps|) && |h| <= |stamps| * CleanupRatio)
      ==> stale2 == 0 && forall e :: e in h2 ==> e.key in stamps
  {
    var heapSize := |h|;
    var size := |stamps|;
    if stale <= AdaptiveThreshold(size) && heapSize <= size * CleanupRatio {
      return h, counter, stale;
    }
    if heapSize < SmallHeap || heapSize > size * 3 || heapSize > HeapSizeLimit {
      var es;
      es, counter2 := FreshEntries(stamps, h, ttl, counter);
      h2 := Heapify(es);
      MultisetParts(h2, es, []);
      FreshKeeps(stamps, h, ttl, counter, es, h2);
    } else {
      var kept := FilterInPlace(h, stamps.Keys);
      KeepKeysMembers(h, stamps.Keys);
      h2 := Heapify(kept);
      MultisetParts(h2, kept, []);
      FilterKeeps(stamps, h, ttl, h2);
      counter2 := counter;
    }
    stale2 := 0;
  }

  // ---------------------------------------------------------------------
  // Entries pushed by `add`, `__setitem__`, `update` and `extend`.

  /** The entries `(expiry, base + i + 1, ks[i])` for a batch of keys. */
  function BatchEntries<K>(ks: seq<K>, expiry: int, base: int): (r: seq<Entry<K>>)
    ensures |r| == |ks|
  {
    if ks == [] then [] else [Entry(expiry, base + 1, ks[0])] + BatchEntries(ks[1..], expiry, base + 1)
  }

  /** The `i`-th entry of a batch is `(expiry, base + i + 1, ks[i])`. */
  lemma {:induction false} BatchEntriesAt<K>(ks: seq<K>, expiry: int, base: int, i: int)
    requires 0 <= i < |ks|
    ensures BatchEntries(ks, expiry, base)[i] == Entry(expiry, base + i + 1, ks[i])
    decreases i
  {
    if i > 0 {
      BatchEntriesAt(ks[1..], expiry, base + 1, i - 1);
    }
  }

  /** The timestamps after each key of `ks` is stored at `now`. */
  function Restamp<K>(m: map<K, int>, ks: seq<K>, now: int): map<K, int>
  {
    if ks == [] then m
    else Restamp(m, ks[..|ks| - 1], now)[ks[|ks| - 1] := now]
  }

  /** Restamping stores exactly the old keys and the batch's keys; the
      batch's keys carry `now` and the others keep their timestamp. */
  lemma {:induction false} RestampMembers<K>(m: map<K, int>, ks: seq<K>, now: int, k: K)
    ensures k in Restamp(m, ks, now) <==> k in m || k in ks
    ensures k in Restamp(m, ks, now) ==> Restamp(m, ks, now)[k] == if k in ks then now else m[k]
    decreases |ks|
  {
    if ks != [] {
      var init := ks[..|ks| - 1];
      RestampMembers(m, init, now, k);
      assert ks == init + [ks[|ks| - 1]];
    }
  }

  lemma BatchStep<K>(ks: seq<K>, expiry: int, base: int, i: int, es: seq<Entry<K>>)
    requires 0 <= i < |ks| && es == BatchEntries(ks[..i], expiry, base)
    ensures BatchEntries(ks[..i + 1], expiry, base) == es + [Entry(expiry, base + i + 1, ks[i])]
  {
    var r := BatchEntries(ks[..i + 1], expiry, base);
    forall j | 0 <= j <= i ensures r[j] == (es + [Entry(expiry, base + i + 1, ks[i])])[j] {
      BatchEntriesAt(ks[..i + 1], expiry, base, j);
      if j < i {
        BatchEntriesAt(ks[..i], expiry, base, j);
      }
    }
  }

  /** Pushes a batch the way `add` and `update` do: one push at a time for at
      most ten entries, otherwise append and re-heapify. */
  method PushBatch<K>(h: seq<Entry<K>>, es: seq<Entry<K>>) returns (r: seq<Entry<K>>)
    requires IsHeap(h)
    ensures IsHeap(r)
    ensures multiset(r) == multiset(h) + multiset(es)
  {
    if |es| <= SmallBatch {
      r := PushAll(h, es);
    } else {
      r := Heapify(h + es);
    }
  }

  /** An entry exactly at the lower bound is the key's deadline. */
  lemma DeadlineAtBound<K>(r: seq<Entry<K>>, e: Entry<K>)
    requires e in r
    ensures IsDeadline(r, e.key, e.expiry, e.expiry)
  {
  }

  /** Pushing a batch stamped `now` keeps every key covered and gives each
      key of the batch the deadline `now + T`. */
  lemma BatchKeeps<K(!new)>(stamps: map<K, int>, h: seq<Entry<K>>, ttl: int, base: int, ks: seq<K>, now: int, r: seq<Entry<K>>)
    requires CoversAll(stamps, h, ttl) && SeqsAtMost(h, base) && base >= 0
    requires multiset(r) == multiset(h) + multiset(BatchEntries(ks, now + ttl, base))
    ensures CoversAll(Restamp(stamps, ks, now), r, ttl)
    ensures SeqsAtMost(r, base + |ks|)
    ensures forall k :: k in ks ==> KeyDeadline(Restamp(stamps, ks, now), r, ttl, k, now + ttl)
  {
    var es := BatchEntries(ks, now + ttl, base);
    BatchDeadlines(stamps, h, ttl, base, ks, now, r, es);
    BatchCovers(stamps, h, ttl, base, ks, now, r, es);
    BatchSerials(h, ttl, base, ks, now, r, es);
  }

  lemma BatchDeadlines<K(!new)>(stamps: map<K, int>, h: seq<Entry<K>>, ttl: int, base: int, ks: seq<K>, now: int, r: seq<Entry<K>>, es: seq<Entry<K>>)
    requires es == BatchEntries(ks, now + ttl, base)
    requires multiset(r) == multiset(h) + multiset(es)
    ensures forall k :: k in ks ==> KeyDeadline(Restamp(stamps, ks, now), r, ttl, k, now + ttl)
  {
    MultisetParts(r, h, es);
    var stamps2 := Restamp(stamps, ks, now);
    forall k | k in ks ensures KeyDeadline(stamps2, r, ttl, k, now + ttl) {
      RestampMembers(stamps, ks, now, k);
      var i :| 0 <= i < |ks| && ks[i] == k;
      BatchEntriesAt(ks, now + ttl, base, i);
      assert es[i] in es;
      DeadlineAtBound(r, es[i]);
    }
  }

  lemma BatchCovers<K(!new)>(stamps: map<K, int>, h: seq<Entry<K>>, ttl: int, base: int, ks: seq<K>, now: int, r: seq<Entry<K>>, es: seq<Entry<K>>)
    requires CoversAll(stamps, h, ttl)
    requires es == BatchEntries(ks, now + ttl, base)
    requires multiset(r) == multiset(h) + multiset(es)
    ensures CoversAll(Restamp(stamps, ks, now), r, ttl)
  {
    MultisetParts(r, h, es);
    CoverGrow(stamps, h, r, ttl);
    var stamps2 := Restamp(stamps, ks, now);
    forall k | k in stamps2 ensures Covered(r, k, stamps2[k] + ttl) {
      RestampMembers(stamps, ks, now, k);
      if k in ks {
        var i :| 0 <= i < |ks| && ks[i] == k;
        BatchEntriesAt(ks, now + ttl, base, i);
        assert es[i] in es;
      }
    }
  }

  lemma BatchSerials<K>(h: seq<Entry<K>>, ttl: int, base: int, ks: seq<K>, now: int, r: seq<Entry<K>>, es: seq<Entry<K>>)
    requires SeqsAtMost(h, base) && base >= 0
    requires es == BatchEntries(ks, now + ttl, base)
    requires multiset(r) == multiset(h) + multiset(es)
    ensures SeqsAtMost(r, base + |ks|)
  {
    MultisetParts(r, h, es);
    forall e | e in r ensures 1 <= e.serial <= base + |ks| {
      if e in es {
        var i :| 0 <= i < |es| && es[i] == e;
        BatchEntriesAt(ks, now + ttl, base, i);
      }
    }
  }

  /** Pushing an extension entry for a stored key restamped `now` keeps
      every key covered, and the key is covered until `now + T + extra`. */
  lemma ExtendKeeps<K>(stamps: map<K, int>, h: seq<Entry<K>>, ttl: int, base: int, k: K, now: int, extra: int, r: seq<Entry<K>>)
    requires CoversAll(stamps, h, ttl) && SeqsAtMost(h, base) && base >= 0 && extra > 0
    requires multiset(r) == multiset(h) + multiset{Entry(now + ttl + extra, base + 1, k)}
    ensures CoversAll(stamps[k := now], r, ttl)
    ensures SeqsAtMost(r, base + 1)
    ensures Covered(r, k, now + ttl + extra)
  {
    var e := Entry(now + ttl + extra, base + 1, k);
    assert multiset{e} == multiset([e]);
    MultisetParts(r, h, [e]);
    CoverGrow(stamps, h, r, ttl);
    assert e in r;
  }

  // ---------------------------------------------------------------------
  // TimedDict's stored values.

  datatype Stamped<V> = Stamped(value: V, stamp: int)

  /** The timestamps of a TimedDict's entries. */
  function Stamps<K, V>(m: map<K, Stamped<V>>): (r: map<K, int>)
    ensures r.Keys == m.Keys
    ensures forall k :: k in m ==> r[k] == m[k].stamp
  {
    map k | k in m :: m[k].stamp
  }

  /** Refreshing one entry's timestamp refreshes only that key's stamp. */
  lemma StampsRefresh<K, V>(m: map<K, Stamped<V>>, k: K, now: int, m2: map<K, Stamped<V>>)
    requires k in m && m2 == m[k := Stamped(m[k].value, now)]
    ensures Stamps(m2) == Stamps(m)[k := now]
  {
  }

  /** The keys of some key/value pairs, in order. */
  function Firsts<K, V>(ps: seq<(K, V)>): (r: seq<K>)
    ensures |r| == |ps|
  {
    if ps == [] then [] else Firsts(ps[..|ps| - 1]) + [ps[|ps| - 1].0]
  }

  lemma {:induction false} FirstsAt<K, V>(ps: seq<(K, V)>, i: int)
    requires 0 <= i < |ps|
    ensures Firsts(ps)[i] == ps[i].0
    decreases |ps|
  {
    if i < |ps| - 1 {
      FirstsAt(ps[..|ps| - 1], i);
    }
  }

  /** The entries after storing each pair `(k, v)` as `(v, now)`, in order. */
  function Assign<K, V>(m: map<K, Stamped<V>>, ps: seq<(K, V)>, now: int): map<K, Stamped<V>>
  {
    if ps == [] then m
    else Assign(m, ps[..|ps| - 1], now)[ps[|ps| - 1].0 := Stamped(ps[|ps| - 1].1, now)]
  }

  /** After the assignments, the timestamps are the old ones with every
      pair's key restamped. */
  lemma {:induction false} AssignStamps<K(!new), V>(m: map<K, Stamped<V>>, ps: seq<(K, V)>, now: int)
    ensures Stamps(Assign(m, ps, now)) == Restamp(Stamps(m), Firsts(ps), now)
    decreases |ps|
  {
    if ps != [] {
      var init := ps[..|ps| - 1];
      AssignStamps(m, init, now);
      assert Firsts(ps)[..|ps| - 1] == Firsts(init);
    }
  }

  /** Assigning a batch of pairs and pushing their entries keeps every key
      covered, and each assigned key's deadline is its new one. */
  lemma AssignKeeps<K(!new), V>(m: map<K, Stamped<V>>, ps: seq<(K, V)>, now: int,
                                h: seq<Entry<K>>, ttl: int, base: int, r: seq<Entry<K>>, m2: map<K, Stamped<V>>)
    requires CoversAll(Stamps(m), h, ttl) && SeqsAtMost(h, base) && base >= 0
    requires multiset(r) == multiset(h) + multiset(BatchEntries(Firsts(ps), now + ttl, base))
    requires m2 == Assign(m, ps, now)
    ensures CoversAll(Stamps(m2), r, ttl)
    ensures SeqsAtMost(r, base + |ps|)
    ensures forall k :: k in Firsts(ps) ==> KeyDeadline(Stamps(m2), r, ttl, k, now + ttl)
  {
    AssignStamps(m, ps, now);
    BatchKeeps(Stamps(m), h, ttl, base, Firsts(ps), now, r);
  }

  /** The body of `extend` on the dictionary's values: refresh the key's
      timestamp, push its extended entry, and clean up when too many
      entries are stale. */
  method RefreshAndPush<K(==,!new), V>(m: map<K, Stamped<V>>, h: seq<Entry<K>>, ttl: int, base: int, stale: int,
                                       k: K, now: int, extra: int)
    returns (m2: map<K, Stamped<V>>, h2: seq<Entry<K>>, c: int, stale2: int)
    requires IsHeap(h) && SeqsAtMost(h, base) && base >= 0 && stale >= 0 && CoversAll(Stamps(m), h, ttl)
    requires k in m && extra > 0
    ensures m2 == m[k := Stamped(m[k].value, now)]
    ensures IsHeap(h2) && SeqsAtMost(h2, c) && c >= base + 1 && stale2 >= 0 && CoversAll(Stamps(m2), h2, ttl)
    ensures stale <= CleanupThreshold
      ==> multiset(h2) == multiset(h) + multiset{Entry(now + ttl + extra, base + 1, k)}
    ensures stale <= CleanupThreshold ==> Covered(h2, k, now + ttl + extra)
  {
    var e := Entry(now + ttl + extra, base + 1, k);
    h2 := Push(h, e);
    ExtendKeeps(Stamps(m), h, ttl, base, k, now, extra, h2);
    m2 := m[k := Stamped(m[k].value, now)];
    StampsRefresh(m, k, now, m2);
    c, stale2 := base + 1, stale;
    if stale > CleanupThreshold {
      h2, c, stale2 := RebuildHeap(Stamps(m2), h2, ttl, c, stale, now);
    }
  }

  /** The body of `add` on the set's values: stamp the keys, push one fresh
      entry per key, and keep every key covered. */
  method StampAndPush<K(!new)>(m: map<K, int>, h: seq<Entry<K>>, ttl: int, base: int, ks: seq<K>, now: int)
    returns (m2: map<K, int>, h2: seq<Entry<K>>, c: int)
    requires IsHeap(h) && SeqsAtMost(h, base) && base >= 0 && CoversAll(m, h, ttl)
    ensures m2 == Restamp(m, ks, now) && c == base + |ks|
    ensures IsHeap(h2) && SeqsAtMost(h2, c) && CoversAll(m2, h2, ttl)
    ensures multiset(h2) == multiset(h) + multiset(BatchEntries(ks, now + ttl, base))
    ensures forall k :: k in ks ==> KeyDeadline(m2, h2, ttl, k, now + ttl)
  {
    var batch;
    m2, batch, c := StampBatch(m, ks, now, now + ttl, base);
    h2 := PushBatch(h, batch);
    BatchKeeps(m, h, ttl, base, ks, now, h2);
  }

  /** The body of `__setitem__` on the dictionary's values: store one
      stamped value and push its fresh entry. */
  method StoreAndPush<K(!new), V>(m: map<K, Stamped<V>>, h: seq<Entry<K>>, ttl: int, base: int, k: K, v: V, now: int)
    returns (m2: map<K, Stamped<V>>, h2: seq<Entry<K>>, c: int)
    requires IsHeap(h) && SeqsAtMost(h, base) && base >= 0 && CoversAll(Stamps(m), h, ttl)
    ensures m2 == m[k := Stamped(v, now)] && c == base + 1
    ensures IsHeap(h2) && SeqsAtMost(h2, c) && CoversAll(Stamps(m2), h2, ttl)
    ensures multiset(h2) == multiset(h) + multiset{Entry(now + ttl, c, k)}
    ensures KeyDeadline(Stamps(m2), h2, ttl, k, now + ttl)
  {
    var e := Entry(now + ttl, base + 1, k);
    h2 := Push(h, e);
    BatchEntriesAt([k], now + ttl, base, 0);
    assert BatchEntries([k], now + ttl, base) == [e];
    assert k in [k];
    BatchKeeps(Stamps(m), h, ttl, base, [k], now, h2);
    m2 := m[k := Stamped(v, now)];
    assert Restamp(Stamps(m), [k], now) == Stamps(m2);
    c := base + 1;
  }

  /** The body of `remove` on the set's values: delete the present keys,
      count them, and rebuild the heap when enough were removed. */
  method RemoveAndRebuild<K(==,!new)>(stamps: map<K, int>, h: seq<Entry<K>>, ttl: int, counter: int, stale: int, ks: seq<K>, now: int)
    returns (stamps2: map<K, int>, h2: seq<Entry<K>>, counter2: int, stale2: int, removed: int)
    requires IsHeap(h) && SeqsAtMost(h, counter) && counter >= 0 && stale >= 0
    requires CoversAll(stamps, h, ttl)
    ensures stamps2 == stamps - Members(ks)
    ensures removed == |stamps.Keys * Members(ks)|
    ensures IsHeap(h2) && SeqsAtMost(h2, counter2) && counter2 >= 0 && stale2 >= 0
    ensures CoversAll(stamps2, h2, ttl)
    ensures DeadlinesKept(stamps2, h, h2, ttl)
  {
    RemovalKeeps(stamps, Members(ks), h, ttl);
    stamps2, removed := RemoveKeys(stamps, ks);
    h2, counter2, stale2 := h, counter, stale;
    if removed > Min(100, |stamps2| / 10) {
      h2, counter2, stale2 := RebuildHeap(stamps2, h, ttl, counter, stale, now);
    }
  }

  /** The body of `update` on the dictionary's values: assign the pairs,
      push one fresh entry per pair, and keep every key covered. */
  method AssignAndPush<K(!new), V>(m: map<K, Stamped<V>>, h: seq<Entry<K>>, ttl: int, base: int, ps: seq<(K, V)>, now: int)
    returns (m2: map<K, Stamped<V>>, h2: seq<Entry<K>>, c: int)
    requires IsHeap(h) && SeqsAtMost(h, base) && base >= 0 && CoversAll(Stamps(m), h, ttl)
    ensures m2 == Assign(m, ps, now) && c == base + |ps|
    ensures IsHeap(h2) && SeqsAtMost(h2, c) && CoversAll(Stamps(m2), h2, ttl)
    ensures multiset(h2) == multiset(h) + multiset(BatchEntries(Firsts(ps), now + ttl, base))
    ensures forall k :: k in Firsts(ps) ==> KeyDeadline(Stamps(m2), h2, ttl, k, now + ttl)
  {
    var batch;
    m2, batch, c := AssignBatch(m, ps, now, now + ttl, base);
    h2 := PushBatch(h, batch);
    AssignKeeps(m, ps, now, h, ttl, base, h2, m2);
  }

  /** A key no pair names keeps its entry. */
  lemma {:induction false} AssignOthers<K, V>(m: map<K, Stamped<V>>, ps: seq<(K, V)>, now: int, k: K)
    requires k !in Firsts(ps)
    ensures k in Assign(m, ps, now) <==> k in m
    ensures k in m ==> Assign(m, ps, now)[k] == m[k]
    decreases |ps|
  {
    if ps != [] {
      var init := ps[..|ps| - 1];
      assert Firsts(ps)[|ps| - 1] == ps[|ps| - 1].0;
      assert Firsts(ps)[..|ps| - 1] == Firsts(init);
      AssignOthers(m, init, now, k);
    }
  }

  /** The value stored for a key is the one of the last pair naming it. */
  lemma {:induction false} AssignLastWins<K, V>(m: map<K, Stamped<V>>, ps: seq<(K, V)>, now: int, i: int)
    requires 0 <= i < |ps|
    requires forall j :: i < j < |ps| ==> ps[j].0 != ps[i].0
    ensures ps[i].0 in Assign(m, ps, now)
    ensures Assign(m, ps, now)[ps[i].0] == Stamped(ps[i].1, now)
    decreases |ps|
  {
    if i < |ps| - 1 {
      var init := ps[..|ps| - 1];
      AssignLastWins(m, init, now, i);
    }
  }

  /** The loop of `add` (timed.py:269-281): stamps each key at `now` and
      collects one entry per key, numbered after `base`. */
  method StampBatch<K(!new)>(m: map<K, int>, ks: seq<K>, now: int, expiry: int, base: int)
    returns (m2: map<K, int>, es: seq<Entry<K>>, c: int)
    ensures m2 == Restamp(m, ks, now)
    ensures es == BatchEntries(ks, expiry, base)
    ensures c == base + |ks|
  {
    m2, es, c := m, [], base;
    var i := 0;
    while i < |ks|
      invariant 0 <= i <= |ks|
      invariant m2 == Restamp(m, ks[..i], now)
      invariant c == base + i
      invariant es == BatchEntries(ks[..i], expiry, base)
    {
      assert Restamp(m, ks[..i + 1], now) == m2[ks[i] := now] by {
        assert ks[..i + 1][..i] == ks[..i];
      }
      m2 := m2[ks[i] := now];
      c := c + 1;
      BatchStep(ks, expiry, base, i, es);
      es := es + [Entry(expiry, c, ks[i])];
      i := i + 1;
    }
    assert ks[..|ks|] == ks;
  }

  /** The keys listed in a sequence. */
  function Members<K>(ks: seq<K>): set<K>
  {
    set k | k in ks
  }

  /** Deleting keys keeps every remaining key covered, with its deadline. */
  lemma RemovalKeeps<K(!new)>(stamps: map<K, int>, gone: set<K>, h: seq<Entry<K>>, ttl: int)
    requires CoversAll(stamps, h, ttl)
    ensures CoversAll(stamps - gone, h, ttl)
    ensures DeadlinesKept(stamps - gone, h, h, ttl)
  {
  }

  lemma MembersStep<K>(ks: seq<K>, i: int)
    requires 0 <= i < |ks|
    ensures Members(ks[..i + 1]) == Members(ks[..i]) + {ks[i]}
  {
    TakeSnoc(ks, i);
  }

  lemma RemoveStep<K>(m: map<K, int>, done: set<K>, x: K)
    ensures x in m - done ==> (m - done) - {x} == m - (done + {x})
    ensures x in m - done ==> m.Keys * (done + {x}) == m.Keys * done + {x} && x !in m.Keys * done
    ensures x !in m - done ==> m - done == m - (done + {x}) && m.Keys * (done + {x}) == m.Keys * done
  {
  }

  /** The loop of `remove` (timed.py:337-341): deletes each present key
      and counts the deletions. */
  method RemoveKeys<K>(m: map<K, int>, ks: seq<K>) returns (m2: map<K, int>, removed: int)
    ensures m2 == m - Members(ks)
    ensures removed == |m.Keys * Members(ks)|
  {
    m2 := m;
    removed := 0;
    ghost var gone: set<K> := {};
    var i := 0;
    assert ks[..0] == [];
    while i < |ks|
      invariant 0 <= i <= |ks|
      invariant RemovedUpTo(m, ks, i, m2, gone, removed)
    {
      var x := ks[i];
      if x in m2 {
        RemoveHit(m, ks, i, m2, gone, removed);
        m2 := m2 - {x};
        gone := gone + {x};
        removed := removed + 1;
      } else {
        RemoveMiss(m, ks, i, m2, gone, removed);
      }
      i := i + 1;
    }
    RemovedAll(m, ks, m2, gone, removed);
  }

  lemma RemovedAll<K>(m: map<K, int>, ks: seq<K>, m2: map<K, int>, gone: set<K>, removed: int)
    requires RemovedUpTo(m, ks, |ks|, m2, gone, removed)
    ensures m2 == m - Members(ks) && removed == |m.Keys * Members(ks)|
  {
    assert ks[..|ks|] == ks;
  }

  /** The state of the `remove` loop after the first `i` keys. */
  ghost predicate RemovedUpTo<K>(m: map<K, int>, ks: seq<K>, i: int, m2: map<K, int>, gone: set<K>, removed: int)
    requires 0 <= i <= |ks|
  {
    gone == m.Keys * Members(ks[..i]) && m2 == m - Members(ks[..i]) && removed == |gone|
  }

  lemma RemoveHit<K>(m: map<K, int>, ks: seq<K>, i: int, m2: map<K, int>, gone: set<K>, removed: int)
    requires 0 <= i < |ks| && RemovedUpTo(m, ks, i, m2, gone, removed) && ks[i] in m2
    ensures RemovedUpTo(m, ks, i + 1, m2 - {ks[i]}, gone + {ks[i]}, removed + 1)
  {
    MembersStep(ks, i);
    RemoveStep(m, Members(ks[..i]), ks[i]);
  }

  lemma RemoveMiss<K>(m: map<K, int>, ks: seq<K>, i: int, m2: map<K, int>, gone: set<K>, removed: int)
    requires 0 <= i < |ks| && RemovedUpTo(m, ks, i, m2, gone, removed) && ks[i] !in m2
    ensures RemovedUpTo(m, ks, i + 1, m2, gone, removed)
  {
    MembersStep(ks, i);
    RemoveStep(m, Members(ks[..i]), ks[i]);
  }


  /** The loops of `update` (timed.py:999-1026): stores each pair as
      `(value, now)` and collects one entry per pair, numbered after `base`. */
  method AssignBatch<K, V>(m: map<K, Stamped<V>>, ps: seq<(K, V)>, now: int, expiry: int, base: int)
    returns (m2: map<K, Stamped<V>>, es: seq<Entry<K>>, c: int)
    ensures m2 == Assign(m, ps, now)
    ensures es == BatchEntries(Firsts(ps), expiry, base)
    ensures c == base + |ps|
  {
    m2, es, c := m, [], base;
    var i := 0;
    while i < |ps|
      invariant 0 <= i <= |ps|
      invariant m2 == Assign(m, ps[..i], now)
      invariant c == base + i
      invariant es == BatchEntries(Firsts(ps)[..i], expiry, base)
    {
      var (k, v) := ps[i];
      assert ps[..i + 1][..i] == ps[..i];
      m2 := m2[k := Stamped(v, now)];
      c := c + 1;
      BatchStep(Firsts(ps), expiry, base, i, es);
      FirstsAt(ps, i);
      es := es + [Entry(expiry, c, k)];
      i := i + 1;
    }
    assert ps[..|ps|] == ps;
    assert Firsts(ps)[..|ps|] == Firsts(ps);
  }

  // =====================================================================

  class TimedSet<K(==,!new)> {
    const ttl: int
    const lazy: bool
    var items: map<K, int>
    var heap: seq<Entry<K>>
    var seqCounter: int
    var staleCount: int

    ghost predicate Valid()
      reads this
    {
      ttl > 0 && seqCounter >= 0 && staleCount >= 0
      && IsHeap(heap) && SeqsAtMost(heap, seqCounter)
      && CoversAll(items, heap, ttl)
    }

    /** timed.py:56-93 for a positive expiration time. */
    constructor (expiration: int, lazyExpiration: bool)
      requires expiration > 0
      ensures Valid()
      ensures ttl == expiration && lazy == lazyExpiration
      ensures items == map[] && heap == [] && seqCounter == 0 && staleCount == 0
    {
      ttl := expiration;
      lazy := lazyExpiration;
      items := map[];
      heap := [];
      seqCounter := 0;
      staleCount := 0;
    }

    /** Construction, failing like the source for a non-positive time. */
    static method New(expiration: int, lazyExpiration: bool) returns (r: Result<TimedSet<K>>)
      ensures r.Err? <==> expiration <= 0
      ensures r.Ok? ==> fresh(r.value) && r.value.Valid() && r.value.items == map[] && r.value.ttl == expiration
    {
      var checked := CheckExpiration(expiration);
      if checked.Err? {
        return Err(checked.error);
      }
      var s := new TimedSet(expiration, lazyExpiration);
      return Ok(s);
    }

    /** `_remove_expired_items` (timed.py:131-156): pops due entries,
        deletes the keys whose timestamp is old enough, and rebuilds the heap
        when many stale entries piled up. */
    method Sweep(now: int)
      requires Valid()
      modifies this
      ensures Valid()
      ensures items == old(items) - ExpiredKeys(old(items), old(heap), ttl, now)
      ensures DeadlinesKept(items, old(heap), heap, ttl)
      ensures forall k, d :: KeyDeadline(items, old(heap), ttl, k, d) ==> d > now
    {
      if |heap| == 0 {
        assert DueKeys(heap, now) == {};
        return;
      }
      var rest, dead, pops := PopDue(items, heap, ttl, now);
      SweepKeeps(items, heap, rest, ttl, now);
      items := items - dead;
      heap := rest;
      staleCount := staleCount + pops;
      if staleCount > CleanupThreshold && |heap| > |items| * CleanupRatio {
        heap, seqCounter, staleCount := RebuildHeap(items, heap, ttl, seqCounter, staleCount, now);
      }
    }

    /** `add` (timed.py:239-294): every key gets timestamp `now` and one
        fresh entry `(now + T, seq)`, pushed one by one for small batches or
        appended and re-heapified for larger ones. */
    method Add(ks: seq<K>, now: int)
      requires Valid()
      modifies this
      ensures Valid()
      ensures items == Restamp(old(items), ks, now)
      ensures seqCounter == old(seqCounter) + |ks| && staleCount == old(staleCount)
      ensures multiset(heap) == multiset(old(heap)) + multiset(BatchEntries(ks, now + ttl, old(seqCounter)))
      ensures forall k :: k in ks ==> KeyDeadline(items, heap, ttl, k, now + ttl)
    {
      var stamped, h, counter := StampAndPush(items, heap, ttl, seqCounter, ks, now);
      items, seqCounter, heap := stamped, counter, h;
    }

    /** `remove` (timed.py:307-356): deletes the given keys that are
        present, returns how many there were, and rebuilds the heap when
        enough were removed. */
    method Remove(ks: seq<K>, now: int) returns (removed: int)
      requires Valid()
      modifies this
      ensures Valid()
      ensures items == old(items) - Members(ks)
      ensures removed == |old(items).Keys * Members(ks)|
      ensures DeadlinesKept(items, old(heap), heap, ttl)
    {
      items, heap, seqCounter, staleCount, removed := RemoveAndRebuild(items, heap, ttl, seqCounter, staleCount, ks, now);
    }

    /** `clear` (timed.py:358-366). */
    method Clear()
      requires Valid()
      modifies this
      ensures Valid()
      ensures items == map[] && heap == [] && staleCount == 0 && seqCounter == 0
    {
      items := map[];
      heap := [];
      staleCount := 0;
      seqCounter := 0;
    }

    /** `contains` (timed.py:368-382): in lazy mode it sweeps first. */
    method Contains(k: K, now: int) returns (r: bool)
      requires Valid()
      modifies this
      ensures Valid()
      ensures lazy ==> items == old(items) - ExpiredKeys(old(items), old(heap), ttl, now)
      ensures !lazy ==> items == old(items) && heap == old(heap)
      ensures r <==> k in items
    {
      if lazy {
        Sweep(now);
      }
      r := k in items;
    }

    /** `time_remaining` (timed.py:384-400): the time left until
        `timestamp + T`, never negative, and absent for an unknown key. */
    function TimeRemaining(k: K, now: int): (r: Option<int>)
      reads this
      requires Valid()
      ensures r.None? <==> k !in items
      ensures r.Some? ==> r.value >= 0
      ensures r.Some? && items[k] <= now ==> r.value <= ttl
      ensures r.Some? ==> (r.value == 0 <==> items[k] + ttl <= now)
      ensures r.Some? && r.value > 0 ==> now + r.value == items[k] + ttl
    {
      if k in items then Some(Max(0, ttl - (now - items[k]))) else None
    }

    /** `extend` (timed.py:402-436): refreshes a present key's timestamp
        and pushes one entry `now + T + extra`; the extra lengthens only
        the heap entry, not the stored timestamp. */
    method Extend(k: K, extra: int, now: int) returns (ok: bool)
      requires Valid()
      modifies this
      ensures Valid()
      ensures ok <==> extra > 0 && k in old(items)
      ensures !ok ==> items == old(items) && heap == old(heap) && seqCounter == old(seqCounter)
      ensures ok ==> items == old(items)[k := now] && seqCounter >= old(seqCounter) + 1
      ensures ok && old(staleCount) <= CleanupThreshold
        ==> multiset(heap) == multiset(old(heap)) + multiset{Entry(now + ttl + extra, old(seqCounter) + 1, k)}
      ensures ok && old(staleCount) <= CleanupThreshold ==> Covered(heap, k, now + ttl + extra)
    {
      if extra <= 0 {
        return false;
      }
      if k !in items {
        return false;
      }
      var e := Entry(now + ttl + extra, seqCounter + 1, k);
      var h := Push(heap, e);
      ExtendKeeps(items, heap, ttl, seqCounter, k, now, extra, h);
      items := items[k := now];
      seqCounter := seqCounter + 1;
      heap := h;
      if staleCount > CleanupThreshold {
        heap, seqCounter, staleCount := RebuildHeap(items, heap, ttl, seqCounter, staleCount, now);
      }
      return true;
    }

    /** `items_with_expiry` (timed.py:438-449): each key with
        `timestamp + T`, which is never later than the key's deadline. */
    method ItemsWithExpiry(now: int) returns (r: map<K, int>)
      requires Valid()
      modifies this
      ensures Valid()
      ensures r.Keys == items.Keys
      ensures forall k :: k in r ==> r[k] == items[k] + ttl
      ensures forall k, d :: KeyDeadline(items, heap, ttl, k, d) ==> k in r && r[k] <= d
      ensures !lazy ==> items == old(items)
    {
      if lazy {
        Sweep(now);
      }
      r := map k | k in items :: items[k] + ttl;
    }

    /** `__len__` (timed.py:455-459). */
    method Len(now: int) returns (n: int)
      requires Valid()
      modifies this
      ensures Valid()
      ensures n == |items|
      ensures !lazy ==> items == old(items)
    {
      if lazy {
        Sweep(now);
      }
      n := |items|;
    }
  }

  // =====================================================================

  class TimedDict<K(==,!new), V> {
    const ttl: int
    const lazy: bool
    var entries: map<K, Stamped<V>>
    var heap: seq<Entry<K>>
    var seqCounter: int
    var staleCount: int

    ghost predicate Valid()
      reads this
    {
      ttl > 0 && seqCounter >= 0 && staleCount >= 0
      && IsHeap(heap) && SeqsAtMost(heap, seqCounter)
      && CoversAll(Stamps(entries), heap, ttl)
    }

    /** timed.py:545-582 for a positive expiration time. */
    constructor (expiration: int, lazyExpiration: bool)
      requires expiration > 0
      ensures Valid()
      ensures ttl == expiration && lazy == lazyExpiration
      ensures entries == map[] && heap == [] && seqCounter == 0 && staleCount == 0
    {
      ttl := expiration;
      lazy := lazyExpiration;
      entries := map[];
      heap := [];
      seqCounter := 0;
      staleCount := 0;
    }

    /** Construction, failing like the source for a non-positive time. */
    static method New(expiration: int, lazyExpiration: bool) returns (r: Result<TimedDict<K, V>>)
      ensures r.Err? <==> expiration <= 0
      ensures r.Ok? ==> fresh(r.value) && r.value.Valid() && r.value.entries == map[] && r.value.ttl == expiration
    {
      var checked := CheckExpiration(expiration);
      if checked.Err? {
        return Err(checked.error);
      }
      var d := new TimedDict(expiration, lazyExpiration);
      return Ok(d);
    }

    /** `_remove_expired_entries` (timed.py:620-648). */
    method Sweep(now: int)
      requires Valid()
      modifies this
      ensures Valid()
      ensures entries == old(entries) - ExpiredKeys(Stamps(old(entries)), old(heap), ttl, now)
      ensures DeadlinesKept(Stamps(entries), old(heap), heap, ttl)
      ensures forall k, d :: KeyDeadline(Stamps(entries), old(heap), ttl, k, d) ==> d > now
    {
      if |heap| == 0 {
        assert DueKeys(heap, now) == {};
        return;
      }
      var stamps := Stamps(entries);
      var rest, dead, pops := PopDue(stamps, heap, ttl, now);
      SweepKeeps(stamps, heap, rest, ttl, now);
      entries := entries - dead;
      assert Stamps(entries) == stamps - dead;
      heap := rest;
      staleCount := staleCount + pops;
      if staleCount > CleanupThreshold && |heap| > |entries| * CleanupRatio {
        heap, seqCounter, staleCount := RebuildHeap(Stamps(entries), heap, ttl, seqCounter, staleCount, now);
      }
    }

    /** `__setitem__` (timed.py:730-758): stores `(value, now)` and pushes
        one fresh entry `(now + T, seq)`. */
    method Set(k: K, v: V, now: int)
      requires Valid()
      modifies this
      ensures Valid()
      ensures entries == old(entries)[k := Stamped(v, now)]
      ensures seqCounter == old(seqCounter) + 1 && staleCount == old(staleCount)
      ensures multiset(heap) == multiset(old(heap)) + multiset{Entry(now + ttl, seqCounter, k)}
      ensures KeyDeadline(Stamps(entries), heap, ttl, k, now + ttl)
    {
      entries, heap, seqCounter := StoreAndPush(entries, heap, ttl, seqCounter, k, v, now);
    }

    /** `__getitem__` (timed.py:766-785): KeyError for a missing key. */
    method Get(k: K, now: int) returns (r: Result<V>)
      requires Valid()
      modifies this
      ensures Valid()
      ensures !lazy ==> entries == old(entries) && heap == old(heap)
      ensures lazy ==> entries == old(entries) - ExpiredKeys(Stamps(old(entries)), old(heap), ttl, now)
      ensures r.Ok? <==> k in entries
      ensures r.Ok? ==> r.value == entries[k].value
    {
      if lazy {
        Sweep(now);
      }
      if k in entries {
        return Ok(entries[k].value);
      }
      return Err("KeyError");
    }

    /** `get` (timed.py:787-802): the default for a missing key. */
    method GetOr(k: K, default: V, now: int) returns (r: V)
      requires Valid()
      modifies this
      ensures Valid()
      ensures !lazy ==> entries == old(entries) && heap == old(heap)
      ensures r == if k in entries then entries[k].value else default
    {
      if lazy {
        Sweep(now);
      }
      if k in entries {
        return entries[k].value;
      }
      return default;
    }

    /** `pop` (timed.py:804-826): removes and returns the value; a missing
        key gives the default, or KeyError when there is none. The heap
        keeps the key's entries. */
    method Pop(k: K, default: Option<V>, now: int) returns (r: Result<V>)
      requires Valid()
      modifies this
      ensures Valid()
      ensures !lazy ==> heap == old(heap) && entries == old(entries) - {k}
      ensures !lazy && k in old(entries) ==> r == Ok(old(entries)[k].value)
      ensures !lazy && k !in old(entries) ==> r == (if default.Some? then Ok(default.value) else Err("KeyError"))
      ensures lazy ==> entries == old(entries) - ExpiredKeys(Stamps(old(entries)), old(heap), ttl, now) - {k}
      ensures k !in entries
    {
      if lazy {
        Sweep(now);
      }
      if k in entries {
        var v := entries[k].value;
        entries := entries - {k};
        return Ok(v);
      }
      if default.None? {
        return Err("KeyError");
      }
      return Ok(default.value);
    }

    /** `time_remaining` (timed.py:828-845). */
    function TimeRemaining(k: K, now: int): (r: Option<int>)
      reads this
      requires Valid()
      ensures r.None? <==> k !in entries
      ensures r.Some? ==> r.value >= 0
      ensures r.Some? && entries[k].stamp <= now ==> r.value <= ttl
      ensures r.Some? ==> (r.value == 0 <==> entries[k].stamp + ttl <= now)
      ensures r.Some? && r.value > 0 ==> now + r.value == entries[k].stamp + ttl
    {
      if k in entries then Some(Max(0, ttl - (now - entries[k].stamp))) else None
    }

    /** `extend` (timed.py:847-882): keeps the value, refreshes the
        timestamp and pushes one entry `now + T + extra`. */
    method Extend(k: K, extra: int, now: int) returns (ok: bool)
      requires Valid()
      modifies this
      ensures Valid()
      ensures ok <==> extra > 0 && k in old(entries)
      ensures !ok ==> entries == old(entries) && heap == old(heap) && seqCounter == old(seqCounter)
      ensures ok ==> entries == old(entries)[k := Stamped(old(entries)[k].value, now)]
      ensures ok && old(staleCount) <= CleanupThreshold
        ==> multiset(heap) == multiset(old(heap)) + multiset{Entry(now + ttl + extra, old(seqCounter) + 1, k)}
      ensures ok && old(staleCount) <= CleanupThreshold ==> Covered(heap, k, now + ttl + extra)
    {
      if extra <= 0 {
        return false;
      }
      if k !in entries {
        return false;
      }
      entries, heap, seqCounter, staleCount := RefreshAndPush(entries, heap, ttl, seqCounter, staleCount, k, now, extra);
      return true;
    }

    /** `clear` (timed.py:884-892). */
    method Clear()
      requires Valid()
      modifies this
      ensures Valid()
      ensures entries == map[] && heap == [] && staleCount == 0 && seqCounter == 0
    {
      entries := map[];
      heap := [];
      staleCount := 0;
      seqCounter := 0;
    }

    /** `contains` (timed.py:894-908). */
    method Contains(k: K, now: int) returns (r: bool)
      requires Valid()
      modifies this
      ensures Valid()
      ensures !lazy ==> entries == old(entries) && heap == old(heap)
      ensures lazy ==> entries == old(entries) - ExpiredKeys(Stamps(old(entries)), old(heap), ttl, now)
      ensures r <==> k in entries
    {
      if lazy {
        Sweep(now);
      }
      r := k in entries;
    }

    /** `__delitem__` (timed.py:914-921): KeyError for a missing key; the
        heap is left alone. */
    method Delete(k: K) returns (r: Result<()>)
      requires Valid()
      modifies this
      ensures Valid()
      ensures r.Ok? <==> k in old(entries)
      ensures entries == old(entries) - {k} && heap == old(heap)
    {
      if k in entries {
        entries := entries - {k};
        return Ok(());
      }
      return Err("KeyError");
    }

    /** `items_with_expiry` (timed.py:969-981). */
    method ItemsWithExpiry(now: int) returns (r: map<K, Stamped<V>>)
      requires Valid()
      modifies this
      ensures Valid()
      ensures r.Keys == entries.Keys
      ensures forall k :: k in r ==> r[k] == Stamped(entries[k].value, entries[k].stamp + ttl)
      ensures !lazy ==> entries == old(entries)
    {
      if lazy {
        Sweep(now);
      }
      r := map k | k in entries :: Stamped(entries[k].value, entries[k].stamp + ttl);
    }

    /** `__len__` (timed.py:923-927). */
    method Len(now: int) returns (n: int)
      requires Valid()
      modifies this
      ensures Valid()
      ensures n == |entries|
      ensures !lazy ==> entries == old(entries)
    {
      if lazy {
        Sweep(now);
      }
      n := |entries|;
    }

    /** `update` (timed.py:983-1035): the mapping's pairs, then the keyword
        pairs, each stored as `(value, now)` with one fresh entry. An
        absent mapping is the empty sequence. */
    method Update(mapping: seq<(K, V)>, kwargs: seq<(K, V)>, now: int)
      requires Valid()
      modifies this
      ensures Valid()
      ensures entries == Assign(old(entries), mapping + kwargs, now)
      ensures seqCounter == old(seqCounter) + |mapping| + |kwargs| && staleCount == old(staleCount)
      ensures multiset(heap) == multiset(old(heap)) + multiset(BatchEntries(Firsts(mapping + kwargs), now + ttl, old(seqCounter)))
      ensures forall k :: k in Firsts(mapping + kwargs) ==> KeyDeadline(Stamps(entries), heap, ttl, k, now + ttl)
    {
      var updated, h, counter := AssignAndPush(entries, heap, ttl, seqCounter, mapping + kwargs, now);
      entries, seqCounter, heap := updated, counter, h;
    }
  }
}
