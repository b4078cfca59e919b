/**
 In a one-lock run all vectors form a chain, ordered like the hosts' last critical sections, and a
 host's vector says exactly which intervals with notices the host knows.
 */
module VectorChain {
  import opened Options
  import opened Vectors
  import opened Diffs
  import opened HostMem
  import opened CriticalLog
  import opened World
  import opened QuietSteps

  lemma LeqReflexive(a: Vec)
    ensures Leq(a, a)
  {
  }

  /** The vector of a host after its last critical section, the `k`-th; zero before any. */
  ghost function VectorAfter(n: nat, log: seq<CS>, k: nat): Vec
    requires k <= |log|
  {
    if k == 0 then Zero(n) else Rel(log, k - 1)
  }

  lemma LaterAbove(n: nat, pageCount: nat, log: seq<CS>, a: nat, b: nat)
    requires LogOk(n, pageCount, log) && a < b <= |log|
    ensures After(log[b - 1].ts, VectorAfter(n, log, a)) && After(Rel(log, b - 1), VectorAfter(n, log, a))
  {
    LogStep(n, pageCount, log, b - 1);
    if a > 0 {
      LogOrder(n, pageCount, log, a - 1, b - 1);
    } else {
      LogAfterZero(n, pageCount, log, b - 1);
    }
    AfterTransitive(Rel(log, b - 1), log[b - 1].ts, VectorAfter(n, log, a));
  }

  /** A host whose last critical section is later has the larger vector. */
  lemma KnownOrder(w: World, h: nat, g: nat)
    requires Basic(w) && h < w.n && g < w.n && Knowledge(w, h) && Knowledge(w, g)
    requires Known(w.log, h) < Known(w.log, g)
    ensures After(NowTs(w.mems[g]), NowTs(w.mems[h]))
  {
    var a, b := Known(w.log, h), Known(w.log, g);
    LaterAbove(w.n, |w.cur|, w.log, a, b);
    assert w.inside != Some(h);
    assert NowOf(w, h) == VectorAfter(w.n, w.log, a);
    assert NowOf(w, g) == w.log[b - 1].ts || NowOf(w, g) == Rel(w.log, b - 1);
  }

  /** Any two vectors are comparable. */
  lemma Chain(w: World, h: nat, g: nat)
    requires Basic(w) && h < w.n && g < w.n && Knowledge(w, h) && Knowledge(w, g)
    ensures Leq(NowTs(w.mems[h]), NowTs(w.mems[g])) || After(NowTs(w.mems[h]), NowTs(w.mems[g]))
  {
    if Known(w.log, h) < Known(w.log, g) {
      KnownOrder(w, h, g);
    } else if Known(w.log, h) > Known(w.log, g) {
      KnownOrder(w, g, h);
    } else {
      LeqReflexive(NowTs(w.mems[h]));
    }
  }

  /** The host of the latest critical section dominates all others. */
  lemma LatestDominates(w: World, h: nat)
    requires Basic(w) && h < w.n && w.log != [] && Last(w).host < w.n && Knowledge(w, h) && Knowledge(w, Last(w).host)
    requires h != Last(w).host
    ensures After(NowTs(w.mems[Last(w).host]), NowTs(w.mems[h]))
  {
    KnownOrder(w, h, Last(w).host);
  }

  /** A vector that starts one above the last release is above every vector before it. */
  lemma NextAbove(n: nat, pageCount: nat, log: seq<CS>, h: nat, k: nat)
    requires LogOk(n, pageCount, log) && h < n && k <= |log| && |VectorAfter(n, log, |log|)| == n
    ensures After(Bump(VectorAfter(n, log, |log|), h), VectorAfter(n, log, k))
  {
    BumpAfter(VectorAfter(n, log, |log|), h);
    if k < |log| {
      LaterAbove(n, pageCount, log, k, |log|);
      AfterTransitive(Bump(VectorAfter(n, log, |log|), h), VectorAfter(n, log, |log|), VectorAfter(n, log, k));
    }
  }

  lemma AboveAll(w: World, h: nat, x: nat)
    requires Basic(w) && h < w.n && x < w.n && w.inside.None? && Knowledge(w, x)
    ensures After(Bump(VectorAfter(w.n, w.log, |w.log|), h), NowTs(w.mems[x]))
  {
    if w.log != [] {
      LogStep(w.n, |w.cur|, w.log, |w.log| - 1);
    }
    NextAbove(w.n, |w.cur|, w.log, h, Known(w.log, x));
  }

  lemma LeaveVector(w: World, h: nat)
    requires Basic(w) && h < w.n && w.inside == Some(h) && Knowledge(w, h)
    ensures NowTs(AddNewInterval(w.mems[h])) == Rel(w.log, |w.log| - 1)
  {
    assert NowIndex(w.mems[h]) == 0;
  }

  /** The interval opened by `mi_unlock` is above every host's vector. */
  lemma LeaveAbove(w: World, h: nat, x: nat)
    requires Basic(w) && h < w.n && x < w.n && w.inside == Some(h) && Knowledge(w, x)
    ensures After(Rel(w.log, |w.log| - 1), NowTs(w.mems[x]))
  {
    if x == h {
      LogStep(w.n, |w.cur|, w.log, |w.log| - 1);
    } else {
      LaterAbove(w.n, |w.cur|, w.log, Known(w.log, x), |w.log|);
    }
  }

  // ----- components -----

  lemma {:induction false} ComponentStays(n: nat, pageCount: nat, log: seq<CS>, a: nat, b: nat, i: nat)
    requires LogOk(n, pageCount, log) && a <= b < |log| && i < n
    requires forall k :: a < k <= b ==> log[k].host != i
    ensures Rel(log, b)[i] == Rel(log, a)[i] && (a < b ==> log[b].ts[i] == Rel(log, a)[i])
    decreases b
  {
    assert EntryOk(n, pageCount, log, b) && StartsAbove(n, log, b) && EntryOk(n, pageCount, log, a);
    if a < b {
      ComponentStays(n, pageCount, log, a, b - 1, i);
    }
  }

  lemma {:induction false} ComponentZero(n: nat, pageCount: nat, log: seq<CS>, b: nat, i: nat)
    requires LogOk(n, pageCount, log) && b < |log| && i < n
    requires forall k :: 0 <= k <= b ==> log[k].host != i
    ensures Rel(log, b)[i] == 0 && log[b].ts[i] == 0
    decreases b
  {
    assert EntryOk(n, pageCount, log, b) && StartsAbove(n, log, b);
    if b > 0 {
      ComponentZero(n, pageCount, log, b - 1, i);
    }
  }

  /** No host is ahead of host `i` in component `i`. */
  lemma OwnComponentLargest(w: World, h: nat, i: nat)
    requires Basic(w) && h < w.n && i < w.n && Knowledge(w, h) && Knowledge(w, i)
    ensures NowTs(w.mems[h])[i] <= NowTs(w.mems[i])[i]
  {
    var a, b := Known(w.log, i), Known(w.log, h);
    if b < a {
      KnownOrder(w, h, i);
    } else if a < b {
      if a == 0 {
        ComponentZero(w.n, |w.cur|, w.log, b - 1, i);
      } else {
        ComponentStays(w.n, |w.cur|, w.log, a - 1, b - 1, i);
      }
    }
  }

  // ----- vectors count -----

  /** How many of the first `upto` critical sections are those of host `j`. */
  function SectionsOf(log: seq<CS>, upto: nat, j: nat): nat
    requires upto <= |log|
  {
    if upto == 0 then 0 else SectionsOf(log, upto - 1, j) + if log[upto - 1].host == j then 1 else 0
  }

  /** A critical section opens an interval when it begins and another one when it ends. */
  lemma {:induction false} LogCounts(n: nat, pageCount: nat, log: seq<CS>, k: nat, j: nat)
    requires LogOk(n, pageCount, log) && k < |log| && j < n
    ensures |log[k].ts| == n
    ensures log[k].ts[j] == 2 * SectionsOf(log, k, j) + if log[k].host == j then 1 else 0
    ensures Rel(log, k)[j] == 2 * SectionsOf(log, k + 1, j)
  {
    assert EntryOk(n, pageCount, log, k) && StartsAbove(n, log, k);
    if k > 0 {
      LogCounts(n, pageCount, log, k - 1, j);
    }
  }

  lemma {:induction false} SectionsStay(log: seq<CS>, low: nat, high: nat, j: nat)
    requires low <= high <= |log| && forall k :: low <= k < high ==> log[k].host != j
    ensures SectionsOf(log, high, j) == SectionsOf(log, low, j)
    decreases high
  {
    if low < high {
      SectionsStay(log, low, high - 1, j);
    }
  }

  lemma {:induction false} SectionsPrefix(a: seq<CS>, b: seq<CS>, upto: nat, j: nat)
    requires upto <= |a| && upto <= |b| && forall k :: 0 <= k < upto ==> a[k].host == b[k].host
    ensures SectionsOf(a, upto, j) == SectionsOf(b, upto, j)
  {
    if upto > 0 {
      SectionsPrefix(a, b, upto - 1, j);
    }
  }

  /** Component `j` of a host's vector is twice the number of host `j`'s critical sections that the host knows. */
  lemma VectorCounts(w: World, h: nat, j: nat)
    requires Basic(w) && h < w.n && j < w.n && Knowledge(w, h)
    ensures NowTs(w.mems[h])[j]
            == 2 * SectionsOf(w.log, Known(w.log, h), j) - if w.inside == Some(h) && j == h then 1 else 0
  {
    var k := Known(w.log, h);
    if k > 0 {
      LogCounts(w.n, |w.cur|, w.log, k - 1, j);
    }
  }

  /** A host's own component counts its own critical sections, twice each, and once the one it is in. */
  lemma OwnCounts(w: World, h: nat)
    requires Basic(w) && h < w.n && Knowledge(w, h)
    ensures NowTs(w.mems[h])[h]
            == 2 * SectionsOf(w.log, |w.log|, h) - if w.inside == Some(h) then 1 else 0
  {
    VectorCounts(w, h, h);
    SectionsStay(w.log, Known(w.log, h), |w.log|, h);
  }

  // ----- what a vector says -----

  lemma {:induction false} InWithNotices(list: seq<Interval>, iv: Interval)
    ensures iv in WithNotices(list) <==> iv in list && iv.pages != []
  {
    if list != [] {
      InWithNotices(list[1..], iv);
      assert list == [list[0]] + list[1..];
    }
  }

  lemma {:induction false} InKnownList(log: seq<CS>, upto: nat, j: nat, k: nat)
    requires k < upto <= |log| && log[k].host == j && log[k].pages != []
    ensures AsInterval(log[k]) in KnownList(log, upto, j)
  {
    if k < upto - 1 {
      InKnownList(log, upto - 1, j, k);
    }
  }

  /** A critical section is known to a host exactly if its timestamp is covered by the host's vector. */
  lemma VectorCovers(w: World, h: nat, k: nat)
    requires Basic(w) && h < w.n && k < |w.log| && Knowledge(w, h)
    ensures Leq(w.log[k].ts, NowTs(w.mems[h])) <==> k < Known(w.log, h)
  {
    var a := Known(w.log, h);
    if a == 0 {
      LogAfterZero(w.n, |w.cur|, w.log, k);
      AfterNotBelow(w.log[k].ts, Zero(w.n));
    } else {
      LogCompare(w.n, |w.cur|, w.log, k, a - 1);
    }
  }

  /** The critical section behind an interval with notices. */
  lemma IntervalEntry(w: World, h: nat, j: nat, iv: Interval) returns (k: nat)
    requires Basic(w) && h < w.n && j < w.n && Knowledge(w, h) && iv in w.mems[h].procs[j] && iv.pages != []
    ensures k < Known(w.log, h) && w.log[k].host == j && iv == AsInterval(w.log[k])
  {
    assert Knows(w.log, w.mems[h], j, Known(w.log, h));
    InWithNotices(w.mems[h].procs[j], iv);
    var i :| 0 <= i < |WithNotices(w.mems[h].procs[j])| && WithNotices(w.mems[h].procs[j])[i] == iv;
    k := KnownListHas(w.log, Known(w.log, h), j, i);
  }

  /** Host `h` has the interval in its list for `j`, and each of its notices in the page's list. */
  ghost predicate HasInterval(m: Mem, j: nat, iv: Interval)
    requires Wf(m) && j < m.n
  {
    && iv in m.procs[j]
    && forall p :: p in iv.pages ==> p < |m.pages| && NoticeIdx(m.pages[p].notices[j], iv.ts) < |m.pages[p].notices[j]|
  }

  /** A host knows another's interval with notices, and all of them, exactly if its vector covers the timestamp. */
  lemma Coverage(w: World, h: nat, j: nat, iv: Interval)
    requires Basic(w) && h < w.n && j < w.n && Knowledge(w, h) && Knowledge(w, j)
    requires iv in w.mems[j].procs[j] && iv.pages != []
    ensures Leq(iv.ts, NowTs(w.mems[h])) <==> HasInterval(w.mems[h], j, iv)
  {
    var k := IntervalEntry(w, j, j, iv);
    VectorCovers(w, h, k);
    assert Knows(w.log, w.mems[h], j, Known(w.log, h));
    if k < Known(w.log, h) {
      InKnownList(w.log, Known(w.log, h), j, k);
      InWithNotices(w.mems[h].procs[j], iv);
      forall p | p in iv.pages
        ensures p < |w.cur| && NoticeIdx(w.mems[h].pages[p].notices[j], iv.ts) < |w.mems[h].pages[p].notices[j]|
      {
        assert EntryOk(w.n, |w.cur|, w.log, k);
        FindNotice(w.n, |w.cur|, w.log, Known(w.log, h), j, p, w.mems[h].pages[p].notices[j], k);
      }
    } else if iv in w.mems[h].procs[j] {
      var k' := IntervalEntry(w, h, j, iv);
      LogCompare(w.n, |w.cur|, w.log, k, k');
    }
  }
}
