/**
 The history of a one-lock run: its critical sections in order, each with the host, the timestamp
 of its interval and the pages it has write notices for. A host knows the history up to its own
 last critical section, and that prefix determines its vector and its interval and notice lists.
 */
module CriticalLog {
  import opened Options
  import opened Vectors
  import opened Diffs
  import opened HostMem

  datatype CS = CS(host: nat, ts: Vec, pages: seq<nat>)

  /** The vector at the release that ends critical section `k`. */
  function Rel(log: seq<CS>, k: nat): (v: Vec)
    requires k < |log|
    ensures |v| == |log[k].ts|
  {
    Bump(log[k].ts, log[k].host)
  }

  ghost predicate Distinct(pages: seq<nat>) {
    forall i, j :: 0 <= i < j < |pages| ==> pages[i] != pages[j]
  }

  ghost predicate EntryOk(n: nat, pageCount: nat, log: seq<CS>, k: nat)
    requires k < |log|
  {
    && log[k].host < n && |log[k].ts| == n
    && (forall i :: 0 <= i < |log[k].pages| ==> log[k].pages[i] < pageCount)
    && Distinct(log[k].pages)
  }

  /** Every interval starts one above the release before it, in its own host's component. */
  ghost predicate LogOk(n: nat, pageCount: nat, log: seq<CS>) {
    && (forall k {:trigger log[k]} {:trigger EntryOk(n, pageCount, log, k)} :: 0 <= k < |log| ==>
        EntryOk(n, pageCount, log, k))
    && (forall k {:trigger StartsAbove(n, log, k)} :: 0 <= k < |log| ==> StartsAbove(n, log, k))
  }

  ghost predicate StartsAbove(n: nat, log: seq<CS>, k: nat)
    requires k < |log|
  {
    log[k].ts == Bump(if k == 0 then Zero(n) else Rel(log, k - 1), log[k].host)
  }

  /** One step of the history. */
  lemma LogStep(n: nat, pageCount: nat, log: seq<CS>, k: nat)
    requires LogOk(n, pageCount, log) && k < |log|
    ensures |log[k].ts| == n && log[k].host < n
    ensures After(Rel(log, k), log[k].ts)
    ensures After(log[k].ts, if k == 0 then Zero(n) else Rel(log, k - 1))
  {
    assert EntryOk(n, pageCount, log, k) && StartsAbove(n, log, k);
    BumpAfter(log[k].ts, log[k].host);
    BumpAfter(if k == 0 then Zero(n) else Rel(log, k - 1), log[k].host);
  }

  lemma {:induction false} LogOrder(n: nat, pageCount: nat, log: seq<CS>, a: nat, b: nat)
    requires LogOk(n, pageCount, log) && a < b < |log|
    ensures After(log[b].ts, Rel(log, a))
    decreases b
  {
    LogStep(n, pageCount, log, b);
    if a < b - 1 {
      LogOrder(n, pageCount, log, a, b - 1);
      LogStep(n, pageCount, log, b - 1);
      AfterTransitive(Rel(log, b - 1), log[b - 1].ts, Rel(log, a));
      AfterTransitive(log[b].ts, Rel(log, b - 1), Rel(log, a));
    }
  }

  /** Comparing timestamps compares positions in the history. */
  lemma LogCompare(n: nat, pageCount: nat, log: seq<CS>, a: nat, b: nat)
    requires LogOk(n, pageCount, log) && a < |log| && b < |log|
    ensures After(log[a].ts, log[b].ts) <==> a > b
    ensures After(log[a].ts, Rel(log, b)) <==> a > b
    ensures log[a].ts == log[b].ts <==> a == b
    ensures Leq(log[a].ts, Rel(log, b)) <==> a <= b
    ensures Leq(log[a].ts, log[b].ts) <==> a <= b
  {
    LogStep(n, pageCount, log, a);
    LogStep(n, pageCount, log, b);
    if a < b {
      LogOrder(n, pageCount, log, a, b);
      AfterTransitive(log[b].ts, Rel(log, a), log[a].ts);
      AfterTransitive(Rel(log, b), log[b].ts, log[a].ts);
      AfterNotBelow(log[b].ts, log[a].ts);
      AfterNotBelow(Rel(log, b), log[a].ts);
    } else if a > b {
      LogOrder(n, pageCount, log, b, a);
      AfterTransitive(log[a].ts, Rel(log, b), log[b].ts);
      AfterNotBelow(log[a].ts, Rel(log, b));
      AfterNotBelow(log[a].ts, log[b].ts);
    } else {
      AfterNotBelow(Rel(log, a), log[a].ts);
    }
  }

  lemma {:induction false} LogAfterZero(n: nat, pageCount: nat, log: seq<CS>, k: nat)
    requires LogOk(n, pageCount, log) && k < |log|
    ensures After(log[k].ts, Zero(n))
  {
    LogStep(n, pageCount, log, k);
    if k > 0 {
      LogAfterZero(n, pageCount, log, k - 1);
      LogStep(n, pageCount, log, k - 1);
      AfterTransitive(Rel(log, k - 1), log[k - 1].ts, Zero(n));
      AfterTransitive(log[k].ts, Rel(log, k - 1), Zero(n));
    }
  }

  // ----- what a host knows -----

  /** One past the host's last critical section: how much of the history it knows. */
  function Known(log: seq<CS>, h: nat): (k: nat)
    ensures k <= |log|
    ensures k > 0 ==> log[k - 1].host == h
    ensures forall i :: k <= i < |log| ==> log[i].host != h
  {
    if log == [] then 0
    else if log[|log| - 1].host == h then |log|
    else Known(log[..|log| - 1], h)
  }

  function AsInterval(entry: CS): Interval {
    Interval(entry.ts, entry.pages, false)
  }

  /** The intervals of host `j` among the first `upto` critical sections that have notices, newest first. */
  function KnownList(log: seq<CS>, upto: nat, j: nat): seq<Interval>
    requires upto <= |log|
  {
    if upto == 0 then []
    else if log[upto - 1].host == j && log[upto - 1].pages != [] then
      [AsInterval(log[upto - 1])] + KnownList(log, upto - 1, j)
    else KnownList(log, upto - 1, j)
  }

  /** The critical sections of host `j` among the first `upto` that wrote page `p`, newest first. */
  function Writers(log: seq<CS>, upto: nat, j: nat, p: nat): (r: seq<nat>)
    requires upto <= |log|
    ensures forall i :: 0 <= i < |r| ==> r[i] < upto
  {
    if upto == 0 then []
    else if log[upto - 1].host == j && p in log[upto - 1].pages then [upto - 1] + Writers(log, upto - 1, j, p)
    else Writers(log, upto - 1, j, p)
  }

  ghost predicate Descending(r: seq<nat>) {
    forall i, k :: 0 <= i < k < |r| ==> r[k] < r[i]
  }

  /** The list holds exactly the matching critical sections, in descending order. */
  lemma {:induction false} WritersSpec(log: seq<CS>, upto: nat, j: nat, p: nat)
    requires upto <= |log|
    ensures var r := Writers(log, upto, j, p);
            && Descending(r)
            && (forall i :: 0 <= i < |r| ==> log[r[i]].host == j && p in log[r[i]].pages)
            && (forall x :: 0 <= x < upto && log[x].host == j && p in log[x].pages ==> x in r)
  {
    if upto > 0 {
      WritersSpec(log, upto - 1, j, p);
    }
  }

  lemma {:induction false} SameList(a: seq<CS>, b: seq<CS>, upto: nat, j: nat)
    requires upto <= |a| && upto <= |b|
    requires forall k :: 0 <= k < upto ==> a[k].host == b[k].host && (a[k].host == j ==> a[k] == b[k])
    ensures KnownList(a, upto, j) == KnownList(b, upto, j)
  {
    if upto > 0 {
      SameList(a, b, upto - 1, j);
    }
  }

  lemma {:induction false} SameWriters(a: seq<CS>, b: seq<CS>, upto: nat, j: nat, p: nat)
    requires upto <= |a| && upto <= |b|
    requires forall k :: 0 <= k < upto ==>
      a[k].host == b[k].host && (a[k].host == j ==> (p in a[k].pages <==> p in b[k].pages))
    ensures Writers(a, upto, j, p) == Writers(b, upto, j, p)
  {
    if upto > 0 {
      SameWriters(a, b, upto - 1, j, p);
    }
  }

  lemma {:induction false} NoIntervalsBetween(log: seq<CS>, low: nat, high: nat, j: nat)
    requires low <= high <= |log|
    requires forall k :: low <= k < high ==> log[k].host != j || log[k].pages == []
    ensures KnownList(log, high, j) == KnownList(log, low, j)
    decreases high
  {
    if low < high {
      NoIntervalsBetween(log, low, high - 1, j);
    }
  }

  lemma {:induction false} NoWritersBetween(log: seq<CS>, low: nat, high: nat, j: nat, p: nat)
    requires low <= high <= |log|
    requires forall k :: low <= k < high ==> log[k].host != j || p !in log[k].pages
    ensures Writers(log, high, j, p) == Writers(log, low, j, p)
    decreases high
  {
    if low < high {
      NoWritersBetween(log, low, high - 1, j, p);
    }
  }

  // ----- lists that match the history -----

  /** The intervals of a list that have notices. */
  function WithNotices(list: seq<Interval>): seq<Interval> {
    if list == [] then []
    else if list[0].pages != [] then [list[0]] + WithNotices(list[1..])
    else WithNotices(list[1..])
  }

  lemma {:induction false} KnownListWithNotices(log: seq<CS>, upto: nat, j: nat)
    requires upto <= |log|
    ensures WithNotices(KnownList(log, upto, j)) == KnownList(log, upto, j)
  {
    if upto > 0 {
      KnownListWithNotices(log, upto - 1, j);
    }
  }

  /** Which timestamps occur in a host's list. */
  lemma {:induction false} KnownListHas(log: seq<CS>, upto: nat, j: nat, i: nat) returns (k: nat)
    requires upto <= |log| && i < |KnownList(log, upto, j)|
    ensures k < upto && log[k].host == j && log[k].pages != [] && KnownList(log, upto, j)[i] == AsInterval(log[k])
  {
    if log[upto - 1].host == j && log[upto - 1].pages != [] {
      if i == 0 {
        k := upto - 1;
      } else {
        k := KnownListHas(log, upto - 1, j, i - 1);
      }
    } else {
      k := KnownListHas(log, upto - 1, j, i);
    }
  }

  ghost predicate NoticesMatch(log: seq<CS>, upto: nat, j: nat, p: nat, list: seq<Notice>)
    requires upto <= |log|
  {
    && |list| == |Writers(log, upto, j, p)|
    && forall i :: 0 <= i < |list| ==> list[i].ts == log[Writers(log, upto, j, p)[i]].ts
  }

  /** Where the notice of critical section `k` is found in a matching list. */
  lemma FindNotice(n: nat, pageCount: nat, log: seq<CS>, upto: nat, j: nat, p: nat, list: seq<Notice>, k: nat)
    requires LogOk(n, pageCount, log) && upto <= |log| && k < |log| && NoticesMatch(log, upto, j, p, list)
    ensures var known := k < upto && log[k].host == j && p in log[k].pages;
            && (known <==> NoticeIdx(list, log[k].ts) < |list|)
            && (known ==> Writers(log, upto, j, p)[NoticeIdx(list, log[k].ts)] == k)
            && (!known ==> DiffOf(list, log[k].ts).None?)
  {
    var r := Writers(log, upto, j, p);
    WritersSpec(log, upto, j, p);
    var i := NoticeIdx(list, log[k].ts);
    if i < |list| {
      LogCompare(n, pageCount, log, r[i], k);
    }
    if k < upto && log[k].host == j && p in log[k].pages {
      assert k in r;
      var x :| 0 <= x < |r| && r[x] == k;
      assert list[x].ts == log[k].ts;
    }
  }

  lemma DescendingWriters(log: seq<CS>, upto: nat, j: nat, p: nat, a: nat, b: nat)
    requires upto <= |log| && a < |Writers(log, upto, j, p)| && b < |Writers(log, upto, j, p)|
    ensures Writers(log, upto, j, p)[a] > Writers(log, upto, j, p)[b] <==> a < b
  {
    WritersSpec(log, upto, j, p);
  }

  /** Positions in a matching list are ordered like the timestamps, newest first. */
  lemma ListOrder(n: nat, pageCount: nat, log: seq<CS>, upto: nat, j: nat, p: nat, list: seq<Notice>, a: nat, b: nat)
    requires LogOk(n, pageCount, log) && upto <= |log| && NoticesMatch(log, upto, j, p, list)
    requires a < |list| && b < |list|
    ensures After(list[a].ts, list[b].ts) <==> a < b
  {
    var r := Writers(log, upto, j, p);
    DescendingWriters(log, upto, j, p, a, b);
    LogCompare(n, pageCount, log, r[a], r[b]);
  }

  lemma ListIdx(n: nat, pageCount: nat, log: seq<CS>, upto: nat, j: nat, p: nat, list: seq<Notice>, a: nat)
    requires LogOk(n, pageCount, log) && upto <= |log| && NoticesMatch(log, upto, j, p, list)
    requires a < |list|
    ensures NoticeIdx(list, list[a].ts) == a
  {
    var r := Writers(log, upto, j, p);
    WritersSpec(log, upto, j, p);
    var i := NoticeIdx(list, list[a].ts);
    assert i <= a;
    LogCompare(n, pageCount, log, r[a], r[i]);
  }
}
