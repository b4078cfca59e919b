/** What every one-lock run guarantees, whatever its critical sections read and write. */
module Guarantees {
  import opened Options
  import opened Vectors
  import opened Diffs
  import opened HostMem
  import opened CriticalLog
  import opened DiffFetching
  import opened World
  import opened QuietSteps
  import opened Receiving
  import opened Writing
  import opened VectorChain
  import opened System
  import opened Coherence
  import opened CoherentSteps
  import OneLock

  lemma Reached(s: Sys, actions: seq<Action>)
    requires Init(s) && Run(s, actions)
    ensures Good(Exec(s, actions)) && Exec(s, actions).w.n == s.w.n && |Exec(s, actions).w.cur| == |s.w.cur|
  {
    InitGood(s);
    CoherentSteps.RunKeeps(s, actions);
    RunSizes(s, actions);
  }

  /** Only a store changes the current page. */
  lemma StepWrites(s: Sys, a: Action, p: nat)
    requires Enabled(s, a)
    ensures Next(s, a).w.n == s.w.n && |Next(s, a).w.cur| == |s.w.cur|
    ensures p < |s.w.cur| ==> Next(s, a).w.cur[p] == if a.Write? && a.p == p then a.bytes else s.w.cur[p]
  {
  }

  lemma {:induction false} RunSizes(s: Sys, actions: seq<Action>)
    requires Good(s) && Run(s, actions)
    ensures Exec(s, actions).w.n == s.w.n && |Exec(s, actions).w.cur| == |s.w.cur|
    decreases |actions|
  {
    if actions != [] {
      StepKeeps(s, actions[0]);
      StepWrites(s, actions[0], 0);
      RunSizes(Next(s, actions[0]), actions[1..]);
    }
  }

  // ----- requests and replies -----

  /** At most one memory message is in flight; its handler can run, and a request is answered. */
  lemma EveryMessageHandled(s: Sys, actions: seq<Action>, i: nat)
    requires Init(s) && Run(s, actions) && i < |Exec(s, actions).wire|
    ensures var t := Exec(s, actions);
            && |t.wire| == 1
            && (if IsRequest(t.wire[i].msg)
                then Enabled(t, Serve(i)) && |Next(t, Serve(i)).wire| == 1 && !IsRequest(Next(t, Serve(i)).wire[0].msg)
                     && Next(t, Serve(i)).wire[0].to == t.wire[i].from && Next(t, Serve(i)).wire[0].from == t.wire[i].to
                else Enabled(t, Receive(i)) && Next(t, Receive(i)).wire == [])
  {
    Reached(s, actions);
    MessageHandled(Exec(s, actions), i);
  }

  lemma MessageHandled(t: Sys, i: nat)
    requires Good(t) && i < |t.wire|
    ensures |t.wire| == 1
    ensures if IsRequest(t.wire[i].msg)
            then Enabled(t, Serve(i)) && |Next(t, Serve(i)).wire| == 1 && !IsRequest(Next(t, Serve(i)).wire[0].msg)
                 && Next(t, Serve(i)).wire[0].to == t.wire[i].from && Next(t, Serve(i)).wire[0].from == t.wire[i].to
            else Enabled(t, Receive(i)) && Next(t, Receive(i)).wire == []
  {
    var h := WireHolder(t, i);
    if IsRequest(t.wire[i].msg) {
      RequestAnswered(t, h);
    } else {
      ReplyHandled(t, h);
    }
  }

  lemma AnswerShape(w: World, e: Envelope)
    requires Basic(w) && IsRequest(e.msg) && e.to < w.n && (!e.msg.FetchIntervals? ==> e.msg.p < |w.cur|)
    ensures |Answer(w, e).1| <= 1
    ensures Answer(w, e).1 != [] ==>
              var r := Answer(w, e).1[0];
              !IsRequest(r.msg) && r.to == e.from && r.from == e.to
  {
  }

  lemma RequestReady(t: Sys, h: nat)
    requires Good(t) && |t.wire| == 1 && h < t.w.n && OpOk(t, h) && t.ops[h] != Idle && IsRequest(t.wire[0].msg)
    ensures Enabled(t, Serve(0))
  {
  }

  lemma RequestAnswered(t: Sys, h: nat)
    requires Good(t) && |t.wire| == 1 && h < t.w.n && OpOk(t, h) && t.ops[h] != Idle && IsRequest(t.wire[0].msg)
    ensures Enabled(t, Serve(0)) && |Next(t, Serve(0)).wire| == 1 && !IsRequest(Next(t, Serve(0)).wire[0].msg)
    ensures Next(t, Serve(0)).wire[0].to == t.wire[0].from && Next(t, Serve(0)).wire[0].from == t.wire[0].to
  {
    RequestReady(t, h);
    CoherentSteps.ServeKeeps(t, 0);
    AnswerShape(t.w, t.wire[0]);
    assert Without(t.wire, 0) == [];
  }

  lemma IntervalsReady(t: Sys, h: nat)
    requires Good(t) && |t.wire| == 1 && h < t.w.n && OpOk(t, h) && t.ops[h] == WaitIntervals
    requires !IsRequest(t.wire[0].msg)
    ensures ReceiveReady(t, t.wire[0])
  {
    WokenHistory(t, h);
    FetchReady(t.w, h, t.lk.phase[h].last);
  }

  lemma ReplyHandled(t: Sys, h: nat)
    requires Good(t) && |t.wire| == 1 && h < t.w.n && OpOk(t, h) && t.ops[h] != Idle && !IsRequest(t.wire[0].msg)
    ensures Enabled(t, Receive(0)) && Next(t, Receive(0)).wire == []
  {
    if t.ops[h] == WaitIntervals {
      IntervalsReady(t, h);
    }
    assert Without(t.wire, 0) == [];
  }

  /** A host that waits inside `mi_lock` or a fault can always go on, or a message for it can be handled. */
  lemma HolderNeverStuck(s: Sys, actions: seq<Action>, h: nat)
    requires Init(s) && Run(s, actions) && h < s.w.n
    ensures var t := Exec(s, actions);
            && Shape(t) && t.w.n == s.w.n
            && (t.ops[h] != Idle ==>
                  || Enabled(t, Turn(h)) || Enabled(t, Resume(h))
                  || (t.wire != [] && (Enabled(t, Serve(0)) || Enabled(t, Receive(0)))))
            && (t.lk.phase[h].Woken? && t.ops[h] == Idle ==> Enabled(t, StartFetch(h)) || Enabled(t, EnterOwn(h)))
  {
    Reached(s, actions);
    var t := Exec(s, actions);
    if t.ops[h] != Idle {
      OperationGoesOn(t, h);
    }
  }

  lemma OperationGoesOn(t: Sys, h: nat)
    requires Good(t) && h < t.w.n && t.ops[h] != Idle
    ensures || Enabled(t, Turn(h)) || Enabled(t, Resume(h))
            || (t.wire != [] && (Enabled(t, Serve(0)) || Enabled(t, Receive(0))))
  {
    assert OneLock.Holds(t.lk.phase[h]) && OpOk(t, h);
    if t.wire != [] {
      MessageHandled(t, 0);
    }
  }

  // ----- notice coverage -----

  /**
   A host's vector tells what it knows: it has another host's interval, with a notice in every page's
   list, exactly if its vector is at least the interval's timestamp.
  */
  lemma NoticeCoverage(s: Sys, actions: seq<Action>, h: nat, j: nat, iv: Interval)
    requires Init(s) && Run(s, actions) && h < s.w.n && j < s.w.n
    ensures var t := Exec(s, actions);
            && Shape(t) && t.w.n == s.w.n
            && (iv in t.w.mems[j].procs[j] && iv.pages != [] ==>
                  (Leq(iv.ts, NowTs(t.w.mems[h])) <==> HasInterval(t.w.mems[h], j, iv)))
  {
    Reached(s, actions);
    var t := Exec(s, actions);
    assert Knowledge(t.w, h) && Knowledge(t.w, j);
    if iv in t.w.mems[j].procs[j] && iv.pages != [] {
      Coverage(t.w, h, j, iv);
    }
  }

  // ----- the chain of vectors -----

  /** Any two vectors are comparable, and no host is ahead of another in the other's own component. */
  lemma VectorsFormChain(s: Sys, actions: seq<Action>, h: nat, g: nat)
    requires Init(s) && Run(s, actions) && h < s.w.n && g < s.w.n
    ensures var t := Exec(s, actions);
            && Shape(t) && t.w.n == s.w.n
            && var a, b := NowTs(t.w.mems[h]), NowTs(t.w.mems[g]);
               (Leq(a, b) || After(a, b)) && a[g] <= b[g]
  {
    Reached(s, actions);
    var t := Exec(s, actions);
    assert Knowledge(t.w, h) && Knowledge(t.w, g);
    Chain(t.w, h, g);
    OwnComponentLargest(t.w, h, g);
  }

  /**
   Component `j` of a host's vector is twice the number of host `j`'s critical sections up to the host's own
   last one, less one for the section the host itself is in.
  */
  lemma VectorsCountSections(s: Sys, actions: seq<Action>, h: nat, j: nat)
    requires Init(s) && Run(s, actions) && h < s.w.n && j < s.w.n
    ensures var t := Exec(s, actions);
            && Shape(t) && t.w.n == s.w.n
            && NowTs(t.w.mems[h])[j]
               == 2 * SectionsOf(t.w.log, Known(t.w.log, h), j)
                    - if t.lk.phase[h] == OneLock.Inside && j == h then 1 else 0
  {
    Reached(s, actions);
    assert Knowledge(Exec(s, actions).w, h);
    VectorCounts(Exec(s, actions).w, h, j);
  }

  /** The host that entered last: the one inside or leaving, else the last releaser. */
  ghost predicate EnteredLast(lk: OneLock.State, g: nat)
    requires OneLock.Shape(lk) && g < lk.n
  {
    || lk.phase[g] == OneLock.Inside || lk.phase[g] == OneLock.Leaving
    || (lk.released != [] && lk.released[|lk.released| - 1] == g
        && forall x :: 0 <= x < lk.n ==> lk.phase[x] != OneLock.Inside && lk.phase[x] != OneLock.Leaving)
  }

  lemma HolderDominates(s: Sys, actions: seq<Action>, g: nat, h: nat)
    requires Init(s) && Run(s, actions) && h < s.w.n && g < s.w.n && g != h
    ensures var t := Exec(s, actions);
            && Shape(t) && t.w.n == s.w.n
            && (EnteredLast(t.lk, g) ==> After(NowTs(t.w.mems[g]), NowTs(t.w.mems[h])))
  {
    Reached(s, actions);
    var t := Exec(s, actions);
    if EnteredLast(t.lk, g) {
      LastSection(t, g);
      assert Knowledge(t.w, g) && Knowledge(t.w, h);
      LatestDominates(t.w, h);
    }
  }

  lemma LastSection(t: Sys, g: nat)
    requires Good(t) && g < t.w.n && EnteredLast(t.lk, g)
    ensures t.w.log != [] && Last(t.w).host == g
  {
    if t.lk.phase[g] == OneLock.Inside || t.lk.phase[g] == OneLock.Leaving {
      OneHolder(t.lk, g);
    }
    assert SectionsMatch(t.w.log, Sections(t.lk));
  }

  /** The vector in a reply is the maximum of both vectors: overwriting and then incrementing is taking the maximum. */
  lemma OverwriteIsMax(s: Sys, actions: seq<Action>, i: nat)
    requires Init(s) && Run(s, actions)
    requires Enabled(Exec(s, actions), Receive(i)) && Exec(s, actions).wire[i].msg.Intervals?
    ensures var t, e := Exec(s, actions), Exec(s, actions).wire[i];
            && e.msg.ts == Max(NowTs(t.w.mems[e.to]), e.msg.ts)
            && NowTs(Next(t, Receive(i)).w.mems[e.to]) == Bump(Max(NowTs(t.w.mems[e.to]), e.msg.ts), e.to)
  {
    Reached(s, actions);
    var t := Exec(s, actions);
    var h := WireHolder(t, i);
    ReplyIs(t, h);
    ReplyAbove(t, h, t.lk.phase[h].last);
    ReplyNext(t, i, h);
  }

  lemma ReplyNext(t: Sys, i: nat, h: nat)
    requires Good(t) && Enabled(t, Receive(i)) && h < t.w.n && t.ops[h] == WaitIntervals && OpOk(t, h) && i == 0
    requires |t.wire| == 1
    ensures h < |Next(t, Receive(i)).w.mems| && Wf(Next(t, Receive(i)).w.mems[h])
    ensures NowTs(Next(t, Receive(i)).w.mems[h]) == Bump(NowTs(t.w.mems[t.lk.phase[h].last]), h)
  {
    var m := ReceiveIntervalsEnters(t, i, h);
    EnteredVector(t, h, m);
  }

  lemma EnteredVector(t: Sys, h: nat, m: Mem)
    requires Good(t) && h < t.w.n && t.lk.phase[h].Woken? && MustFetch(t, h) && Ready(t.w, h, m)
    ensures NowTs(m) == Bump(NowTs(t.w.mems[t.lk.phase[h].last]), h)
    ensures Entered(t, h, m).w.mems[h] == m
  {
    WokenHistory(t, h);
    assert Knowledge(t.w, t.lk.phase[h].last);
  }

  lemma ReplyIs(t: Sys, h: nat)
    requires Good(t) && |t.wire| == 1 && h < t.w.n && OpOk(t, h) && t.wire[0].msg.Intervals?
    ensures t.wire[0].to == h && t.ops[h] == WaitIntervals && t.lk.phase[h].Woken? && MustFetch(t, h)
    ensures t.wire[0].msg.ts == NowTs(t.w.mems[t.lk.phase[h].last])
  {
  }

  lemma ReplyAbove(t: Sys, h: nat, g: nat)
    requires Good(t) && h < t.w.n && t.lk.phase[h].Woken? && MustFetch(t, h) && g == t.lk.phase[h].last
    ensures Leq(NowTs(t.w.mems[h]), NowTs(t.w.mems[g]))
    ensures Max(NowTs(t.w.mems[h]), NowTs(t.w.mems[g])) == NowTs(t.w.mems[g])
  {
    WokenHistory(t, h);
    assert Knowledge(t.w, h) && Knowledge(t.w, g);
    LatestDominates(t.w, h);
    MaxAbove(NowTs(t.w.mems[h]), NowTs(t.w.mems[g]));
  }

  lemma MaxAbove(a: Vec, b: Vec)
    requires Leq(a, b)
    ensures Max(a, b) == b
  {
  }

  // ----- growth -----

  lemma EnterAbove(s: Sys, h: nat, m: Mem, x: nat)
    requires Good(s) && h < s.w.n && x < s.w.n && s.w.inside.None? && Ready(s.w, h, m)
    ensures After(NowTs(m), NowTs(s.w.mems[x]))
  {
    assert Knowledge(s.w, x);
    AboveAll(s.w, h, x);
  }

  /** What a step does to the vectors: they stay, or one host's becomes larger than every host's. */
  ghost predicate Grows(s: Sys, t: Sys, g: nat, x: nat)
    requires Basic(s.w) && Basic(t.w) && t.w.n == s.w.n && g < s.w.n && x < s.w.n
  {
    NowTs(t.w.mems[g]) == NowTs(s.w.mems[g]) || After(NowTs(t.w.mems[g]), NowTs(s.w.mems[x]))
  }

  /** Pages may have changed, interval lists have not. */
  ghost predicate SameIntervals(v: World, w: World) {
    && w.n == v.n && |w.mems| == |v.mems|
    && forall g {:trigger w.mems[g]} :: 0 <= g < |v.mems| ==>
         w.mems[g].me == v.mems[g].me && w.mems[g].now == v.mems[g].now && w.mems[g].procs == v.mems[g].procs
  }

  lemma ServeIntervals(w: World, e: Envelope)
    requires Basic(w) && IsRequest(e.msg) && e.to < w.n && (!e.msg.FetchIntervals? ==> e.msg.p < |w.cur|)
    ensures SameIntervals(w, Answer(w, e).0)
  {
  }

  lemma StepIntervals(s: Sys, a: Action)
    requires Enabled(s, a) && !a.EnterOwn? && !a.Unlock? && !(a.Fault? && s.w.mems[a.h].pages[a.p].state == RDONLY)
    requires a.Receive? ==> !s.wire[a.i].msg.Intervals?
    ensures SameIntervals(s.w, Next(s, a).w)
  {
    if a.Serve? {
      ServeIntervals(s.w, s.wire[a.i]);
    }
  }

  lemma SameGrows(s: Sys, t: Sys, g: nat, x: nat)
    requires Basic(s.w) && Basic(t.w) && SameIntervals(s.w, t.w) && g < s.w.n && x < s.w.n
    ensures Grows(s, t, g, x)
  {
    assert t.w.mems[g].procs == s.w.mems[g].procs;
  }

  lemma EnterGrows(s: Sys, h: nat, m: Mem, g: nat, x: nat)
    requires Good(s) && h < s.w.n && g < s.w.n && x < s.w.n && s.lk.phase[h].Woken? && Ready(s.w, h, m)
    ensures Good(Entered(s, h, m)) && Grows(s, Entered(s, h, m), g, x)
  {
    WokenHistory(s, h);
    EnterGood(s, h, m);
    EnterAbove(s, h, m, x);
  }

  lemma ReceiveGrows(s: Sys, i: nat, g: nat, x: nat)
    requires Good(s) && Enabled(s, Receive(i)) && g < s.w.n && x < s.w.n && s.wire[i].msg.Intervals?
    ensures Good(Next(s, Receive(i))) && Next(s, Receive(i)).w.n == s.w.n && Grows(s, Next(s, Receive(i)), g, x)
  {
    var h := WireHolder(s, i);
    ReplyIs(s, h);
    var m := ReceiveIntervalsEnters(s, i, h);
    EnterGrows(s, h, m, g, x);
  }

  lemma EnterOwnGrows(s: Sys, h: nat, g: nat, x: nat)
    requires Good(s) && Enabled(s, EnterOwn(h)) && g < s.w.n && x < s.w.n && Basic(Next(s, EnterOwn(h)).w)
    ensures Next(s, EnterOwn(h)).w.n == s.w.n && Grows(s, Next(s, EnterOwn(h)), g, x)
  {
    WokenHistory(s, h);
    OwnReady(s.w, h);
    EnterAbove(s, h, OwnMem(s.w, h), x);
  }

  lemma UnlockGrows(s: Sys, h: nat, g: nat, x: nat)
    requires Good(s) && Enabled(s, Unlock(h)) && g < s.w.n && x < s.w.n && Basic(Next(s, Unlock(h)).w)
    ensures Next(s, Unlock(h)).w.n == s.w.n && Grows(s, Next(s, Unlock(h)), g, x)
  {
    LeaveGrows(s, Next(s, Unlock(h)), h, g, x);
  }

  lemma LeaveGrows(s: Sys, t: Sys, h: nat, g: nat, x: nat)
    requires Basic(s.w) && h < s.w.n && t.w == Leave(s.w, h) && Basic(t.w) && s.w.inside == Some(h) && g < s.w.n
    requires x < s.w.n
    requires Knowledge(s.w, h) && Knowledge(s.w, x)
    ensures Grows(s, t, g, x)
  {
    if g == h {
      LeaveVector(s.w, h);
      LeaveAbove(s.w, h, x);
    }
  }

  lemma WriteFaultGrows(s: Sys, t: Sys, h: nat, p: nat, g: nat, x: nat)
    requires Basic(s.w) && h < s.w.n && p < |s.w.cur| && s.w.log != [] && t.w == WriteFaulted(s.w, h, p) && Basic(t.w)
    requires s.w.mems[h].pages[p].state == RDONLY && g < s.w.n && x < s.w.n
    ensures Grows(s, t, g, x)
  {
    if g == h {
      assert MemBasic(s.w, h);
    }
  }

  lemma OtherGrows(s: Sys, a: Action, g: nat, x: nat)
    requires Basic(s.w) && Enabled(s, a) && g < s.w.n && x < s.w.n && Basic(Next(s, a).w)
    requires !a.EnterOwn? && !a.Unlock? && !(a.Fault? && s.w.mems[a.h].pages[a.p].state == RDONLY)
    requires a.Receive? ==> !s.wire[a.i].msg.Intervals?
    ensures Next(s, a).w.n == s.w.n && Grows(s, Next(s, a), g, x)
  {
    StepIntervals(s, a);
    SameGrows(s, Next(s, a), g, x);
  }

  lemma StepGrows(s: Sys, a: Action, g: nat, x: nat)
    requires Good(s) && Enabled(s, a) && g < s.w.n && x < s.w.n
    ensures Good(Next(s, a)) && Next(s, a).w.n == s.w.n && Grows(s, Next(s, a), g, x)
  {
    StepKeeps(s, a);
    if a.EnterOwn? {
      EnterOwnGrows(s, a.h, g, x);
    } else if a.Unlock? {
      UnlockGrows(s, a.h, g, x);
    } else if a.Receive? && s.wire[a.i].msg.Intervals? {
      ReceiveGrows(s, a.i, g, x);
    } else if a.Fault? && s.w.mems[a.h].pages[a.p].state == RDONLY {
      WriteFaultGrows(s, Next(s, a), a.h, a.p, g, x);
    } else {
      OtherGrows(s, a, g, x);
    }
  }

  lemma {:induction false} VectorsNeverShrink(s: Sys, actions: seq<Action>, x: nat)
    requires Good(s) && Run(s, actions) && x < s.w.n
    ensures Good(Exec(s, actions)) && Exec(s, actions).w.n == s.w.n
    ensures Leq(NowTs(s.w.mems[x]), NowTs(Exec(s, actions).w.mems[x]))
    decreases |actions|
  {
    if actions != [] {
      StepGrows(s, actions[0], x, x);
      VectorsNeverShrink(Next(s, actions[0]), actions[1..], x);
      LeqTransitive(NowTs(s.w.mems[x]), NowTs(Next(s, actions[0]).w.mems[x]), NowTs(Exec(s, actions).w.mems[x]));
    }
  }

  /**
   Every interval that a host opens is strictly above every vector that any host has had before, so
   above every interval created earlier.
  */
  lemma NewIntervalsAbove(s: Sys, before: seq<Action>, after: seq<Action>, a: Action, g: nat, x: nat)
    requires Init(s) && Run(s, before) && Run(Exec(s, before), after) && g < s.w.n && x < s.w.n
    requires Enabled(Exec(Exec(s, before), after), a)
    ensures var u, t := Exec(s, before), Exec(Exec(s, before), after);
            && Good(u) && Good(t) && Good(Next(t, a)) && u.w.n == t.w.n == Next(t, a).w.n == s.w.n
            && var now, next := NowTs(t.w.mems[g]), NowTs(Next(t, a).w.mems[g]);
               (next == now || After(next, NowTs(u.w.mems[x])))
  {
    Reached(s, before);
    var u := Exec(s, before);
    VectorsNeverShrink(u, after, x);
    var t := Exec(u, after);
    StepGrows(t, a, g, x);
    var next := NowTs(Next(t, a).w.mems[g]);
    if next != NowTs(t.w.mems[g]) {
      AfterTransitive(next, NowTs(t.w.mems[x]), NowTs(u.w.mems[x]));
    }
  }

  // ----- diffs are fetched exactly once -----

  /** Wherever no fault on the page is under way, the loops of `fetchDiff` would find everything unsettled. */
  lemma FaultFindsEverything(s: Sys, actions: seq<Action>, h: nat, p: nat)
    requires Init(s) && Run(s, actions) && h < s.w.n && p < |s.w.cur|
    ensures var t := Exec(s, actions);
            && Shape(t) && t.w.n == s.w.n && |t.w.cur| == |s.w.cur|
            && DistinctTimes(t.w.mems[h].pages[p])
            && (!InLoop(t.ops[h]) ==> UndiffedPrefix(t.w.mems[h].pages[p], h))
  {
    Reached(s, actions);
    var t := Exec(s, actions);
    var e := t.w.mems[h].pages[p];
    assert Knowledge(t.w, h);
    forall j, a, b | 0 <= j < |e.notices| && 0 <= a < b < |e.notices[j]|
      ensures e.notices[j][a].ts != e.notices[j][b].ts
      ensures j != h && e.notices[j][a].diff.Some? && !InLoop(t.ops[h]) ==> Settled(e.notices[j][b], e.start)
    {
      CursorIdx(t.w, h, p, Cursor(j, b));
      if j != h && e.notices[j][a].diff.Some? && !InLoop(t.ops[h]) {
        OlderIsSettled(t, h, p, j, a, b);
      }
    }
  }

  lemma OlderIsSettled(t: Sys, h: nat, p: nat, j: nat, a: nat, b: nat)
    requires Shape(t) && Shapes(t) && h < t.w.n && p < |t.w.cur| && Knowledge(t.w, h) && j < t.w.n && j != h
    requires !InLoop(t.ops[h])
    requires a < b < |t.w.mems[h].pages[p].notices[j]| && t.w.mems[h].pages[p].notices[j][a].diff.Some?
    ensures Settled(t.w.mems[h].pages[p].notices[j][b], t.w.mems[h].pages[p].start)
  {
    var k1, k2 := ListEntries(t.w, h, p, j, a, b);
    assert ShapeOk(t, h, p, k1, k2);
  }

  /** A diff that arrives was not there before; it is added to the bytes and stored, once. */
  lemma DiffArrivesOnce(s: Sys, actions: seq<Action>, i: nat)
    requires Init(s) && Run(s, actions)
    requires Enabled(Exec(s, actions), Receive(i)) && Exec(s, actions).wire[i].msg.One?
    ensures var t, e, u := Exec(s, actions), Exec(s, actions).wire[i], Next(Exec(s, actions), Receive(i));
            var before, after := t.w.mems[e.to].pages[e.msg.p], u.w.mems[e.to].pages[e.msg.p];
            && NoticeIdx(before.notices[e.from], e.msg.ts) < |before.notices[e.from]|
            && DiffOf(before.notices[e.from], e.msg.ts).None?
            && after.bytes == Add(before.bytes, e.msg.diff)
            && DiffOf(after.notices[e.from], e.msg.ts) == Some(e.msg.diff)
  {
    Reached(s, actions);
    var t := Exec(s, actions);
    var h := WireHolder(t, i);
    DiffArrives(t, i, h);
  }

  lemma DiffArrives(t: Sys, i: nat, h: nat)
    requires Good(t) && Enabled(t, Receive(i)) && h < t.w.n && OpOk(t, h) && i == 0 && |t.wire| == 1
    requires t.wire[0].msg.One?
    ensures var e, u := t.wire[0], Next(t, Receive(0));
            var before, after := t.w.mems[e.to].pages[e.msg.p], u.w.mems[e.to].pages[e.msg.p];
            && NoticeIdx(before.notices[e.from], e.msg.ts) < |before.notices[e.from]|
            && DiffOf(before.notices[e.from], e.msg.ts).None?
            && after.bytes == Add(before.bytes, e.msg.diff)
            && DiffOf(after.notices[e.from], e.msg.ts) == Some(e.msg.diff)
  {
    var p, c := t.ops[h].p, t.ops[h].at;
    var e := t.wire[0];
    var d := ReceiveOneNext(t, i, h);
    assert PageOk(t.w, h, p);
    GotDiffEntry(t.w.mems[h].pages[p], h, t.w.n, p, c.host, e.msg.ts, e.msg.diff);
  }
}
