/**
 Which one-lock runs keep the copies consistent: exactly those whose stores are all safe. In these,
 and so in every disciplined run, a host in its critical section reads what was written last.
 */
module FreshRuns {
  import opened Options
  import opened Vectors
  import opened Diffs
  import opened HostMem
  import opened CriticalLog
  import opened World
  import opened Writing
  import opened System
  import opened Coherence
  import opened CoherentSteps
  import opened CopySteps
  import opened Discipline
  import opened Guarantees
  import OneLock

  // ----- runs -----

  /** Every store of the run is safe. */
  ghost predicate SafeRun(s: Sys, actions: seq<Action>)
    requires Run(s, actions)
    decreases |actions|
  {
    actions == [] || (Safe(s, actions[0]) && SafeRun(Next(s, actions[0]), actions[1..]))
  }

  /** Every critical section of the run that obtains a page as a whole also writes it. */
  ghost predicate DisciplinedRun(s: Sys, actions: seq<Action>)
    requires Run(s, actions)
    decreases |actions|
  {
    actions == [] || (Disciplined(s, actions[0]) && DisciplinedRun(Next(s, actions[0]), actions[1..]))
  }

  /** At every moment of the run, every copy plus its pending diffs is the current page. */
  ghost predicate AlwaysConserved(s: Sys, actions: seq<Action>)
    requires Run(s, actions)
    decreases |actions|
  {
    Shape(s) && Conserving(s.w) && (actions != [] ==> AlwaysConserved(Next(s, actions[0]), actions[1..]))
  }

  // ----- the bytes last written -----

  /** The bytes of the last store to the page; pages start as zeros. */
  function LastWritten(actions: seq<Action>, p: nat): Page {
    if actions == [] then ZeroPage()
    else if actions[|actions| - 1].Write? && actions[|actions| - 1].p == p then actions[|actions| - 1].bytes
    else LastWritten(actions[..|actions| - 1], p)
  }

  lemma {:induction false} RunSnoc(s: Sys, actions: seq<Action>)
    requires Run(s, actions) && actions != []
    ensures var last := |actions| - 1;
            && Run(s, actions[..last]) && Enabled(Exec(s, actions[..last]), actions[last])
            && Exec(s, actions) == Next(Exec(s, actions[..last]), actions[last])
    decreases |actions|
  {
    var last := |actions| - 1;
    if last > 0 {
      RunSnoc(Next(s, actions[0]), actions[1..]);
      assert actions[1..][..last - 1] == actions[..last][1..];
    }
  }

  lemma {:induction false} CurrentIsLastWritten(s: Sys, actions: seq<Action>, p: nat)
    requires Init(s) && Run(s, actions) && p < |s.w.cur|
    ensures |Exec(s, actions).w.cur| == |s.w.cur| && Exec(s, actions).w.cur[p] == LastWritten(actions, p)
    decreases |actions|
  {
    if actions != [] {
      RunSnoc(s, actions);
      CurrentIsLastWritten(s, actions[..|actions| - 1], p);
      StepWrites(Exec(s, actions[..|actions| - 1]), actions[|actions| - 1], p);
    }
  }

  // ----- safe runs, and only those -----

  lemma {:induction false} SafeConsistent(s: Sys, actions: seq<Action>)
    requires Good(s) && Consistent(s) && Run(s, actions) && SafeRun(s, actions)
    ensures Good(Exec(s, actions)) && Consistent(Exec(s, actions))
    decreases |actions|
  {
    if actions != [] {
      StepConsistentIff(s, actions[0]);
      SafeConsistent(Next(s, actions[0]), actions[1..]);
    }
  }

  lemma {:induction false} ConservedIffSafeFrom(s: Sys, actions: seq<Action>)
    requires Good(s) && Consistent(s) && Run(s, actions)
    ensures AlwaysConserved(s, actions) <==> SafeRun(s, actions)
    decreases |actions|
  {
    if actions != [] {
      StepConsistentIff(s, actions[0]);
      if Safe(s, actions[0]) {
        ConservedIffSafeFrom(Next(s, actions[0]), actions[1..]);
      } else {
        assert !AlwaysConserved(Next(s, actions[0]), actions[1..]);
      }
    }
  }

  /** A run keeps every copy consistent at every moment if and only if all its stores are safe. */
  lemma ConservedIffSafe(s: Sys, actions: seq<Action>)
    requires Init(s) && Run(s, actions)
    ensures AlwaysConserved(s, actions) <==> SafeRun(s, actions)
  {
    InitGood(s);
    ConservedIffSafeFrom(s, actions);
  }

  /** The next store of a safe run keeps all copies consistent if and only if it is safe. */
  lemma NextStoreIff(s: Sys, actions: seq<Action>, h: nat, p: nat, bytes: Page)
    requires Init(s) && Run(s, actions) && SafeRun(s, actions) && Enabled(Exec(s, actions), Write(h, p, bytes))
    ensures var t := Exec(s, actions);
            && Good(Next(t, Write(h, p, bytes)))
            && (Conserving(Next(t, Write(h, p, bytes)).w) <==> SafeStore(t.w, h, p, bytes))
  {
    InitGood(s);
    SafeConsistent(s, actions);
    StepConsistentIff(Exec(s, actions), Write(h, p, bytes));
  }

  // ----- freshness -----

  /**
   In a safe run a host in its critical section reads the bytes last written by anyone, from every page it
   can read.
  */
  lemma Freshness(s: Sys, actions: seq<Action>, h: nat, p: nat)
    requires Init(s) && Run(s, actions) && SafeRun(s, actions) && h < s.w.n && p < |s.w.cur|
    ensures var t := Exec(s, actions);
            && Shape(t) && t.w.n == s.w.n && |t.w.cur| == |s.w.cur|
            && var e := t.w.mems[h].pages[p];
               t.lk.phase[h] == OneLock.Inside && (e.state == RDONLY || e.state == WRITE) ==>
                 e.bytes == LastWritten(actions, p)
  {
    InitGood(s);
    SafeConsistent(s, actions);
    Reached(s, actions);
    CurrentIsLastWritten(s, actions, p);
    var t := Exec(s, actions);
    if t.lk.phase[h] == OneLock.Inside && t.w.mems[h].pages[p].state in {RDONLY, WRITE} {
      HolderReadsCurrent(t.w, h, p);
    }
  }

  /** In a safe run, on every host at every moment: copy plus pending diffs is the page as last written. */
  lemma Conservation(s: Sys, actions: seq<Action>, h: nat, p: nat)
    requires Init(s) && Run(s, actions) && SafeRun(s, actions) && h < s.w.n && p < |s.w.cur|
    ensures var t := Exec(s, actions);
            && Shape(t) && t.w.n == s.w.n && |t.w.cur| == |s.w.cur|
            && var e := t.w.mems[h].pages[p];
               (e.state != MISS ==> Add(e.bytes, Total(Terms(t.w, h, p))) == LastWritten(actions, p))
  {
    InitGood(s);
    SafeConsistent(s, actions);
    Reached(s, actions);
    CurrentIsLastWritten(s, actions, p);
    assert Conserved(Exec(s, actions).w, h, p);
  }

  /** Byte by byte: the copy's byte and those of the pending diffs add up to the byte last written, modulo 256. */
  lemma BytesAddUp(s: Sys, actions: seq<Action>, h: nat, p: nat, i: nat)
    requires Init(s) && Run(s, actions) && SafeRun(s, actions) && h < s.w.n && p < |s.w.cur| && i < PAGESIZE
    ensures var t := Exec(s, actions);
            && Shape(t) && t.w.n == s.w.n && |t.w.cur| == |s.w.cur|
            && t.w.cur[p] == LastWritten(actions, p) && ByteConserved(t.w, h, p, i)
  {
    InitGood(s);
    SafeConsistent(s, actions);
    Reached(s, actions);
    CurrentIsLastWritten(s, actions, p);
    assert Conserved(Exec(s, actions).w, h, p);
    CopyAddsUp(Exec(s, actions).w, h, p, i);
  }

  // ----- disciplined runs -----

  lemma {:induction false} DisciplinedSafeFrom(s: Sys, actions: seq<Action>)
    requires Good(s) && Rewritten(s.w) && Run(s, actions) && DisciplinedRun(s, actions)
    ensures SafeRun(s, actions)
    decreases |actions|
  {
    if actions != [] {
      StepSafe(s, actions[0]);
      StepKeeps(s, actions[0]);
      StepRewritten(s, actions[0]);
      DisciplinedSafeFrom(Next(s, actions[0]), actions[1..]);
    }
  }

  lemma InitRewritten(s: Sys)
    requires Init(s) && Good(s)
    ensures Rewritten(s.w)
  {
    forall h, p | 0 <= h < s.w.n && 0 <= p < |s.w.cur|
      ensures CopyRewritten(s.w, h, p)
    {
      assert InitialMem(s.w.mems[h], h, s.w.n);
      assert InitialEntry(s.w.mems[h].pages[p], h, s.w.n, p);
    }
  }

  /** A disciplined run is safe. */
  lemma DisciplinedIsSafe(s: Sys, actions: seq<Action>)
    requires Init(s) && Run(s, actions) && DisciplinedRun(s, actions)
    ensures SafeRun(s, actions)
  {
    InitGood(s);
    InitRewritten(s);
    DisciplinedSafeFrom(s, actions);
  }

  /** So with the discipline copies are always consistent and reads are fresh. */
  lemma DisciplinedFreshness(s: Sys, actions: seq<Action>, h: nat, p: nat)
    requires Init(s) && Run(s, actions) && DisciplinedRun(s, actions) && h < s.w.n && p < |s.w.cur|
    ensures AlwaysConserved(s, actions)
    ensures var t := Exec(s, actions);
            && Shape(t) && t.w.n == s.w.n && |t.w.cur| == |s.w.cur|
            && var e := t.w.mems[h].pages[p];
               t.lk.phase[h] == OneLock.Inside && (e.state == RDONLY || e.state == WRITE) ==>
                 e.bytes == LastWritten(actions, p)
  {
    DisciplinedIsSafe(s, actions);
    ConservedIffSafe(s, actions);
    Freshness(s, actions, h, p);
  }
}
