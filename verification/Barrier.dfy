/**
 The centralised barrier, over any number of hosts. Host 0 collects a flag and a vector from every
 host; the last arrival makes it broadcast the new vector and clear both. Channels to and from host 0
 are FIFO. A host's entry information is one or more messages of which only the first has a vector,
 and so is the exit information. Between barriers a host's vector may change in any way.
*/
module Barrier {
  import opened Options
  import opened Vectors

  datatype Up = EnterInfo(ts: Vec) | EnterBarrier

  datatype Down = ExitInfo(ts: Vec) | ExitBarrier

  /**
   `entered`, `left`, `atEntry` and `rounds` record the history: the counts, and the vectors with which hosts
   entered.
  */
  datatype State = State(
    n: nat, vecs: seq<Vec>, waiting: seq<bool>, flags: seq<bool>, rows: seq<Vec>, up: seq<seq<Up>>,
      down: seq<seq<Down>>,
    entered: seq<nat>, left: seq<nat>, atEntry: seq<Vec>, rounds: seq<seq<Vec>>)

  datatype Action =
    | Progress(h: nat, v: Vec)                // locks, unlocks: a host outside a barrier gets another vector
    | Enter(h: nat, extra: nat)               // mi_barrier on another host, with that many further info messages
    | EnterManager(extras: seq<nat>)          // mi_barrier on host 0
    | DeliverUp(h: nat, extras: seq<nat>)
    | DeliverDown(h: nat)

  ghost predicate VecOk(n: nat, v: Vec) {
    |v| == n && forall i :: 0 <= i < n ==> v[i] >= 0
  }

  ghost predicate Shape(s: State) {
    && 0 < s.n && |s.vecs| == |s.waiting| == |s.flags| == |s.rows| == |s.up| == |s.down| == s.n
    && |s.entered| == |s.left| == |s.atEntry| == s.n
    && (forall h :: 0 <= h < s.n ==> |s.rows[h]| == s.n)
    && (forall h :: 0 <= h < s.n ==> VecOk(s.n, s.vecs[h]) && VecOk(s.n, s.atEntry[h]))
    && (forall h, i :: 0 <= h < s.n && 0 <= i < |s.up[h]| ==> s.up[h][i].EnterInfo? ==> |s.up[h][i].ts| == s.n)
    && (forall h, i :: 0 <= h < s.n && 0 <= i < |s.down[h]| ==> s.down[h][i].ExitInfo? ==> |s.down[h][i].ts| == s.n)
  }

  /** The first component of a message's vector tells whether it has one. */
  predicate IsSet(v: Vec) {
    v != [] && v[0] != -1
  }

  /** The vector broadcast after a round: every host's own component, plus one. */
  function ExitVec(rows: seq<Vec>): (v: Vec)
    ensures |v| == |rows|
  {
    seq(|rows|, i requires 0 <= i < |rows| => if i < |rows[i]| then rows[i][i] + 1 else 0)
  }

  function EnterMsgs(n: nat, v: Vec, extra: nat): (r: seq<Up>)
    ensures |r| == extra + 2 && r[0] == EnterInfo(v) && r[extra + 1] == EnterBarrier
    ensures forall i :: 1 <= i <= extra ==> r[i] == EnterInfo(Unset(n))
  {
    [EnterInfo(v)] + seq(extra, _ => EnterInfo(Unset(n))) + [EnterBarrier]
  }

  function ExitMsgs(n: nat, v: Vec, extra: nat): (r: seq<Down>)
    ensures |r| == extra + 2 && r[0] == ExitInfo(v) && r[extra + 1] == ExitBarrier
    ensures forall i :: 1 <= i <= extra ==> r[i] == ExitInfo(Unset(n))
  {
    [ExitInfo(v)] + seq(extra, _ => ExitInfo(Unset(n))) + [ExitBarrier]
  }

  ghost predicate AllSet(flags: seq<bool>) {
    forall h :: 0 <= h < |flags| ==> flags[h]
  }

  ghost predicate Enabled(s: State, a: Action) {
    && Shape(s)
    && match a
       case Progress(h, v) => h < s.n && !s.waiting[h] && VecOk(s.n, v)
       case Enter(h, _) => 0 < h < s.n && !s.waiting[h]
       case EnterManager(extras) => !s.waiting[0] && |extras| == s.n
       case DeliverUp(h, extras) => h < s.n && s.up[h] != [] && |extras| == s.n
       case DeliverDown(h) => h < s.n && s.down[h] != []
  }

  /**
   `checkBarrierFlags`: once all flags are set, broadcast, take the new vector, clear flags and rows; host 0
   goes on.
  */
  ghost function Check(s: State, extras: seq<nat>): State
    requires Shape(s) && |extras| == s.n
  {
    if AllSet(s.flags) then
      var v := ExitVec(s.rows);
      s.(vecs := s.vecs[0 := v],
         down := seq(s.n, h requires 0 <= h < s.n =>
                     if h == 0 then s.down[0] else s.down[h] + ExitMsgs(s.n, v, extras[h])),
         rows := seq(s.n, _ => Unset(s.n)), flags := seq(s.n, _ => false),
         waiting := s.waiting[0 := false], left := s.left[0 := s.left[0] + 1], rounds := s.rounds + [s.atEntry])
    else s
  }

  ghost function Next(s: State, a: Action): State
    requires Enabled(s, a)
  {
    match a
    case Progress(h, v) => s.(vecs := s.vecs[h := v])
    case Enter(h, extra) =>
      s.(up := s.up[h := s.up[h] + EnterMsgs(s.n, s.vecs[h], extra)], waiting := s.waiting[h := true],
         entered := s.entered[h := s.entered[h] + 1], atEntry := s.atEntry[h := s.vecs[h]])
    case EnterManager(extras) =>
      Check(s.(flags := s.flags[0 := true], rows := s.rows[0 := s.vecs[0]], waiting := s.waiting[0 := true],
               entered := s.entered[0 := s.entered[0] + 1], atEntry := s.atEntry[0 := s.vecs[0]]), extras)
    case DeliverUp(h, extras) =>
      var t := s.(up := s.up[h := s.up[h][1..]]);
      match s.up[h][0] {
        case EnterInfo(ts) => if IsSet(ts) && !IsSet(s.rows[h]) then t.(rows := t.rows[h := ts]) else t
        case EnterBarrier => Check(t.(flags := t.flags[h := true]), extras)
      }
    case DeliverDown(h) =>
      var t := s.(down := s.down[h := s.down[h][1..]]);
      match s.down[h][0] {
        case ExitInfo(ts) => if IsSet(ts) then t.(vecs := t.vecs[h := ts]) else t
        case ExitBarrier => t.(waiting := t.waiting[h := false], left := t.left[h := t.left[h] + 1])
      }
  }

  ghost predicate Init(s: State) {
    && Shape(s)
    && (forall h :: 0 <= h < s.n ==>
          !s.waiting[h] && !s.flags[h] && s.rows[h] == Unset(s.n) && s.up[h] == [] && s.down[h] == [])
    && (forall h :: 0 <= h < s.n ==> s.entered[h] == 0 && s.left[h] == 0)
    && s.rounds == []
  }

  // ----- the invariant, host by host -----

  /** Not in a barrier. */
  ghost predicate Outside(s: State, h: nat)
    requires Shape(s) && h < s.n
  {
    && !s.waiting[h] && s.up[h] == [] && s.down[h] == [] && !s.flags[h] && !IsSet(s.rows[h])
    && s.entered[h] == s.left[h] == |s.rounds|
  }

  /** Entered, with messages on the way to host 0; only the first can carry the vector. */
  ghost predicate Entering(s: State, h: nat)
    requires Shape(s) && h < s.n
  {
    && 0 < h && s.waiting[h] && s.up[h] != [] && s.down[h] == [] && !s.flags[h]
    && s.up[h][|s.up[h]| - 1] == EnterBarrier
    && (forall i :: 0 <= i < |s.up[h]| - 1 ==> s.up[h][i].EnterInfo? && (i > 0 ==> !IsSet(s.up[h][i].ts)))
    && (if s.up[h][0].EnterInfo? && IsSet(s.up[h][0].ts) then s.up[h][0].ts == s.vecs[h] && !IsSet(s.rows[h])
        else s.rows[h] == s.vecs[h])
    && s.atEntry[h] == s.vecs[h] && s.entered[h] == |s.rounds| + 1 && s.left[h] == |s.rounds|
  }

  /** Entered, and host 0 knows. */
  ghost predicate Arrived(s: State, h: nat)
    requires Shape(s) && h < s.n
  {
    && s.waiting[h] && s.up[h] == [] && s.down[h] == [] && s.flags[h]
    && s.rows[h] == s.vecs[h] == s.atEntry[h] && s.entered[h] == |s.rounds| + 1 && s.left[h] == |s.rounds|
  }

  /** The round is complete, with messages on the way back. */
  ghost predicate Leaving(s: State, h: nat)
    requires Shape(s) && h < s.n
  {
    && 0 < h && s.waiting[h] && s.up[h] == [] && s.down[h] != [] && !s.flags[h] && !IsSet(s.rows[h])
    && s.down[h][|s.down[h]| - 1] == ExitBarrier && s.rounds != []
    && (forall i :: 0 <= i < |s.down[h]| - 1 ==> s.down[h][i].ExitInfo? && (i > 0 ==> !IsSet(s.down[h][i].ts)))
    && (if s.down[h][0].ExitInfo? && IsSet(s.down[h][0].ts) then s.down[h][0].ts == ExitVec(s.rounds[|s.rounds| - 1])
        else s.vecs[h] == ExitVec(s.rounds[|s.rounds| - 1]))
    && s.entered[h] == |s.rounds| && s.left[h] + 1 == |s.rounds|
  }

  ghost predicate HostOk(s: State, h: nat)
    requires Shape(s) && h < s.n
  {
    Outside(s, h) || Entering(s, h) || Arrived(s, h) || Leaving(s, h)
  }

  ghost predicate Inv(s: State) {
    && Shape(s) && (forall h :: 0 <= h < s.n ==> HostOk(s, h)) && !AllSet(s.flags)
    && (forall k :: 0 <= k < |s.rounds| ==> RoundOk(s.n, s.rounds[k]))
  }

  ghost predicate RoundOk(n: nat, round: seq<Vec>) {
    |round| == n && forall h :: 0 <= h < n ==> VecOk(n, round[h])
  }

  lemma InitInv(s: State)
    requires Init(s)
    ensures Inv(s)
  {
    assert !s.flags[0];
  }

  // ----- steps -----

  /** The invariant, but the last flag may just have been set. */
  ghost predicate Ready(s: State) {
    && Shape(s) && (forall h :: 0 <= h < s.n ==> HostOk(s, h))
    && (forall k :: 0 <= k < |s.rounds| ==> RoundOk(s.n, s.rounds[k]))
  }

  /** When all flags are set, every row of host 0's table is the vector its host entered this round with. */
  lemma RowsFilled(s: State)
    requires Ready(s) && AllSet(s.flags)
    ensures s.rows == s.atEntry && forall h :: 0 <= h < s.n ==> Arrived(s, h)
  {
    forall h | 0 <= h < s.n
      ensures Arrived(s, h) && s.rows[h] == s.atEntry[h]
    {
      assert HostOk(s, h);
    }
  }

  lemma CheckShape(s: State, extras: seq<nat>)
    requires Ready(s) && |extras| == s.n
    ensures Shape(Check(s, extras))
  {
    if AllSet(s.flags) {
      RowsFilled(s);
      var t := Check(s, extras);
      forall h | 0 <= h < s.n
        ensures VecOk(s.n, t.vecs[h]) && |t.rows[h]| == s.n
        ensures forall i :: 0 <= i < |t.down[h]| ==> t.down[h][i].ExitInfo? ==> |t.down[h][i].ts| == s.n
      {
        assert Arrived(s, h);
      }
    }
  }

  lemma CheckManager(s: State, extras: seq<nat>)
    requires Ready(s) && |extras| == s.n && AllSet(s.flags) && Shape(Check(s, extras))
    ensures Outside(Check(s, extras), 0)
  {
    RowsFilled(s);
    assert HostOk(s, 0);
    assert Arrived(s, 0);
  }

  lemma CheckOther(s: State, extras: seq<nat>, h: nat)
    requires Ready(s) && |extras| == s.n && AllSet(s.flags) && 0 < h < s.n && Shape(Check(s, extras))
    ensures Leaving(Check(s, extras), h)
  {
    RowsFilled(s);
    var t := Check(s, extras);
    assert t.rounds[|t.rounds| - 1] == s.rows;
    assert Arrived(s, h);
    assert t.down[h] == ExitMsgs(s.n, ExitVec(s.rows), extras[h]);
    assert VecOk(s.n, ExitVec(s.rows));
  }

  lemma CheckHost(s: State, extras: seq<nat>, h: nat)
    requires Ready(s) && |extras| == s.n && AllSet(s.flags) && h < s.n && Shape(Check(s, extras))
    ensures HostOk(Check(s, extras), h)
  {
    if h == 0 {
      CheckManager(s, extras);
    } else {
      CheckOther(s, extras, h);
    }
  }

  lemma CheckKeeps(s: State, extras: seq<nat>)
    requires Ready(s) && |extras| == s.n
    ensures Inv(Check(s, extras))
  {
    CheckShape(s, extras);
    if AllSet(s.flags) {
      assert !Check(s, extras).flags[0];
      forall h | 0 <= h < s.n
        ensures HostOk(Check(s, extras), h)
      {
        CheckHost(s, extras, h);
      }
    }
  }

  /** What a host's condition depends on. */
  ghost predicate SameHost(s: State, t: State, g: nat)
    requires Shape(s) && Shape(t) && t.n == s.n && g < s.n
  {
    && t.rounds == s.rounds && t.waiting[g] == s.waiting[g] && t.up[g] == s.up[g] && t.down[g] == s.down[g]
    && t.flags[g] == s.flags[g] && t.rows[g] == s.rows[g] && t.vecs[g] == s.vecs[g] && t.atEntry[g] == s.atEntry[g]
    && t.entered[g] == s.entered[g] && t.left[g] == s.left[g]
  }

  lemma HostStays(s: State, t: State, g: nat)
    requires Shape(s) && Shape(t) && t.n == s.n && g < s.n && SameHost(s, t, g) && HostOk(s, g)
    ensures HostOk(t, g)
  {
  }

  lemma EnteringHost(s: State, h: nat, extra: nat)
    requires Inv(s) && Enabled(s, Enter(h, extra)) && Shape(Next(s, Enter(h, extra)))
    ensures Entering(Next(s, Enter(h, extra)), h)
  {
    var t := Next(s, Enter(h, extra));
    assert Outside(s, h) by { assert HostOk(s, h); }
    assert t.up[h] == EnterMsgs(s.n, s.vecs[h], extra);
  }

  lemma EnterShape(s: State, h: nat, extra: nat)
    requires Shape(s) && Enabled(s, Enter(h, extra))
    ensures Shape(Next(s, Enter(h, extra)))
  {
    var t := Next(s, Enter(h, extra));
    forall g, i | 0 <= g < t.n && 0 <= i < |t.up[g]| && t.up[g][i].EnterInfo?
      ensures |t.up[g][i].ts| == t.n
    {
      if g == h && i >= |s.up[h]| {
        assert t.up[h][i] == EnterMsgs(s.n, s.vecs[h], extra)[i - |s.up[h]|];
      } else {
        assert t.up[g][i] == s.up[g][i];
      }
    }
  }

  lemma EnterKeeps(s: State, h: nat, extra: nat)
    requires Inv(s) && Enabled(s, Enter(h, extra))
    ensures Inv(Next(s, Enter(h, extra)))
  {
    var t := Next(s, Enter(h, extra));
    EnterShape(s, h, extra);
    EnteringHost(s, h, extra);
    forall g | 0 <= g < s.n
      ensures HostOk(t, g)
    {
      assert HostOk(s, g);
      if g != h {
        HostStays(s, t, g);
      }
    }
    assert exists g :: 0 <= g < s.n && !s.flags[g];
  }

  lemma EnterManagerKeeps(s: State, extras: seq<nat>)
    requires Inv(s) && Enabled(s, EnterManager(extras))
    ensures Inv(Next(s, EnterManager(extras)))
  {
    var t := s.(flags := s.flags[0 := true], rows := s.rows[0 := s.vecs[0]], waiting := s.waiting[0 := true],
                entered := s.entered[0 := s.entered[0] + 1], atEntry := s.atEntry[0 := s.vecs[0]]);
    assert Outside(s, 0) by { assert HostOk(s, 0); }
    assert Shape(t);
    forall g | 0 <= g < s.n
      ensures HostOk(t, g)
    {
      assert HostOk(s, g);
      if g == 0 {
        assert Arrived(t, 0);
      }
    }
    CheckKeeps(t, extras);
  }

  lemma DeliverInfoKeeps(s: State, h: nat, extras: seq<nat>)
    requires Inv(s) && Enabled(s, DeliverUp(h, extras)) && s.up[h][0].EnterInfo?
    ensures Inv(Next(s, DeliverUp(h, extras)))
  {
    assert Entering(s, h) by { assert HostOk(s, h); }
    var u := Next(s, DeliverUp(h, extras));
    assert Shape(u);
    assert Entering(u, h);
    forall g | 0 <= g < s.n
      ensures HostOk(u, g)
    {
      assert HostOk(s, g);
    }
    assert exists g :: 0 <= g < s.n && !s.flags[g];
  }

  lemma DeliverUpKeeps(s: State, h: nat, extras: seq<nat>)
    requires Inv(s) && Enabled(s, DeliverUp(h, extras))
    ensures Inv(Next(s, DeliverUp(h, extras)))
  {
    if s.up[h][0].EnterInfo? {
      DeliverInfoKeeps(s, h, extras);
    } else {
      assert Entering(s, h) by { assert HostOk(s, h); }
      var u := s.(up := s.up[h := s.up[h][1..]], flags := s.flags[h := true]);
      assert |s.up[h]| == 1;
      assert Arrived(u, h);
      forall g | 0 <= g < s.n
        ensures HostOk(u, g)
      {
        assert HostOk(s, g);
      }
      CheckKeeps(u, extras);
    }
  }

  lemma LeavingHost(s: State, h: nat)
    requires Inv(s) && Enabled(s, DeliverDown(h))
    ensures Shape(Next(s, DeliverDown(h))) && HostOk(Next(s, DeliverDown(h)), h)
  {
    assert Leaving(s, h) by { assert HostOk(s, h); }
    var u := Next(s, DeliverDown(h));
    assert RoundOk(s.n, s.rounds[|s.rounds| - 1]);
    assert VecOk(s.n, ExitVec(s.rounds[|s.rounds| - 1]));
    if s.down[h][0] == ExitBarrier {
      assert |s.down[h]| == 1;
      assert Outside(u, h);
    } else {
      assert Leaving(u, h);
    }
  }

  lemma DeliverDownKeeps(s: State, h: nat)
    requires Inv(s) && Enabled(s, DeliverDown(h))
    ensures Inv(Next(s, DeliverDown(h)))
  {
    LeavingHost(s, h);
    forall g | 0 <= g < s.n
      ensures HostOk(Next(s, DeliverDown(h)), g)
    {
      assert HostOk(s, g);
    }
    assert exists g :: 0 <= g < s.n && !s.flags[g];
  }

  lemma ProgressKeeps(s: State, h: nat, v: Vec)
    requires Inv(s) && Enabled(s, Progress(h, v))
    ensures Inv(Next(s, Progress(h, v)))
  {
    var t := Next(s, Progress(h, v));
    forall g | 0 <= g < s.n
      ensures HostOk(t, g)
    {
      assert HostOk(s, g);
    }
    assert exists g :: 0 <= g < s.n && !s.flags[g];
  }

  lemma StepInv(s: State, a: Action)
    requires Inv(s) && Enabled(s, a)
    ensures Inv(Next(s, a))
  {
    match a {
      case Progress(h, v) => ProgressKeeps(s, h, v);
      case Enter(h, extra) => EnterKeeps(s, h, extra);
      case EnterManager(extras) => EnterManagerKeeps(s, extras);
      case DeliverUp(h, extras) => DeliverUpKeeps(s, h, extras);
      case DeliverDown(h) => DeliverDownKeeps(s, h);
    }
  }

  // ----- runs -----

  ghost predicate Run(s: State, actions: seq<Action>)
    decreases |actions|
  {
    actions == [] || (Enabled(s, actions[0]) && Run(Next(s, actions[0]), actions[1..]))
  }

  ghost function Exec(s: State, actions: seq<Action>): State
    requires Run(s, actions)
    decreases |actions|
  {
    if actions == [] then s else Exec(Next(s, actions[0]), actions[1..])
  }

  lemma {:induction false} RunInv(s: State, actions: seq<Action>)
    requires Inv(s) && Run(s, actions)
    ensures Inv(Exec(s, actions)) && Exec(s, actions).n == s.n
    decreases |actions|
  {
    if actions != [] {
      StepInv(s, actions[0]);
      RunInv(Next(s, actions[0]), actions[1..]);
    }
  }

  // ----- safety -----

  /** Nobody has left more barriers than everybody has entered, and the counts never differ by more than one. */
  lemma BarrierSafety(s: State, actions: seq<Action>, g: nat, h: nat)
    requires Init(s) && Run(s, actions) && g < s.n && h < s.n
    ensures var t := Exec(s, actions);
            && Shape(t) && t.n == s.n
            && t.left[h] <= t.entered[g] && t.left[h] <= t.entered[h] <= t.left[h] + 1
            && t.entered[g] <= t.entered[h] + 1 && t.left[g] <= t.left[h] + 1
            && t.left[h] <= |t.rounds| <= t.entered[g] <= |t.rounds| + 1
            && (t.waiting[h] <==> t.entered[h] == t.left[h] + 1)
  {
    InitInv(s);
    RunInv(s, actions);
    assert HostOk(Exec(s, actions), g) && HostOk(Exec(s, actions), h);
  }

  /** What a step does to one host's flag and row. */
  ghost predicate FlagStep(t: State, u: State, h: nat)
    requires Shape(t) && Shape(u) && u.n == t.n && h < t.n
  {
    && (u.rounds == t.rounds && t.flags[h] ==> u.flags[h])
    && (u.rounds != t.rounds ==>
          |u.rounds| == |t.rounds| + 1 && !u.flags[h] && !IsSet(u.rows[h]) && u.entered[h] == |u.rounds|)
  }

  lemma FlagsStep(t: State, a: Action, h: nat)
    requires Inv(t) && Enabled(t, a) && Inv(Next(t, a)) && h < t.n
    ensures Next(t, a).n == t.n && FlagStep(t, Next(t, a), h)
  {
    assert HostOk(t, h) && HostOk(Next(t, a), h);
    var u := Next(t, a);
    assert |u.rounds| == |t.rounds| || |u.rounds| == |t.rounds| + 1;
  }

  /** Flags are cleared only when a round completes, then all of them, and every host has arrived. */
  lemma FlagsResetOncePerRound(s: State, before: seq<Action>, a: Action)
    requires Init(s) && Run(s, before) && Enabled(Exec(s, before), a)
    ensures var t, u := Exec(s, before), Next(Exec(s, before), a);
            && Shape(t) && Shape(u) && u.n == t.n
            && (u.rounds == t.rounds ==> forall h :: 0 <= h < t.n && t.flags[h] ==> u.flags[h])
            && (u.rounds != t.rounds ==>
                  && |u.rounds| == |t.rounds| + 1
                  && (forall h :: 0 <= h < t.n ==> !u.flags[h] && !IsSet(u.rows[h]))
                  && (forall h :: 0 <= h < t.n ==> u.entered[h] == |u.rounds|))
  {
    InitInv(s);
    RunInv(s, before);
    var t := Exec(s, before);
    StepInv(t, a);
    var u := Next(t, a);
    forall h | 0 <= h < t.n
      ensures u.rounds == t.rounds && t.flags[h] ==> u.flags[h]
      ensures u.rounds != t.rounds ==> |u.rounds| == |t.rounds| + 1 && u.entered[h] == |u.rounds|
      ensures u.rounds != t.rounds ==> !u.flags[h] && !IsSet(u.rows[h])
    {
      FlagsStep(t, a, h);
    }
    assert 0 < t.n;
  }

  // ----- the vectors -----

  /** What round `k` knows of host `h`, before and after it is complete. */
  ghost predicate Recorded(s: State, k: nat, h: nat, v: Vec)
    requires Shape(s) && h < s.n
  {
    if |s.rounds| <= k then |s.rounds| == k && s.entered[h] == k + 1 && s.atEntry[h] == v
    else |s.rounds[k]| == s.n && s.rounds[k][h] == v
  }

  lemma StepRecorded(s: State, a: Action, k: nat, h: nat, v: Vec)
    requires Inv(s) && Enabled(s, a) && h < s.n && Recorded(s, k, h, v)
    ensures Inv(Next(s, a)) && Recorded(Next(s, a), k, h, v)
  {
    StepInv(s, a);
    assert HostOk(s, h);
  }

  lemma {:induction false} RunRecorded(s: State, actions: seq<Action>, k: nat, h: nat, v: Vec)
    requires Inv(s) && Run(s, actions) && h < s.n && Recorded(s, k, h, v)
    ensures Inv(Exec(s, actions)) && Exec(s, actions).n == s.n && Recorded(Exec(s, actions), k, h, v)
    decreases |actions|
  {
    if actions != [] {
      StepRecorded(s, actions[0], k, h, v);
      RunRecorded(Next(s, actions[0]), actions[1..], k, h, v);
    }
  }

  /** The vector recorded for a host's round is the one it had when it entered that barrier. */
  lemma RoundsRecordEntries(s: State, before: seq<Action>, a: Action, after: seq<Action>, h: nat)
    requires Init(s) && Run(s, before) && h < s.n && Enabled(Exec(s, before), a)
    requires (a.Enter? && a.h == h) || (a.EnterManager? && h == 0)
    requires Run(Next(Exec(s, before), a), after)
    ensures var t, u := Exec(s, before), Exec(Next(Exec(s, before), a), after);
            && Shape(t) && Shape(u) && t.n == u.n == s.n
            && (|u.rounds| > t.entered[h] ==> |u.rounds[t.entered[h]]| == s.n && u.rounds[t.entered[h]][h] == t.vecs[h])
  {
    InitInv(s);
    RunInv(s, before);
    var t := Exec(s, before);
    assert HostOk(t, h);
    StepInv(t, a);
    RunRecorded(Next(t, a), after, t.entered[h], h, t.vecs[h]);
  }

  /** The vector taken from a round: component i is host i's own at entry, plus one. */
  ghost predicate LeavesWith(n: nat, round: seq<Vec>, v: Vec) {
    RoundOk(n, round) && v == ExitVec(round) && forall i :: 0 <= i < n ==> |round[i]| == n && v[i] == round[i][i] + 1
  }

  /**
   A host that leaves its k-th barrier has the vector of that round: component i is host i's own at entry,
   plus one.
  */
  lemma LeavesWithRoundVector(s: State, before: seq<Action>, a: Action, h: nat)
    requires Init(s) && Run(s, before) && h < s.n && Enabled(Exec(s, before), a)
    ensures var t, u := Exec(s, before), Next(Exec(s, before), a);
            && Shape(t) && Shape(u) && t.n == u.n == s.n
            && (u.left[h] != t.left[h] ==>
                  0 < u.left[h] <= |u.rounds| && LeavesWith(s.n, u.rounds[u.left[h] - 1], u.vecs[h]))
  {
    InitInv(s);
    RunInv(s, before);
    LeavingStep(Exec(s, before), a, h);
  }

  lemma LeavingStep(t: State, a: Action, h: nat)
    requires Inv(t) && Enabled(t, a) && h < t.n
    ensures var u := Next(t, a);
            && Shape(u) && u.n == t.n
            && (u.left[h] != t.left[h] ==>
                  0 < u.left[h] <= |u.rounds| && LeavesWith(t.n, u.rounds[u.left[h] - 1], u.vecs[h]))
  {
    StepInv(t, a);
    if Next(t, a).left[h] != t.left[h] {
      LeavingVector(t, a, h);
    }
  }

  lemma LeavingVector(t: State, a: Action, h: nat)
    requires Inv(t) && Enabled(t, a) && Inv(Next(t, a)) && h < t.n && Next(t, a).left[h] != t.left[h]
    ensures var u := Next(t, a);
            0 < u.left[h] <= |u.rounds| && LeavesWith(t.n, u.rounds[u.left[h] - 1], u.vecs[h])
  {
    assert HostOk(t, h);
    if a.DeliverDown? {
      assert Leaving(t, h);
    } else if a.DeliverUp? {
      CompletingUp(t, a.h, a.extras);
    } else {
      CompletingManager(t, a.extras);
    }
  }

  lemma CompletingUp(t: State, h: nat, extras: seq<nat>)
    requires Inv(t) && Enabled(t, DeliverUp(h, extras))
    ensures var u := Next(t, DeliverUp(h, extras));
            u.left[0] != t.left[0] ==> u.rounds == t.rounds + [t.atEntry] && u.vecs[0] == ExitVec(t.atEntry)
  {
    if t.up[h][0] == EnterBarrier {
      var w := t.(up := t.up[h := t.up[h][1..]], flags := t.flags[h := true]);
      assert Entering(t, h) by { assert HostOk(t, h); }
      assert Arrived(w, h);
      LastArrival(t, w, h);
    }
  }

  lemma CompletingManager(t: State, extras: seq<nat>)
    requires Inv(t) && Enabled(t, EnterManager(extras))
    ensures var u := Next(t, EnterManager(extras));
            u.left[0] != t.left[0] ==>
              && u.rounds == t.rounds + [t.atEntry[0 := t.vecs[0]]]
              && u.vecs[0] == ExitVec(t.atEntry[0 := t.vecs[0]])
  {
    var w := t.(flags := t.flags[0 := true], rows := t.rows[0 := t.vecs[0]], waiting := t.waiting[0 := true],
                entered := t.entered[0 := t.entered[0] + 1], atEntry := t.atEntry[0 := t.vecs[0]]);
    assert Outside(t, 0) by { assert HostOk(t, 0); }
    assert Arrived(w, 0);
    LastArrival(t, w, 0);
  }

  lemma LastArrival(t: State, w: State, g: nat)
    requires Inv(t) && Shape(w) && w.n == t.n && g < t.n && Arrived(w, g) && w.rounds == t.rounds
    requires forall x :: 0 <= x < t.n && x != g ==> HostOk(t, x) ==> HostOk(w, x)
    ensures AllSet(w.flags) ==> w.rows == w.atEntry
  {
    forall x | 0 <= x < t.n
      ensures HostOk(w, x)
    {
      assert HostOk(t, x);
    }
    if AllSet(w.flags) {
      RowsFilled(w);
    }
  }

  /**
   The new vector is strictly above host j's vector at entry exactly if no host was ahead of any other in
   that other's own component by more than one.
  */
  lemma ExitDominates(round: seq<Vec>, j: nat)
    requires RoundOk(|round|, round) && j < |round|
    ensures After(ExitVec(round), round[j]) <==> forall i :: 0 <= i < |round| ==> round[j][i] <= round[i][i] + 1
  {
    var v := ExitVec(round);
    assert v[j] != round[j][j];
    assert forall i :: 0 <= i < |round| ==> v[i] == round[i][i] + 1;
  }
}
