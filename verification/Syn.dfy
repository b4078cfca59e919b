/**
 The lock part of one host's synchronisation state. The functions say what each procedure and
 message handler does to the state and which messages it sends; the class `SynNodes.SynNode` holds
 the C globals and is proved to do the same in place.
 */
module Syn {
  import opened Locks

  datatype Msg = AcqLock(lockno: int) | RlsLock(lockno: int) | GrantLock(lockno: int, lasthostid: int)

  datatype Envelope = Envelope(to: nat, msg: Msg)

  /** Host `me` of `n`; `locks` has an entry for every lock, of which only those with `l % n == me` are used. */
  datatype SynState = SynState(me: nat, n: nat, locks: seq<LockRec>, myLocks: seq<bool>, waitFlag: bool,
                               lasthostid: int)

  /** How `mi_lock` goes on after its checks: refused, told to wait, or given a free lock at once. */
  datatype LockStart = Refused(code: int) | Blocked | Given(lasthostid: int)

  /** Where `mi_lock` gets its new interval from. */
  datatype Source = Fetch(host: int) | OwnInterval | NoInterval

  predicate WellFormed(s: SynState) {
    s.me < s.n && |s.locks| == LOCK_NUM && |s.myLocks| == LOCK_NUM
  }

  predicate ValidLock(lockno: int) {
    0 <= lockno < LOCK_NUM
  }

  function Initial(me: nat, n: nat): SynState {
    SynState(me, n, seq(LOCK_NUM, _ => InitialLock), seq(LOCK_NUM, _ => false), false, -1)
  }

  /** C's remainder, which truncates towards zero. */
  function CRemainder(a: int, b: int): int
    requires b > 0
  {
    if a >= 0 then a % b else -((-a) % b)
  }

  function GraspLock(s: SynState, lockno: int, hostid: int): (SynState, int)
    requires WellFormed(s)
  {
    if !ValidLock(lockno) || hostid < 0 || hostid >= s.n then (s, -5)
    else if lockno % s.n != s.me then (s, -2)
    else
      var (rec, r) := GraspRec(s.locks[lockno], hostid);
      (s.(locks := s.locks[lockno := rec]), r)
  }

  function FreeLock(s: SynState, lockno: int, hostid: int): (SynState, int)
    requires WellFormed(s)
  {
    if !ValidLock(lockno) || hostid < 0 || hostid >= s.n then (s, -1)
    else if lockno % s.n != s.me then (s, -2)
    else
      var (rec, r) := ReleaseRec(s.locks[lockno], hostid);
      (s.(locks := s.locks[lockno := rec]), r)
  }

  /** The GRANT message, which quotes the record's last holder; nothing for the manager itself. */
  function Granting(s: SynState, lockno: int, hostid: int): seq<Envelope>
    requires WellFormed(s)
  {
    if ValidLock(lockno) && 0 <= hostid < s.n && hostid != s.me && lockno % s.n == s.me then
      [Envelope(hostid, GrantLock(lockno, s.locks[lockno].lasthostid))]
    else []
  }

  function HandleAcquire(s: SynState, lockno: int, from: nat): (SynState, seq<Envelope>)
    requires WellFormed(s)
  {
    var (t, r) := GraspLock(s, lockno, from);
    (t, if r >= -1 then Granting(t, lockno, from) else [])
  }

  function HandleRelease(s: SynState, lockno: int, from: nat): (SynState, seq<Envelope>)
    requires WellFormed(s)
  {
    var (t, r) := FreeLock(s, lockno, from);
    if r >= 0 && r == s.me then
      (t.(lasthostid := from, waitFlag := false, myLocks := t.myLocks[lockno := true]), [])
    else (t, if r >= 0 then Granting(t, lockno, r) else [])
  }

  function HandleGrant(s: SynState, lockno: int, lasthostid: int): SynState
    requires WellFormed(s)
  {
    if ValidLock(lockno) then
      s.(lasthostid := lasthostid, waitFlag := false, myLocks := s.myLocks[lockno := true])
    else s
  }

  /** `mi_lock` up to the point where it waits or knows the last holder. */
  function LockBegin(s: SynState, lockno: int): (SynState, seq<Envelope>, LockStart)
    requires WellFormed(s)
  {
    if !ValidLock(lockno) then (s, [], Refused(-1))
    else if s.myLocks[lockno] then (s, [], Refused(-2))
    else if lockno % s.n == s.me then
      var (t, r) := GraspLock(s, lockno, s.me);
      if r == -3 then (t.(waitFlag := true), [], Blocked)
      else if r >= -1 then (t, [], Given(r))
      else (t, [], Refused(r))
    else
      (s.(waitFlag := true), [Envelope(lockno % s.n, AcqLock(lockno))], Blocked)
  }

  /** The choice made by a `mi_lock` that was woken: the manager's own path has no fallback interval. */
  function WokenSource(s: SynState, lockno: int): (SynState, Source)
    requires WellFormed(s)
  {
    if s.lasthostid != -1 && s.lasthostid != s.me then (s.(lasthostid := -1), Fetch(s.lasthostid))
    else (s, if lockno % s.n == s.me then NoInterval else OwnInterval)
  }

  // ----- what the result codes say -----

  predicate BadArguments(s: SynState, lockno: int, hostid: int) {
    !ValidLock(lockno) || hostid < 0 || hostid >= s.n
  }

  /** A record as the manager keeps it: the last holder is a host or -1, those who wait are hosts. */
  predicate Plain(r: LockRec) {
    r.lasthostid >= -1 && forall i :: 0 <= i < |r.waiting| ==> r.waiting[i] >= 0
  }

  /** Each failure of `graspLock` has its own code; at least -1 is success, and names the last holder. */
  lemma GraspCodes(s: SynState, lockno: int, hostid: int)
    requires WellFormed(s) && (ValidLock(lockno) ==> Plain(s.locks[lockno]))
    ensures var (t, r) := GraspLock(s, lockno, hostid);
            var bad, foreign := BadArguments(s, lockno, hostid), lockno % s.n != s.me;
            && (r == -5 <==> bad) && (r == -2 <==> !bad && foreign)
            && (!bad && !foreign ==>
                  var rec := s.locks[lockno];
                  && (r == -4 <==> rec.state == LOCKED && rec.owner == hostid)
                  && (r == -3 <==> rec.state == LOCKED && rec.owner != hostid)
                  && (r >= -1 <==> rec.state == FREE) && (r >= -1 ==> r == rec.lasthostid))
            && (r == -5 || r == -4 || r == -2 ==> t.locks == s.locks)
  {
  }

  /** Each outcome of `freeLock` has its own code; a code of at least 0 is the next owner. */
  lemma FreeCodes(s: SynState, lockno: int, hostid: int)
    requires WellFormed(s) && (ValidLock(lockno) ==> Plain(s.locks[lockno]))
    ensures var (t, r) := FreeLock(s, lockno, hostid);
            var bad, foreign := BadArguments(s, lockno, hostid), lockno % s.n != s.me;
            && (r == -1 <==> bad) && (r == -2 <==> !bad && foreign)
            && (!bad && !foreign ==>
                  var rec := s.locks[lockno];
                  && (r == -3 <==> rec.state == FREE)
                  && (r == -4 <==> rec.state == LOCKED && rec.owner != hostid)
                  && (r == -5 <==> rec.state == LOCKED && rec.owner == hostid && rec.waiting == [])
                  && (r >= 0 ==> rec.waiting != [] && r == rec.waiting[0]))
            && (-4 <= r < 0 ==> t.locks == s.locks)
  {
  }

  /** `mi_unlock` on the manager prints an error for every result but "nobody waits" and another host. */
  predicate UnlockFails(s: SynState, lockno: nat)
    requires WellFormed(s) && ValidLock(lockno)
  {
    && lockno % s.n == s.me
    && var r := FreeLock(s.(myLocks := s.myLocks[lockno := false]), lockno, s.me).1;
       r != -5 && (r < 0 || r == s.me)
  }

  /** `mi_unlock` after its checks and its new interval: the manager frees, another host sends RLS. */
  function UnlockRelease(s: SynState, lockno: nat): (SynState, seq<Envelope>)
    requires WellFormed(s) && ValidLock(lockno)
  {
    if lockno % s.n == s.me then
      var (t, r) := FreeLock(s.(myLocks := s.myLocks[lockno := false]), lockno, s.me);
      (t, if r >= 0 && r != s.me then Granting(t, lockno, r) else [])
    else (s, [Envelope(lockno % s.n, RlsLock(lockno))])
  }
}
