/**
 The two nested loops of `fetchDiff`: for every other host, walk its notice list from the newest
 notice until one has a diff, and ask for the diff of each notice after the start of the copy.
 */
module DiffFetching {
  import opened Options
  import opened Vectors
  import opened Diffs
  import opened HostMem
  import opened PageStates

  /** Where the loops are: a host and a position in its notice list. */
  datatype Cursor = Cursor(host: nat, pos: nat)

  /** What the loops do next. */
  datatype Turn = Done | Skip(next: Cursor) | Ask

  function LoopTurn(e: PageEntry, me: nat, c: Cursor): (t: Turn)
    ensures t.Ask? ==> c.host < |e.notices| && c.pos < |e.notices[c.host]|
  {
    if c.host >= |e.notices| then Done
    else if c.host == me || c.pos >= |e.notices[c.host]| || e.notices[c.host][c.pos].diff.Some? then
      Skip(Cursor(c.host + 1, 0))
    else if AfterStart(e.start, e.notices[c.host][c.pos].ts) then Ask
    else Skip(Cursor(c.host, c.pos + 1))
  }

  /** The answer to a FETCH_DIFF sent to this host for the notice of this timestamp. */
  type Answers = (nat, Vec) -> Page

  /** The page entry after the loops have run from cursor `c` on, and the notices they asked for. */
  function Fetched(e: PageEntry, me: nat, c: Cursor, answers: Answers): (r: (PageEntry, seq<Cursor>))
    decreases |e.notices| - c.host, if c.host < |e.notices| then |e.notices[c.host]| - c.pos else 0
  {
    match LoopTurn(e, me, c)
    case Done => (e, [])
    case Skip(next) => Fetched(e, me, next, answers)
    case Ask =>
      var ts := e.notices[c.host][c.pos].ts;
      var (f, asked) :=
        Fetched(HandleGrantDiffEntry(e, c.host, ts, answers(c.host, ts)), me, Cursor(c.host, c.pos + 1), answers);
      (f, [c] + asked)
  }

  method FetchDiff(e: PageEntry, me: nat, answers: Answers) returns (f: PageEntry)
    requires me < |e.notices|
    ensures f == Fetched(e, me, Cursor(0, 0), answers).0
  {
    f := e;
    var i := 0;
    while i < |e.notices|
      invariant i <= |e.notices| == |f.notices|
      invariant Fetched(e, me, Cursor(0, 0), answers).0 == Fetched(f, me, Cursor(i, 0), answers).0
    {
      if i != me {
        var wn := 0;
        while wn < |f.notices[i]| && f.notices[i][wn].diff.None?
          invariant |e.notices| == |f.notices| && wn <= |f.notices[i]|
          invariant Fetched(e, me, Cursor(0, 0), answers).0 == Fetched(f, me, Cursor(i, wn), answers).0
          decreases |f.notices[i]| - wn
        {
          if AfterStart(f.start, f.notices[i][wn].ts) {
            f := HandleGrantDiffEntry(f, i, f.notices[i][wn].ts, answers(i, f.notices[i][wn].ts));
          }
          wn := wn + 1;
        }
      }
      i := i + 1;
    }
  }

  // ----- what the loops achieve -----

  ghost predicate DistinctTimes(e: PageEntry) {
    forall j, a, b :: 0 <= j < |e.notices| && 0 <= a < b < |e.notices[j]| ==> e.notices[j][a].ts != e.notices[j][b].ts
  }

  /** Behind a notice that has its diff everything is settled. */
  ghost predicate UndiffedPrefix(e: PageEntry, me: nat) {
    forall j, a, b :: 0 <= j < |e.notices| && j != me && 0 <= a < b < |e.notices[j]| && e.notices[j][a].diff.Some? ==>
                        Settled(e.notices[j][b], e.start)
  }

  predicate Before(c: Cursor, d: Cursor) {
    c.host < d.host || (c.host == d.host && c.pos < d.pos)
  }

  /** The loops, starting at `c`, will ask for the notice at `d`: nothing from `c` on stops them before it. */
  ghost predicate WillAsk(e: PageEntry, me: nat, c: Cursor, d: Cursor) {
    && !Before(d, c) && d.host < |e.notices| && d.host != me && d.pos < |e.notices[d.host]|
    && AfterStart(e.start, e.notices[d.host][d.pos].ts)
    && forall i :: 0 <= i <= d.pos && (d.host == c.host ==> c.pos <= i) ==> e.notices[d.host][i].diff.None?
  }

  ghost predicate Increasing(asked: seq<Cursor>) {
    forall a, b :: 0 <= a < b < |asked| ==> Before(asked[a], asked[b])
  }

  /** The diffs that came back, in the order they were asked for. */
  ghost function Returned(e: PageEntry, asked: seq<Cursor>, answers: Answers): (r: seq<Page>)
    ensures |r| == |asked|
  {
    seq(|asked|, k requires 0 <= k < |asked| => AnswerFor(e, asked[k], answers))
  }

  ghost function AnswerFor(e: PageEntry, c: Cursor, answers: Answers): Page {
    if c.host < |e.notices| && c.pos < |e.notices[c.host]| then answers(c.host, e.notices[c.host][c.pos].ts)
    else ZeroPage()
  }

  lemma {:induction false} IdxOfDistinct(list: seq<Notice>, a: nat)
    requires a < |list| && forall x, y :: 0 <= x < y < |list| ==> list[x].ts != list[y].ts
    ensures NoticeIdx(list, list[a].ts) == a
  {
  }

  /** An answer is added to the bytes and stored with its notice, and changes nothing else. */
  lemma AnswerEffect(e: PageEntry, c: Cursor, d: Page)
    requires DistinctTimes(e) && c.host < |e.notices| && c.pos < |e.notices[c.host]|
    requires e.notices[c.host][c.pos].diff.None?
    ensures var list := e.notices[c.host];
            HandleGrantDiffEntry(e, c.host, list[c.pos].ts, d)
            == e.(bytes := Add(e.bytes, d), notices :=
                  e.notices[c.host := list[c.pos := list[c.pos].(diff := Some(d))]])
  {
    IdxOfDistinct(e.notices[c.host], c.pos);
  }

  ghost predicate FetchSpec(e: PageEntry, me: nat, c: Cursor, answers: Answers, f: PageEntry, asked: seq<Cursor>) {
    && Increasing(asked)
    && (forall d :: d in asked <==> WillAsk(e, me, c, d))
    && f.bytes == ApplyAll(e.bytes, Returned(e, asked, answers))
    && f.start == e.start && f.state == e.state && f.twin == e.twin && |f.notices| == |e.notices|
    && forall j :: 0 <= j < |e.notices| ==> ListSpec(e, me, c, answers, f, j)
  }

  ghost predicate ListSpec(e: PageEntry, me: nat, c: Cursor, answers: Answers, f: PageEntry, j: nat)
    requires j < |e.notices| == |f.notices|
  {
    && |f.notices[j]| == |e.notices[j]|
    && forall i :: 0 <= i < |e.notices[j]| ==>
         f.notices[j][i]
         == if WillAsk(e, me, c, Cursor(j, i)) then e.notices[j][i].(diff := Some(answers(j, e.notices[j][i].ts)))
                            else e.notices[j][i]
  }

  lemma {:induction false} FetchMeets(e: PageEntry, me: nat, c: Cursor, answers: Answers)
    requires DistinctTimes(e)
    ensures FetchSpec(e, me, c, answers, Fetched(e, me, c, answers).0, Fetched(e, me, c, answers).1)
    decreases |e.notices| - c.host, if c.host < |e.notices| then |e.notices[c.host]| - c.pos else 0
  {
    match LoopTurn(e, me, c)
    case Done =>
    case Skip(next) =>
      FetchMeets(e, me, next, answers);
      SkipMeets(e, me, c, answers, Fetched(e, me, next, answers).0, Fetched(e, me, next, answers).1);
    case Ask =>
      var d := AnswerFor(e, c, answers);
      var e1 := HandleGrantDiffEntry(e, c.host, e.notices[c.host][c.pos].ts, d);
      AnswerEffect(e, c, d);
      FetchMeets(e1, me, Cursor(c.host, c.pos + 1), answers);
      var (f, asked) := Fetched(e1, me, Cursor(c.host, c.pos + 1), answers);
      AskMeets(e, me, c, answers, e1, f, asked);
  }

  lemma SkipMeets(e: PageEntry, me: nat, c: Cursor, answers: Answers, f: PageEntry, asked: seq<Cursor>)
    requires LoopTurn(e, me, c).Skip? && FetchSpec(e, me, LoopTurn(e, me, c).next, answers, f, asked)
    ensures FetchSpec(e, me, c, answers, f, asked)
  {
    var next := LoopTurn(e, me, c).next;
    forall d
      ensures WillAsk(e, me, c, d) <==> WillAsk(e, me, next, d)
    {
    }
    forall j | 0 <= j < |e.notices|
      ensures ListSpec(e, me, c, answers, f, j)
    {
      assert ListSpec(e, me, next, answers, f, j);
    }
  }

  /** Asking for one more notice in front of what the rest of the loops ask for. */
  lemma AskMeets(e: PageEntry, me: nat, c: Cursor, answers: Answers, e1: PageEntry, f: PageEntry, asked: seq<Cursor>)
    requires DistinctTimes(e) && LoopTurn(e, me, c).Ask?
    requires e1 == HandleGrantDiffEntry(e, c.host, e.notices[c.host][c.pos].ts, AnswerFor(e, c, answers))
    requires FetchSpec(e1, me, Cursor(c.host, c.pos + 1), answers, f, asked)
    ensures FetchSpec(e, me, c, answers, f, [c] + asked)
  {
    var next := Cursor(c.host, c.pos + 1);
    AnswerEffect(e, c, AnswerFor(e, c, answers));
    forall d
      ensures WillAsk(e, me, c, d) <==> d == c || WillAsk(e1, me, next, d)
    {
      AskedNext(e, me, c, answers, e1, d);
    }
    forall b | 0 <= b < |asked|
      ensures Before(c, asked[b])
    {
      assert asked[b] in asked && WillAsk(e1, me, next, asked[b]);
    }
    assert Returned(e, [c] + asked, answers)[1..] == Returned(e1, asked, answers);
    forall j | 0 <= j < |e.notices|
      ensures ListSpec(e, me, c, answers, f, j)
    {
      assert ListSpec(e1, me, next, answers, f, j);
    }
  }

  lemma AskedNext(e: PageEntry, me: nat, c: Cursor, answers: Answers, e1: PageEntry, d: Cursor)
    requires LoopTurn(e, me, c).Ask?
    requires var list := e.notices[c.host];
             e1 == e.(bytes := Add(e.bytes, AnswerFor(e, c, answers)),
                      notices := e.notices[c.host :=
                                           list[c.pos := list[c.pos].(diff := Some(AnswerFor(e, c, answers)))]])
    ensures WillAsk(e, me, c, d) <==> d == c || WillAsk(e1, me, Cursor(c.host, c.pos + 1), d)
  {
    if d.host < |e.notices| && d.pos < |e.notices[d.host]| && d != c {
      forall i | 0 <= i <= d.pos && (d.host == c.host ==> c.pos < i)
        ensures e1.notices[d.host][i] == e.notices[d.host][i]
      {
      }
    }
  }

  // ----- exactly once -----

  ghost predicate Unsettled(e: PageEntry, me: nat, d: Cursor) {
    d.host < |e.notices| && d.host != me && d.pos < |e.notices[d.host]| && !Settled(e.notices[d.host][d.pos], e.start)
  }

  /** With nothing unsettled hidden behind a diff, the loops ask for everything unsettled. */
  lemma AllAsked(e: PageEntry, me: nat, d: Cursor)
    requires UndiffedPrefix(e, me) && Unsettled(e, me, d)
    ensures WillAsk(e, me, Cursor(0, 0), d)
  {
  }

  lemma NoticeAfter(e: PageEntry, me: nat, answers: Answers, f: PageEntry, asked: seq<Cursor>, d: Cursor)
    requires FetchSpec(e, me, Cursor(0, 0), answers, f, asked) && d.host < |e.notices| && d.pos < |e.notices[d.host]|
    ensures |f.notices[d.host]| == |e.notices[d.host]|
    ensures f.notices[d.host][d.pos].ts == e.notices[d.host][d.pos].ts
    ensures d in asked ==> f.notices[d.host][d.pos].diff == Some(AnswerFor(e, d, answers))
    ensures d !in asked ==> f.notices[d.host][d.pos] == e.notices[d.host][d.pos]
  {
    assert ListSpec(e, me, Cursor(0, 0), answers, f, d.host);
    assert Cursor(d.host, d.pos) == d;
  }

  lemma UpToDateAfter(e: PageEntry, me: nat, answers: Answers, f: PageEntry, asked: seq<Cursor>)
    requires me < |e.notices| && FetchSpec(e, me, Cursor(0, 0), answers, f, asked)
    ensures UndiffedPrefix(e, me) <==> UpToDate(f, me)
  {
    if UndiffedPrefix(e, me) {
      forall j, i | 0 <= j < |f.notices| && j != me && 0 <= i < |f.notices[j]|
        ensures Settled(f.notices[j][i], f.start)
      {
        assert ListSpec(e, me, Cursor(0, 0), answers, f, j);
        NoticeAfter(e, me, answers, f, asked, Cursor(j, i));
        if Unsettled(e, me, Cursor(j, i)) {
          AllAsked(e, me, Cursor(j, i));
        }
      }
    } else {
      var j, a, b :| 0 <= j < |e.notices| && j != me && 0 <= a < b < |e.notices[j]| && e.notices[j][a].diff.Some? &&
                     !Settled(e.notices[j][b], e.start);
      NoticeAfter(e, me, answers, f, asked, Cursor(j, b));
      assert !WillAsk(e, me, Cursor(0, 0), Cursor(j, b));
      assert !Settled(f.notices[j][b], f.start);
    }
  }

  /**
   `fetchDiff` asks for each notice at most once. It adds the diffs that come back to the bytes and
   stores each with its notice. It asks only for unsettled notices, and for all of them exactly if
   none is hidden behind a notice that already had its diff.
  */
  lemma ExactlyOnce(e: PageEntry, me: nat, answers: Answers)
    requires me < |e.notices| && DistinctTimes(e)
    ensures var (f, asked) := Fetched(e, me, Cursor(0, 0), answers);
            && Increasing(asked)
            && f.bytes == ApplyAll(e.bytes, Returned(e, asked, answers))
            && |f.notices| == |e.notices|
            && (forall d :: d in asked ==> Unsettled(e, me, d) && d.pos < |f.notices[d.host]|
                                           && f.notices[d.host][d.pos].diff == Some(AnswerFor(e, d, answers)))
            && (UndiffedPrefix(e, me) ==> forall d :: Unsettled(e, me, d) ==> d in asked)
            && (UndiffedPrefix(e, me) <==> UpToDate(f, me))
  {
    FetchMeets(e, me, Cursor(0, 0), answers);
    var (f, asked) := Fetched(e, me, Cursor(0, 0), answers);
    UpToDateAfter(e, me, answers, f, asked);
    forall d | UndiffedPrefix(e, me) && Unsettled(e, me, d)
      ensures d in asked
    {
      AllAsked(e, me, d);
    }
    forall d | d in asked
      ensures Unsettled(e, me, d) && d.pos < |f.notices[d.host]|
      ensures f.notices[d.host][d.pos].diff == Some(AnswerFor(e, d, answers))
    {
      NoticeAfter(e, me, answers, f, asked, d);
    }
  }

  /**
   A notice is asked for if and only if it has no diff yet and its interval's vector is in no component below
   that of the page's start and in some component above it, unless the copy has no start.
  */
  lemma AskedExactly(e: PageEntry, me: nat, answers: Answers, d: Cursor)
    requires me < |e.notices| && DistinctTimes(e) && UndiffedPrefix(e, me)
    requires d.host < |e.notices| && d.host != me && d.pos < |e.notices[d.host]|
    requires e.start.Some? ==> |e.start.value| == |e.notices[d.host][d.pos].ts|
    ensures var nt := e.notices[d.host][d.pos];
            d in Fetched(e, me, Cursor(0, 0), answers).1 <==>
              && nt.diff.None?
              && (e.start.Some? ==>
                    && (forall i :: 0 <= i < |nt.ts| ==> nt.ts[i] >= e.start.value[i])
                    && (exists i :: 0 <= i < |nt.ts| && nt.ts[i] > e.start.value[i]))
  {
    ExactlyOnce(e, me, answers);
    if e.start.Some? {
      AfterIsLater(e.notices[d.host][d.pos].ts, e.start.value);
    }
    assert Unsettled(e, me, d) <==> d in Fetched(e, me, Cursor(0, 0), answers).1;
  }

  // ----- the loops turn by turn -----

  /** Everything the loops have passed is settled. */
  ghost predicate Passed(e: PageEntry, me: nat, c: Cursor) {
    forall j, i ::
      0 <= j < |e.notices| && j != me && 0 <= i < |e.notices[j]| && (j < c.host || (j == c.host && i < c.pos)) ==>
        Settled(e.notices[j][i], e.start)
  }

  lemma SkipPassed(e: PageEntry, me: nat, c: Cursor)
    requires Passed(e, me, c) && LoopTurn(e, me, c).Skip?
    requires
      c.host < |e.notices| && c.host != me && c.pos < |e.notices[c.host]| && e.notices[c.host][c.pos].diff.Some? ==>
        forall b :: c.pos < b < |e.notices[c.host]| ==> Settled(e.notices[c.host][b], e.start)
    ensures Passed(e, me, LoopTurn(e, me, c).next)
  {
  }

  lemma AnswerPassed(e: PageEntry, me: nat, c: Cursor, d: Page)
    requires Passed(e, me, c) && LoopTurn(e, me, c).Ask?
    requires NoticeIdx(e.notices[c.host], e.notices[c.host][c.pos].ts) == c.pos
    ensures Passed(HandleGrantDiffEntry(e, c.host, e.notices[c.host][c.pos].ts, d), me, Cursor(c.host, c.pos + 1))
  {
  }
}
