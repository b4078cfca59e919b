/** Pages as bytes with 8-bit wraparound, and the additive diffs between two versions of a page. */
module Diffs {

  const PAGESIZE: nat := 4096

  /** A C `char` up to sign: 256 values, with wraparound. */
  type Byte = x: int | 0 <= x < 256

  function PlusByte(a: Byte, b: Byte): Byte {
    if a + b < 256 then a + b else a + b - 256
  }

  function MinusByte(a: Byte, b: Byte): Byte {
    if a >= b then a - b else a - b + 256
  }

  type Page = s: seq<Byte> | |s| == PAGESIZE witness seq(PAGESIZE, _ => 0)

  function ZeroPage(): (r: Page)
    ensures forall i :: 0 <= i < PAGESIZE ==> r[i] == 0
  {
    seq(PAGESIZE, _ => 0)
  }

  function Add(a: Page, b: Page): (r: Page)
    ensures forall i {:trigger r[i]} :: 0 <= i < PAGESIZE ==> r[i] == PlusByte(a[i], b[i])
  {
    seq(PAGESIZE, i requires 0 <= i < PAGESIZE => PlusByte(a[i], b[i]))
  }

  function Sub(a: Page, b: Page): (r: Page)
    ensures forall i {:trigger r[i]} :: 0 <= i < PAGESIZE ==> r[i] == MinusByte(a[i], b[i])
  {
    seq(PAGESIZE, i requires 0 <= i < PAGESIZE => MinusByte(a[i], b[i]))
  }

  /** Adds a diff to a page in place, byte by byte. */
  method ApplyDiff(page: array?<Byte>, diff: array?<Byte>) returns (r: int)
    requires page != null ==> page.Length == PAGESIZE
    requires diff != null ==> diff.Length == PAGESIZE
    modifies page
    ensures r == if page == null || diff == null then -1 else 0
    ensures r == -1 && page != null ==> page[..] == old(page[..])
    ensures r == 0 ==> page[..] == Add(old(page[..]), old(diff[..]))
    ensures r == 0 ==>
              forall i :: 0 <= i < PAGESIZE ==> page[i] as int == (old(page[i]) as int + old(diff[i]) as int) % 256
  {
    if page == null || diff == null {
      return -1;
    }
    for i := 0 to PAGESIZE
      invariant forall k :: 0 <= k < i ==> page[k] == PlusByte(old(page[k]), old(diff[k]))
      invariant forall k :: i <= k < PAGESIZE ==> page[k] == old(page[k]) && diff[k] == old(diff[k])
    {
      page[i] := PlusByte(page[i], diff[i]);
    }
    return 0;
  }

  /** A freshly allocated block with the byte differences; null when either block is missing. */
  method CreateLocalDiff(page: array?<Byte>, twin: array?<Byte>) returns (diff: array?<Byte>)
    requires page != null ==> page.Length == PAGESIZE
    requires twin != null ==> twin.Length == PAGESIZE
    ensures diff == null <==> page == null || twin == null
    ensures diff != null ==> fresh(diff) && diff.Length == PAGESIZE && diff[..] == Sub(page[..], twin[..])
    ensures diff != null ==> forall i :: 0 <= i < PAGESIZE ==> (diff[i] as int + twin[i] as int) % 256 == page[i] as int
  {
    if page == null || twin == null {
      return null;
    }
    diff := new Byte[PAGESIZE];
    for i := 0 to PAGESIZE
      invariant forall k :: 0 <= k < i ==> diff[k] == MinusByte(page[k], twin[k])
    {
      diff[i] := MinusByte(page[i], twin[i]);
    }
  }

  lemma AddCommutes(a: Page, b: Page)
    ensures Add(a, b) == Add(b, a)
  {
    assert forall i :: 0 <= i < PAGESIZE ==> Add(a, b)[i] == Add(b, a)[i];
  }

  lemma AddAssociates(a: Page, b: Page, c: Page)
    ensures Add(Add(a, b), c) == Add(a, Add(b, c))
  {
    forall i | 0 <= i < PAGESIZE
      ensures Add(Add(a, b), c)[i] == Add(a, Add(b, c))[i]
    {
      assert PlusByte(PlusByte(a[i], b[i]), c[i]) == PlusByte(a[i], PlusByte(b[i], c[i]));
    }
  }

  lemma AddZero(a: Page)
    ensures Add(a, ZeroPage()) == a && Add(ZeroPage(), a) == a && Sub(a, a) == ZeroPage()
  {
    assert forall i :: 0 <= i < PAGESIZE ==> Add(a, ZeroPage())[i] == a[i];
    assert forall i :: 0 <= i < PAGESIZE ==> Add(ZeroPage(), a)[i] == a[i];
    assert forall i :: 0 <= i < PAGESIZE ==> Sub(a, a)[i] == ZeroPage()[i];
  }

  /** A diff is exactly what leads from the old version to the new one. */
  lemma DiffRoundTrip(a: Page, b: Page, d: Page)
    ensures Add(a, d) == b <==> d == Sub(b, a)
  {
    if Add(a, d) == b {
      forall i | 0 <= i < PAGESIZE
        ensures d[i] == Sub(b, a)[i]
      {
        assert Add(a, d)[i] == PlusByte(a[i], d[i]);
      }
    } else if d == Sub(b, a) {
      forall i | 0 <= i < PAGESIZE
        ensures Add(a, d)[i] == b[i]
      {
        assert Sub(b, a)[i] == MinusByte(b[i], a[i]);
      }
      assert false;
    }
  }

  /** Swapping the last two diffs, and moving one in front of a sum. */
  lemma AddSwap(a: Page, b: Page, c: Page)
    ensures Add(Add(a, b), c) == Add(Add(a, c), b)
  {
    AddAssociates(a, b, c);
    AddAssociates(a, c, b);
    AddCommutes(b, c);
  }

  // ----- sums -----

  function Total(terms: seq<Page>): Page {
    if terms == [] then ZeroPage() else Add(Total(terms[..|terms| - 1]), terms[|terms| - 1])
  }

  lemma {:induction false} TotalZero(terms: seq<Page>)
    requires forall k :: 0 <= k < |terms| ==> terms[k] == ZeroPage()
    ensures Total(terms) == ZeroPage()
  {
    if terms != [] {
      TotalZero(terms[..|terms| - 1]);
      AddZero(ZeroPage());
    }
  }

  /** Changing one term changes the sum by as much. */
  lemma {:induction false} TotalChanged(a: seq<Page>, b: seq<Page>, at: nat, delta: Page)
    requires |a| == |b| && at < |a|
    requires forall k :: 0 <= k < |a| && k != at ==> a[k] == b[k]
    requires b[at] == Add(a[at], delta)
    ensures Total(b) == Add(Total(a), delta)
  {
    var last := |a| - 1;
    if at == last {
      assert a[..last] == b[..last];
      AddAssociates(Total(a[..last]), a[at], delta);
    } else {
      TotalChanged(a[..last], b[..last], at, delta);
      AddSwap(Total(a[..last]), delta, a[last]);
    }
  }

  /** The sum of byte `i` of all terms, as an unbounded number. */
  function ByteSum(terms: seq<Page>, i: nat): nat
    requires i < PAGESIZE
  {
    if terms == [] then 0 else ByteSum(terms[..|terms| - 1], i) + terms[|terms| - 1][i]
  }

  /** Carries are lost at bit 8 only: a total is the sum of its terms modulo 256. */
  lemma {:induction false} TotalIsSum(terms: seq<Page>, i: nat)
    requires i < PAGESIZE
    ensures Total(terms)[i] == ByteSum(terms, i) % 256
  {
    if terms != [] {
      TotalIsSum(terms[..|terms| - 1], i);
    }
  }

  lemma {:induction false} ByteSumShift(first: Page, rest: seq<Page>, i: nat)
    requires i < PAGESIZE
    ensures ByteSum([first] + rest, i) == first[i] + ByteSum(rest, i)
    decreases |rest|
  {
    var all := [first] + rest;
    if rest == [] {
      assert all[..0] == [];
    } else {
      assert all[..|all| - 1] == [first] + rest[..|rest| - 1];
      ByteSumShift(first, rest[..|rest| - 1], i);
    }
  }

  // ----- chains of versions and concurrent writers -----

  /** The page after the diffs have been applied one after the other. */
  function ApplyAll(base: Page, diffs: seq<Page>): Page
    decreases |diffs|
  {
    if diffs == [] then base else ApplyAll(Add(base, diffs[0]), diffs[1..])
  }

  /** The diffs between neighbouring versions. */
  function ChainDiffs(versions: seq<Page>): (ds: seq<Page>)
    requires versions != []
    ensures |ds| == |versions| - 1
  {
    seq(|versions| - 1, i requires 0 <= i < |versions| - 1 => Sub(versions[i + 1], versions[i]))
  }

  /** The diffs of several writers against their common base. */
  function WriterDiffs(base: Page, copies: seq<Page>): (ds: seq<Page>)
    ensures |ds| == |copies|
  {
    seq(|copies|, i requires 0 <= i < |copies| => Sub(copies[i], base))
  }

  lemma {:induction false} ApplyAllShift(base: Page, d: Page, diffs: seq<Page>)
    ensures ApplyAll(Add(base, d), diffs) == Add(ApplyAll(base, diffs), d)
    decreases |diffs|
  {
    if diffs != [] {
      AddSwap(base, d, diffs[0]);
      ApplyAllShift(Add(base, diffs[0]), d, diffs[1..]);
    }
  }

  /** Byte `i` after any number of diffs is the base's byte plus the sum of the diffs' bytes, modulo 256. */
  lemma {:induction false} ApplyAllIsSum(base: Page, diffs: seq<Page>, i: nat)
    requires i < PAGESIZE
    ensures ApplyAll(base, diffs)[i] == (base[i] + ByteSum(diffs, i)) % 256
    decreases |diffs|
  {
    if diffs != [] {
      ApplyAllIsSum(Add(base, diffs[0]), diffs[1..], i);
      ByteSumShift(diffs[0], diffs[1..], i);
      assert diffs == [diffs[0]] + diffs[1..];
    }
  }

  lemma {:induction false} ApplyAllRemove(base: Page, diffs: seq<Page>, k: nat)
    requires k < |diffs|
    ensures ApplyAll(base, diffs) == ApplyAll(Add(base, diffs[k]), diffs[..k] + diffs[k + 1..])
    decreases k
  {
    var rest := diffs[..k] + diffs[k + 1..];
    if k == 0 {
      assert rest == diffs[1..];
    } else {
      ApplyAllRemove(Add(base, diffs[0]), diffs[1..], k - 1);
      assert diffs[1..][..k - 1] + diffs[1..][k..] == rest[1..];
      AddSwap(base, diffs[0], diffs[k]);
    }
  }

  /** One diff is taken out of the other order. */
  lemma TakenOut(first: Page, rest: seq<Page>, other: seq<Page>, k: nat)
    requires k < |other| && other[k] == first && multiset([first] + rest) == multiset(other)
    ensures multiset(other[..k] + other[k + 1..]) == multiset(rest)
  {
    assert other == other[..k] + [other[k]] + other[k + 1..];
    assert multiset(other[..k] + other[k + 1..]) == multiset(other) - multiset{first};
  }

  /** Diffs may be applied in any order. */
  lemma {:induction false} OrderIrrelevant(base: Page, diffs: seq<Page>, other: seq<Page>)
    requires multiset(diffs) == multiset(other)
    ensures ApplyAll(base, diffs) == ApplyAll(base, other)
    decreases |diffs|
  {
    if diffs == [] {
      assert |multiset(other)| == |other|;
    } else {
      assert diffs[0] in multiset(other);
      var k :| 0 <= k < |other| && other[k] == diffs[0];
      var rest := other[..k] + other[k + 1..];
      assert diffs == [diffs[0]] + diffs[1..];
      TakenOut(diffs[0], diffs[1..], other, k);
      ApplyAllRemove(base, other, k);
      OrderIrrelevant(Add(base, diffs[0]), diffs[1..], rest);
    }
  }

  lemma {:induction false} ChainInOrder(versions: seq<Page>)
    requires versions != []
    ensures ApplyAll(versions[0], ChainDiffs(versions)) == versions[|versions| - 1]
  {
    if |versions| > 1 {
      DiffRoundTrip(versions[0], versions[1], ChainDiffs(versions)[0]);
      assert ChainDiffs(versions)[1..] == ChainDiffs(versions[1..]);
      ChainInOrder(versions[1..]);
    }
  }

  /** The diffs of a chain of versions, applied to the first in any order, give the last. */
  lemma ChainAnyOrder(versions: seq<Page>, diffs: seq<Page>)
    requires versions != [] && multiset(diffs) == multiset(ChainDiffs(versions))
    ensures ApplyAll(versions[0], diffs) == versions[|versions| - 1]
  {
    ChainInOrder(versions);
    OrderIrrelevant(versions[0], diffs, ChainDiffs(versions));
  }

  /** No byte is changed by two of the writers. */
  ghost predicate DisjointWriters(base: Page, copies: seq<Page>) {
    forall a, b, i :: 0 <= a < b < |copies| && 0 <= i < PAGESIZE ==> copies[a][i] == base[i] || copies[b][i] == base[i]
  }

  /** `merged` takes every byte from the writer that changed it, and the others from the base. */
  ghost predicate IsMerge(base: Page, copies: seq<Page>, merged: Page) {
    forall i :: 0 <= i < PAGESIZE ==>
      && (forall a :: 0 <= a < |copies| && copies[a][i] != base[i] ==> merged[i] == copies[a][i])
      && ((forall a :: 0 <= a < |copies| ==> copies[a][i] == base[i]) ==> merged[i] == base[i])
  }

  lemma {:induction false} MergeInOrder(base: Page, copies: seq<Page>)
    requires DisjointWriters(base, copies)
    ensures IsMerge(base, copies, ApplyAll(base, WriterDiffs(base, copies)))
  {
    if copies != [] {
      var rest := copies[1..];
      var diffs := WriterDiffs(base, copies);
      assert diffs[1..] == WriterDiffs(base, rest);
      forall a, b, i | 0 <= a < b < |rest| && 0 <= i < PAGESIZE
        ensures rest[a][i] == base[i] || rest[b][i] == base[i]
      {
        assert copies[a + 1][i] == base[i] || copies[b + 1][i] == base[i];
      }
      MergeInOrder(base, rest);
      ApplyAllShift(base, diffs[0], diffs[1..]);
      var before := ApplyAll(base, diffs[1..]);
      var merged := Add(before, diffs[0]);
      forall i | 0 <= i < PAGESIZE
        ensures forall a :: 0 <= a < |copies| && copies[a][i] != base[i] ==> merged[i] == copies[a][i]
        ensures (forall a :: 0 <= a < |copies| ==> copies[a][i] == base[i]) ==> merged[i] == base[i]
      {
        MergeByte(base, copies, before, i);
      }
    }
  }

  lemma MergeByte(base: Page, copies: seq<Page>, before: Page, i: nat)
    requires DisjointWriters(base, copies) && copies != [] && i < PAGESIZE
    requires IsMerge(base, copies[1..], before)
    ensures forall a :: 0 <= a < |copies| && copies[a][i] != base[i] ==>
      Add(before, Sub(copies[0], base))[i] == copies[a][i]
    ensures (forall a :: 0 <= a < |copies| ==> copies[a][i] == base[i]) ==>
      Add(before, Sub(copies[0], base))[i] == base[i]
  {
    var merged := Add(before, Sub(copies[0], base));
    assert merged[i] == PlusByte(before[i], MinusByte(copies[0][i], base[i]));
    forall a | 0 <= a < |copies| && copies[a][i] != base[i]
      ensures merged[i] == copies[a][i]
    {
      if a == 0 {
        forall b | 0 <= b < |copies[1..]|
          ensures copies[1..][b][i] == base[i]
        {
          assert copies[b + 1][i] == base[i];
        }
        assert before[i] == base[i];
      } else {
        assert copies[0][i] == base[i];
        assert copies[1..][a - 1] == copies[a];
      }
    }
    if forall a :: 0 <= a < |copies| ==> copies[a][i] == base[i] {
      assert forall b :: 0 <= b < |copies[1..]| ==> copies[1..][b] == copies[b + 1];
      assert before[i] == base[i];
    }
  }

  /** The diffs of writers to disjoint bytes of one base give their merge, in any order. */
  lemma MergeAnyOrder(base: Page, copies: seq<Page>, diffs: seq<Page>)
    requires DisjointWriters(base, copies)
    requires multiset(diffs) == multiset(WriterDiffs(base, copies))
    ensures IsMerge(base, copies, ApplyAll(base, diffs))
  {
    MergeInOrder(base, copies);
    OrderIrrelevant(base, diffs, WriterDiffs(base, copies));
  }
}
