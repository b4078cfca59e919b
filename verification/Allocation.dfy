/** `mi_alloc` and the address arithmetic of `segv_handler`. */
module Allocation {
  import opened Diffs
  import opened HostMem

  const START_ADDRESS: nat := 0x60000000
  const MAX_MEM_SIZE: nat := 0x08000000
  const MAX_PAGE_NUM: nat := 32768
  const NULL: nat := 0

  datatype PageSlot = PageSlot(address: nat, state: PageState)

  /** One host's view: bytes given out, pages given out, and the page table. */
  datatype Space = Space(me: nat, n: nat, globalAddress: nat, pagenum: nat, pages: seq<PageSlot>)

  function Initial(me: nat, n: nat): Space {
    Space(me, n, 0, 0, seq(MAX_PAGE_NUM, _ => PageSlot(NULL, UNMAP)))
  }

  /** The slot of page `i` once it is allocated. */
  function SlotOf(me: nat, n: nat, i: nat): PageSlot
    requires n > 0
  {
    PageSlot(START_ADDRESS + i * PAGESIZE, if i % n == me then RDONLY else MISS)
  }

  ghost predicate Valid(s: Space) {
    && s.me < s.n && s.globalAddress == s.pagenum * PAGESIZE && s.pagenum <= MAX_PAGE_NUM && |s.pages| == MAX_PAGE_NUM
    && (forall i :: 0 <= i < s.pagenum ==> s.pages[i] == SlotOf(s.me, s.n, i))
    && (forall i :: s.pagenum <= i < MAX_PAGE_NUM ==> s.pages[i] == PageSlot(NULL, UNMAP))
  }

  function RoundUp(size: nat): (r: nat)
    requires size > 0
    ensures size <= r < size + PAGESIZE && r % PAGESIZE == 0
  {
    if size % PAGESIZE == 0 then size else (size / PAGESIZE + 1) * PAGESIZE
  }

  predicate Fits(s: Space, size: int) {
    size > 0 && s.globalAddress + RoundUp(size) <= MAX_MEM_SIZE
  }

  /** The address that a call returns. */
  function Given(s: Space, size: int): nat {
    if Fits(s, size) then START_ADDRESS + s.globalAddress else NULL
  }

  /** The bytes that a call adds to the space given out. */
  function Taken(s: Space, size: int): nat {
    if Fits(s, size) then RoundUp(size) else 0
  }

  /** The space with the first `pagenum` pages allocated. */
  function SpaceOf(me: nat, n: nat, pagenum: nat): Space
    requires n > 0
  {
    Space(me, n, pagenum * PAGESIZE, pagenum,
          seq(MAX_PAGE_NUM, i requires 0 <= i < MAX_PAGE_NUM =>
              if i < pagenum then SlotOf(me, n, i) else PageSlot(NULL, UNMAP)))
  }

  /** A valid space is determined by how much has been given out. */
  lemma ValidIsSpaceOf(s: Space)
    requires s.me < s.n
    ensures Valid(s) <==> s.pagenum <= MAX_PAGE_NUM && s == SpaceOf(s.me, s.n, s.pagenum)
  {
    if Valid(s) {
      assert s.pages == SpaceOf(s.me, s.n, s.pagenum).pages;
    }
  }

  /** The space after a call. */
  function AfterCall(s: Space, size: int): Space
    requires s.n > 0
  {
    SpaceOf(s.me, s.n, (s.globalAddress + Taken(s, size)) / PAGESIZE)
  }

  /** Rounding up does not decide whether a request fits, since all of the space is whole pages. */
  lemma FitsIff(s: Space, size: int)
    requires Valid(s)
    ensures Fits(s, size) <==> size > 0 && s.globalAddress + size <= MAX_MEM_SIZE
  {
    if size > 0 {
      var k := RoundUp(size) / PAGESIZE;
      assert RoundUp(size) == k * PAGESIZE;
      assert s.globalAddress + RoundUp(size) == (s.pagenum + k) * PAGESIZE;
      assert MAX_MEM_SIZE == MAX_PAGE_NUM * PAGESIZE;
    }
  }

  class Allocator {
    const myhostid: nat
    const hostnum: nat
    var globalAddress: nat
    var pagenum: nat
    const pageArray: array<PageSlot>

    ghost function View(): Space
      reads this, pageArray
    {
      Space(myhostid, hostnum, globalAddress, pagenum, pageArray[..])
    }

    constructor (me: nat, n: nat)
      requires me < n
      ensures Valid(View()) && View() == Initial(me, n) && fresh(pageArray)
    {
      myhostid, hostnum, globalAddress, pagenum := me, n, 0, 0;
      pageArray := new PageSlot[MAX_PAGE_NUM](_ => PageSlot(NULL, UNMAP));
      new;
      assert pageArray[..] == Initial(me, n).pages;
    }

    /** The next page, read-only on its home host and missing elsewhere. */
    method AllocPage()
      requires Valid(View()) && pagenum < MAX_PAGE_NUM
      modifies this, pageArray
      ensures Valid(View()) && pagenum == old(pagenum) + 1 && globalAddress == old(globalAddress) + PAGESIZE
    {
      pageArray[pagenum] :=
        PageSlot(START_ADDRESS + globalAddress, if pagenum % hostnum == myhostid then RDONLY else MISS);
      pagenum := pagenum + 1;
      globalAddress := globalAddress + PAGESIZE;
    }

    /** A block of whole pages, or null if the request is not positive or there is not enough space. */
    method MiAlloc(size: int) returns (r: nat)
      requires Valid(View())
      modifies this, pageArray
      ensures Valid(View())
      ensures r == Given(old(View()), size) && View() == AfterCall(old(View()), size)
      ensures r != NULL <==> size > 0 && old(globalAddress) + size <= MAX_MEM_SIZE
    {
      ValidIsSpaceOf(View());
      FitsIff(View(), size);
      if size <= 0 {
        return NULL;
      }
      var rsize := if size % PAGESIZE == 0 then size else (size / PAGESIZE + 1) * PAGESIZE;
      assert rsize == RoundUp(size);
      if rsize + globalAddress > MAX_MEM_SIZE {
        return NULL;
      }
      var allocesize := rsize;
      while allocesize > 0
        invariant Valid(View()) && allocesize >= 0 && allocesize % PAGESIZE == 0
        invariant globalAddress + allocesize == old(globalAddress) + rsize
      {
        PageLeft(globalAddress, allocesize, pagenum);
        AllocPage();
        allocesize := allocesize - PAGESIZE;
      }
      ValidIsSpaceOf(View());
      return START_ADDRESS + globalAddress - rsize;
    }
  }

  lemma PageLeft(globalAddress: nat, allocesize: nat, pagenum: nat)
    requires globalAddress == pagenum * PAGESIZE && 0 < allocesize && allocesize % PAGESIZE == 0
    requires globalAddress + allocesize <= MAX_MEM_SIZE
    ensures pagenum < MAX_PAGE_NUM && allocesize >= PAGESIZE && (allocesize - PAGESIZE) % PAGESIZE == 0
  {
  }

  // ----- sequences of calls -----

  /** The space in use after the calls. */
  function Used(sizes: seq<int>): (g: nat)
    ensures g <= MAX_MEM_SIZE && g % PAGESIZE == 0
  {
    if sizes == [] then 0
    else
      var g, size := Used(sizes[..|sizes| - 1]), sizes[|sizes| - 1];
      if size > 0 && g + RoundUp(size) <= MAX_MEM_SIZE then g + RoundUp(size) else g
  }

  /** The space of a host that has made these calls, and what they returned. */
  function Replay(me: nat, n: nat, sizes: seq<int>): (r: (Space, seq<nat>))
    requires n > 0
    ensures r.0.n == n && r.0.me == me
  {
    if sizes == [] then (SpaceOf(me, n, 0), [])
    else
      var (s, results) := Replay(me, n, sizes[..|sizes| - 1]);
      (AfterCall(s, sizes[|sizes| - 1]), results + [Given(s, sizes[|sizes| - 1])])
  }

  /** What the last of the calls returns: it depends on the calls only, not on the host. */
  function LastGiven(sizes: seq<int>): nat
    requires sizes != []
  {
    var g, size := Used(sizes[..|sizes| - 1]), sizes[|sizes| - 1];
    if size > 0 && g + RoundUp(size) <= MAX_MEM_SIZE then START_ADDRESS + g else NULL
  }

  /** Hosts that make the same calls get the same addresses; what is in use depends on the calls only. */
  lemma {:induction false} SameOnAllHosts(me: nat, n: nat, sizes: seq<int>, k: nat)
    requires me < n
    ensures Valid(Replay(me, n, sizes).0) && Replay(me, n, sizes).0.globalAddress == Used(sizes)
    ensures |Replay(me, n, sizes).1| == |sizes|
    ensures k < |sizes| ==> Replay(me, n, sizes).1[k] == LastGiven(sizes[..k + 1])
  {
    if sizes == [] {
      ValidIsSpaceOf(SpaceOf(me, n, 0));
    } else {
      var front := sizes[..|sizes| - 1];
      SameOnAllHosts(me, n, front, k);
      ValidIsSpaceOf(Replay(me, n, sizes).0);
      if k < |sizes| - 1 {
        assert front[..k + 1] == sizes[..k + 1];
      } else if k == |sizes| - 1 {
        assert sizes[..k + 1] == sizes;
      }
    }
  }

  /** The block of call `k`: its first address and its length; empty for a failed call. */
  function BlockStart(sizes: seq<int>, k: nat): nat
    requires k < |sizes|
  {
    START_ADDRESS + Used(sizes[..k])
  }

  function BlockEnd(sizes: seq<int>, k: nat): nat
    requires k < |sizes|
  {
    START_ADDRESS + Used(sizes[..k + 1])
  }

  lemma {:induction false} UsedGrows(sizes: seq<int>, j: nat, k: nat)
    requires j <= k <= |sizes|
    ensures Used(sizes[..j]) <= Used(sizes[..k])
    decreases k
  {
    if j < k {
      UsedGrows(sizes, j, k - 1);
      assert sizes[..k][..k - 1] == sizes[..k - 1];
    }
  }

  /** Each block starts where the one before ends, is as large as the request, and lies apart from all earlier ones. */
  lemma BlocksContiguous(sizes: seq<int>, j: nat, k: nat)
    requires j < k < |sizes|
    ensures BlockEnd(sizes, j) <= BlockStart(sizes, k)
    ensures BlockStart(sizes, j + 1) == BlockEnd(sizes, j)
    ensures LastGiven(sizes[..k + 1]) != NULL ==>
              && LastGiven(sizes[..k + 1]) == BlockStart(sizes, k)
              && BlockEnd(sizes, k) - BlockStart(sizes, k) == RoundUp(sizes[k])
              && BlockEnd(sizes, k) <= START_ADDRESS + MAX_MEM_SIZE
  {
    UsedGrows(sizes, j + 1, k);
    assert sizes[..k + 1][..k] == sizes[..k];
  }

  // ----- faults -----

  /** C's division, which truncates towards zero. */
  function CDiv(a: int, b: nat): int
    requires b > 0
  {
    if a >= 0 then a / b else -((-a) / b)
  }

  function FaultBase(fault: nat): nat {
    if fault % PAGESIZE == 0 then fault else fault / PAGESIZE * PAGESIZE
  }

  function FaultIndex(fault: nat): int {
    CDiv(FaultBase(fault) - START_ADDRESS, PAGESIZE)
  }

  lemma FaultArithmetic(fault: nat)
    ensures FaultBase(fault) == fault / PAGESIZE * PAGESIZE && FaultBase(fault) <= fault < FaultBase(fault) + PAGESIZE
    ensures FaultBase(fault) == START_ADDRESS + FaultIndex(fault) * PAGESIZE
  {
    var q := fault / PAGESIZE;
    assert START_ADDRESS == 0x60000 * PAGESIZE;
    assert FaultBase(fault) - START_ADDRESS == (q - 0x60000) * PAGESIZE;
    if q >= 0x60000 {
      assert ((q - 0x60000) * PAGESIZE) / PAGESIZE == q - 0x60000;
    } else {
      assert ((0x60000 - q) * PAGESIZE) / PAGESIZE == 0x60000 - q;
    }
  }

  /**
   An address lies in the space given out exactly if the handler computes the index of an allocated
   page, and then the page's entry holds the address of the page's first byte.
  */
  lemma FaultsHitTheirPage(s: Space, fault: nat)
    requires Valid(s)
    ensures START_ADDRESS <= fault < START_ADDRESS + s.globalAddress <==> 0 <= FaultIndex(fault) < s.pagenum
    ensures 0 <= FaultIndex(fault) < s.pagenum ==>
              s.pages[FaultIndex(fault)].address == FaultBase(fault) <= fault < FaultBase(fault) + PAGESIZE
    ensures !(0 <= FaultIndex(fault) < s.pagenum) && 0 <= FaultIndex(fault) < MAX_PAGE_NUM ==>
      s.pages[FaultIndex(fault)].state == UNMAP
  {
    FaultArithmetic(fault);
  }

  /** Each allocated page starts read-only on exactly one host and missing on all others. */
  lemma OneHome(s: Space, t: Space, i: nat)
    requires Valid(s) && Valid(t) && s.n == t.n && s.pagenum == t.pagenum && i < s.pagenum
    ensures s.pages[i].address == t.pages[i].address
    ensures s.pages[i].state == RDONLY <==> s.me == i % s.n
    ensures s.pages[i].state == RDONLY || s.pages[i].state == MISS
    ensures s.pages[i].state == RDONLY && t.pages[i].state == RDONLY ==> s.me == t.me
  {
    assert s.pages[i] == SlotOf(s.me, s.n, i) && t.pages[i] == SlotOf(t.me, t.n, i);
  }
}
