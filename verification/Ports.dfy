/** The relay client's allocator of internal source ports: a cursor that walks the ports 40000 to
    65535 as a ring and skips those in use. */
module Ports {
  import opened Octets

  const FIRST: u16 := 40000
  const LAST: u16 := 65535
  const COUNT: nat := 25536

  predicate InRange(p: u16) {
    FIRST <= p <= LAST
  }

  function Next(p: u16): (r: u16)
    requires InRange(p)
    ensures InRange(r)
  {
    if p == LAST then FIRST else p + 1
  }

  /** The port k places behind `start` on the ring. */
  function At(start: u16, k: nat): (p: u16)
    requires InRange(start) && k <= COUNT
    ensures InRange(p)
  {
    if start + k <= LAST then start + k else start + k - COUNT
  }

  /** How far behind `start` a port lies on the ring. */
  function Distance(start: u16, p: u16): (d: nat)
    requires InRange(start) && InRange(p)
    ensures d < COUNT && At(start, d) == p
  {
    if p >= start then p - start else p - start + COUNT
  }

  lemma AtNext(start: u16, k: nat)
    requires InRange(start) && k < COUNT
    ensures At(start, k + 1) == Next(At(start, k))
    ensures At(start, k + 1) == start <==> k + 1 == COUNT
  {
  }

  /** The place of the first free port, COUNT when every port is in use. */
  function FirstFree(start: u16, used: set<u16>, from: nat := 0): (k: nat)
    requires InRange(start) && from <= COUNT
    ensures from <= k <= COUNT
    ensures forall j :: from <= j < k ==> At(start, j) in used
    ensures k < COUNT ==> At(start, k) !in used
    decreases COUNT - from
  {
    if from == COUNT || At(start, from) !in used then from else FirstFree(start, used, from + 1)
  }

  /** The cursor and the port after one allocation. */
  function Allocated(next: u16, used: set<u16>): (u16, Option<u16>)
    requires InRange(next)
  {
    var k := FirstFree(next, used);
    if k == COUNT then (next, None) else (Next(At(next, k)), Some(At(next, k)))
  }

  class PortAllocator {
    var next: u16

    constructor ()
      ensures next == FIRST
    {
      next := FIRST;
    }

    /** The loop of the program: stop at the first free port, or back at the start. */
    method Allocate(used: set<u16>) returns (port: Option<u16>)
      requires InRange(next)
      modifies this
      ensures (next, port) == Allocated(old(next), used)
      ensures InRange(next)
    {
      var start := next;
      ghost var k := 0;
      while true
        invariant k < COUNT && InRange(next) && next == At(start, k)
        invariant FirstFree(start, used) == FirstFree(start, used, k)
        decreases COUNT - k
      {
        var candidate := next;
        next := Next(candidate);
        AtNext(start, k);
        if candidate !in used {
          return Some(candidate);
        }
        k := k + 1;
        if next == start {
          return None;
        }
      }
    }
  }

  /** An allocation returns the first unused port in ring order from the cursor and moves the
      cursor just past it; it fails, leaving the cursor alone, exactly when every port of the
      range is in use. */
  lemma AllocatedMeans(next: u16, used: set<u16>)
    requires InRange(next)
    ensures var (next', port) := Allocated(next, used);
            && (port.None? <==> forall p: u16 :: InRange(p) ==> p in used)
            && (port.None? ==> next' == next)
            && (port.Some? ==>
                  && InRange(port.value) && port.value !in used && next' == Next(port.value)
                  && forall p: u16 :: InRange(p) && Distance(next, p) < Distance(next, port.value) ==> p in used)
  {
    var k := FirstFree(next, used);
    forall p: u16 | InRange(p)
      ensures k == COUNT ==> p in used
      ensures k < COUNT && Distance(next, p) < k ==> p in used
    {
      assert At(next, Distance(next, p)) == p;
    }
    if k < COUNT {
      DistanceAt(next, k);
    }
  }

  /** The same on plain numbers: the least unused port from the cursor up to 65535, or else the least
      unused one from 40000 up; none exactly when all ports from 40000 to 65535 are used; and the
      cursor moves to the port behind the one given out, from 65535 back to 40000. */
  lemma AllocatedOnNumbers(next: u16, used: set<u16>)
    requires 40000 <= next
    ensures var (next', port) := Allocated(next, used);
            && (port.None? <==> forall p: u16 :: 40000 <= p ==> p in used)
            && (port.None? ==> next' == next)
            && (port.Some? ==>
                  && 40000 <= port.value && port.value !in used
                  && next' == (if port.value == 65535 then 40000 else port.value + 1)
                  && (port.value >= next ==> forall p: u16 :: next <= p < port.value ==> p in used)
                  && (port.value < next ==>
                        && (forall p: u16 :: next <= p ==> p in used)
                        && (forall p: u16 :: 40000 <= p < port.value ==> p in used)))
  {
    AllocatedMeans(next, used);
    var (_, port) := Allocated(next, used);
    forall p: u16 | 40000 <= p
      ensures InRange(p)
      ensures port.Some? && Distance(next, p) < Distance(next, port.value) ==> p in used
    {
    }
  }

  lemma DistanceAt(start: u16, k: nat)
    requires InRange(start) && k < COUNT
    ensures Distance(start, At(start, k)) == k
  {
  }

  /** Distinct ports of the range are at most 25536 many. */
  lemma {:induction false} AtMostCount(used: set<u16>, bound: nat)
    requires forall p :: p in used ==> FIRST <= p < bound
    requires FIRST <= bound
    ensures |used| <= bound - FIRST
    decreases bound
  {
    if bound > FIRST {
      AtMostCount(used - {bound - 1}, bound - 1);
    } else {
      assert used == {};
    }
  }
}
