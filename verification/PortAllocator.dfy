/** Allocation of ports from a fixed range. Whether the operating system lets a port be bound is a
    parameter: the set of ports that are free at the time of the call. */
module PortAllocator {

  import opened Collections

  datatype Outcome = Ok | OutOfRange | AlreadyAllocated | NotAvailable

  ghost function Range(low: int, high: int): (r: set<int>)
    ensures forall p :: p in r <==> low <= p <= high
    decreases high - low
  {
    if low > high then {} else Range(low, high - 1) + {high}
  }

  lemma {:induction false} RangeSize(low: int, high: int)
    requires low <= high + 1
    ensures |Range(low, high)| == high - low + 1
    decreases high - low
  {
    if low <= high {
      RangeSize(low, high - 1);
    }
  }

  class PortAllocator {
    const minPort: int
    const maxPort: int
    /** The ports marked true in the source's map. */
    var taken: set<int>

    ghost predicate Valid()
      reads this
    {
      taken <= Range(minPort, maxPort)
    }

    constructor (minPort: int, maxPort: int)
      ensures Valid() && this.minPort == minPort && this.maxPort == maxPort && taken == {}
    {
      this.minPort, this.maxPort, taken := minPort, maxPort, {};
    }

    /** The lowest port of the range that is neither allocated nor in use. */
    method Allocate(free: set<int>) returns (port: Option<int>)
      requires Valid()
      modifies this
      ensures Valid()
      ensures port.None? ==> taken == old(taken) && Range(minPort, maxPort) * free <= taken
      ensures port.Some? ==>
                && port.value in Range(minPort, maxPort) * free - old(taken)
                && (forall p :: p in Range(minPort, maxPort) * free - old(taken) ==> port.value <= p)
                && taken == old(taken) + {port.value}
    {
      var p := minPort;
      while p <= maxPort
        invariant minPort <= p && taken == old(taken)
        invariant forall q :: q in Range(minPort, maxPort) && q in free && q !in taken ==> p <= q
      {
        if p !in taken && p in free {
          taken := taken + {p};
          return Some(p);
        }
        p := p + 1;
      }
      return None;
    }

    method AllocateSpecific(port: int, free: set<int>) returns (outcome: Outcome)
      requires Valid()
      modifies this
      ensures Valid()
      ensures outcome == if port !in Range(minPort, maxPort) then OutOfRange
                         else if port in old(taken) then AlreadyAllocated
                         else if port !in free then NotAvailable else Ok
      ensures taken == if outcome.Ok? then old(taken) + {port} else old(taken)
    {
      if port < minPort || port > maxPort {
        return OutOfRange;
      }
      if port in taken {
        return AlreadyAllocated;
      }
      if port !in free {
        return NotAvailable;
      }
      taken := taken + {port};
      return Ok;
    }

    method Release(port: int)
      requires Valid()
      modifies this
      ensures Valid() && taken == old(taken) - {port}
    {
      taken := taken - {port};
    }

    /** The number of ports of the range that are not taken; negative for a range turned upside down. */
    method GetAvailableCount() returns (n: int)
      requires Valid()
      ensures n == if minPort <= maxPort then |Range(minPort, maxPort) - taken| else maxPort - minPort + 1
    {
      var total := maxPort - minPort + 1;
      if minPort <= maxPort {
        RangeSize(minPort, maxPort);
      }
      assert Range(minPort, maxPort) == (Range(minPort, maxPort) - taken) + taken;
      n := total - |taken|;
    }
  }
}
