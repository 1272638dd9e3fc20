/** Backend port reservations: a circular scan for a port nobody holds. */
module Ports {
  import opened Wrappers

  class PortAllocator {
    const start: int
    const end: int
    var reserved: set<int>
    var cursor: int

    ghost predicate Valid()
      reads this
    {
      start <= cursor <= end
    }

    constructor (start: int, end: int)
      requires start <= end
      ensures Valid() && this.start == start && this.end == end && reserved == {}
    {
      this.start, this.end := start, end;
      this.reserved := {};
      this.cursor := start;
    }

    /** `p` is among the first `n` ports of a circular scan that begins at `from`. */
    predicate ScannedFrom(from: int, n: nat, p: int) {
      if from <= p then p < from + n else p < from + n - (end - start + 1)
    }

    /** The port after `p` in circular order. */
    function After(p: int): int {
      if p >= end then start else p + 1
    }

    /** The first of `n` ports, from `from` on in circular order, that nobody holds. */
    function FirstFree(reserved: set<int>, busy: set<int>, from: int, n: nat): (r: Option<int>)
      ensures r.Some? ==> r.value !in reserved && r.value !in busy
      decreases n
    {
      if n == 0 then None
      else if from !in reserved && from !in busy then Some(from)
      else FirstFree(reserved, busy, After(from), n - 1)
    }

    /** What an allocation would return now. */
    function NextFree(busy: set<int>): Option<int>
      reads this
    {
      FirstFree(reserved, busy, cursor, Span())
    }

    /** How many ports there are. */
    function Span(): nat {
      if start <= end then end - start + 1 else 0
    }

    /** Some port of the range is free. */
    predicate AnyFree(busy: set<int>)
      reads `reserved
    {
      exists p :: start <= p <= end && p !in reserved && p !in busy
    }

    /**
     * The next port that is neither reserved nor, at this moment, bound by anybody else. It fails
     * only when every port of the range is taken, since the scan visits each of them.
     */
    method Allocate(busy: set<int>) returns (r: Option<int>)
      requires Valid()
      modifies this
      ensures Valid()
      ensures r.Some? ==>
        && start <= r.value <= end
        && r.value !in old(reserved) && r.value !in busy
        && reserved == old(reserved) + {r.value}
      ensures r.None? ==> reserved == old(reserved)
      ensures r.Some? <==> old(AnyFree(busy))
      ensures r == old(NextFree(busy))
      ensures cursor == if r.Some? then (if r.value >= end then start else r.value + 1) else old(cursor)
      ensures r.Some? ==> forall p :: start <= p <= end && Skipped(old(cursor), r.value, p) ==> p in old(reserved) || p in busy
    {
      var span := end - start + 1;
      ghost var from := cursor;
      for n := 0 to span
        invariant Valid() && reserved == old(reserved)
        invariant cursor == if from + n <= end then from + n else from + n - span
        invariant FirstFree(reserved, busy, from, span) == FirstFree(reserved, busy, cursor, span - n)
        invariant forall p :: start <= p <= end && ScannedFrom(from, n, p) ==> p in reserved || p in busy
      {
        var port := cursor;
        cursor := if cursor >= end then start else cursor + 1;
        if port !in reserved && port !in busy {
          reserved := reserved + {port};
          return Some(port);
        }
      }
      return None;
    }

    /** `p` comes strictly before `found` in the circular order that begins at `from`. */
    predicate Skipped(from: int, found: int, p: int) {
      if from <= found then from <= p < found else from <= p || p < found
    }

    method Release(port: int)
      modifies `reserved
      ensures reserved == old(reserved) - {port}
    {
      reserved := reserved - {port};
    }
  }
}
