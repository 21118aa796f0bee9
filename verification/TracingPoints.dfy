/** The registered trace points and the goroutines being traced, with their nesting count. */
module TracingPoints {
  import opened Base
  import opened BreakpointTable

  method Contains(list: seq<Addr>, addr: Addr) returns (found: bool)
    ensures found <==> addr in list
  {
    for i := 0 to |list|
      invariant addr !in list[..i]
    {
      if list[i] == addr {
        return true;
      }
    }
    assert list[..|list|] == list;
    found := false;
  }

  class TracingPoints {
    var startAddressList: seq<Addr>
    var endAddressList: seq<Addr>

    constructor ()
      ensures startAddressList == [] && endAddressList == []
    {
      startAddressList, endAddressList := [], [];
    }

    method IsStartAddress(addr: Addr) returns (found: bool)
      ensures found <==> addr in startAddressList
    {
      found := Contains(startAddressList, addr);
    }

    method IsEndAddress(addr: Addr) returns (found: bool)
      ensures found <==> addr in endAddressList
    {
      found := Contains(endAddressList, addr);
    }
  }

  class TracingGoRoutines {
    var ids: seq<Gid>

    constructor ()
      ensures ids == []
    {
      ids := [];
    }

    method Tracing(g: Gid) returns (found: bool)
      ensures found <==> g in multiset(ids)
    {
      for i := 0 to |ids|
        invariant g !in ids[..i]
      {
        if ids[i] == g {
          return true;
        }
      }
      assert ids[..|ids|] == ids;
      found := false;
    }

    /** A goroutine added n times is traced until it is removed n times. */
    method Add(g: Gid)
      modifies this
      ensures multiset(ids) == multiset(old(ids)) + multiset{g}
    {
      ids := ids + [g];
    }

    method Remove(g: Gid)
      modifies this
      ensures multiset(ids) == multiset(old(ids)) - multiset{g}
    {
      var i := 0;
      while i < |ids|
        invariant 0 <= i <= |ids| && ids == old(ids)
        invariant g !in ids[..i]
      {
        if ids[i] == g {
          assert ids == ids[..i] + [g] + ids[i + 1..];
          ids := ids[..i] + ids[i + 1..];
          return;
        }
        i := i + 1;
      }
      assert ids[..i] == ids;
      assert multiset(ids) - multiset{g} == multiset(ids);
    }
  }
}
