/** The conditional breakpoints of the tracer, multiplexed onto the physical ones of the process. */
module Breakpoints {
  import opened Base
  import opened BreakpointTable
  import opened TraceeProcess

  /** An entry of the table: its associations are a list, in the order they were made. */
  datatype Entry = Entry(associateAll: bool, associations: seq<Gid>) {
    function View(): Condition {
      if associateAll then Always else OnlyFor(multiset(associations))
    }

    predicate NoAssociation() {
      !associateAll && associations == []
    }

    method Hit(g: Gid) returns (hit: bool)
      ensures hit <==> View().Always? || g in View().gs
    {
      if associateAll {
        return true;
      }
      for i := 0 to |associations|
        invariant g !in associations[..i]
      {
        if associations[i] == g {
          return true;
        }
      }
      assert associations[..|associations|] == associations;
      hit := false;
    }

    function Associate(g: Gid): Entry {
      if associateAll then this else Entry(associateAll, associations + [g])
    }

    /** The first association of g is cut out of the list. */
    method Disassociate(g: Gid) returns (e: Entry, found: bool)
      ensures found <==> !associateAll && g in associations
      ensures e.View() == if associateAll then Always else OnlyFor(View().gs - multiset{g})
      ensures if found then |e.associations| < |associations| && !e.associateAll else e == this
    {
      if associateAll {
        return this, false;
      }
      for i := 0 to |associations|
        invariant g !in associations[..i]
      {
        if associations[i] == g {
          Removed(associations, i);
          return Entry(false, associations[..i] + associations[i + 1..]), true;
        }
      }
      assert associations[..|associations|] == associations;
      assert multiset(associations) - multiset{g} == multiset(associations);
      return this, false;
    }

    /** Disassociate until nothing is left to disassociate. */
    method DisassociateAll(g: Gid) returns (e: Entry)
      ensures e.View() == Without(View(), g)
    {
      ghost var all := multiset(associations);
      var found;
      e, found := Disassociate(g);
      while found
        invariant e.associateAll == associateAll
        invariant !associateAll ==> multiset(e.associations)[g := 0] == all[g := 0]
        invariant !found ==> associateAll || g !in e.associations
        decreases found, |e.associations|
      {
        e, found := e.Disassociate(g);
      }
      assert !associateAll ==> multiset(e.associations) == multiset(e.associations)[g := 0];
    }
  }

  lemma KeptIsAssociated(e: Entry, was: Condition, g: Gid)
    requires e.View() == Without(was, g)
    ensures e.NoAssociation() <==> !Keeps(was, g)
  {
    if e.View().OnlyFor? {
      assert |multiset(e.associations)| == |e.associations|;
    }
  }

  function ViewOf(current: map<Addr, Entry>): Table {
    map a | a in current :: current[a].View()
  }

  lemma SetView(m: map<Addr, Entry>, addr: Addr, e: Entry)
    ensures ViewOf(m[addr := e]) == ViewOf(m)[addr := e.View()]
    ensures ViewOf(m - {addr}) == ViewOf(m) - {addr}
  {
  }

  /** Taking one association of g away, and the entry with it when it was the last one. */
  lemma ClearView(m: map<Addr, Entry>, addr: Addr, g: Gid, e: Entry)
    requires addr in m
    requires e.View() == if m[addr].associateAll then Always else OnlyFor(m[addr].View().gs - multiset{g})
    ensures ViewOf(if e.NoAssociation() then m[addr := e] - {addr} else m[addr := e]) == ClearFor(ViewOf(m), addr, g)
  {
    hide Entry.View;
    SetView(m, addr, e);
    assert m[addr := e] - {addr} == m - {addr};
    assert ViewOf(m)[addr] == m[addr].View();
    LastIsEmpty(e);
    if m[addr].associateAll {
      AlwaysView(m[addr]);
    } else {
      assert m[addr].View().OnlyFor? by { OnlyForView(m[addr]); }
    }
  }

  lemma LastIsEmpty(e: Entry)
    ensures e.NoAssociation() <==> e.View().OnlyFor? && |e.View().gs| == 0
  {
    if e.View().OnlyFor? {
      assert |multiset(e.associations)| == |e.associations|;
    }
  }

  lemma AlwaysView(e: Entry)
    requires e.associateAll
    ensures e.View() == Always && !e.NoAssociation()
  {
  }

  lemma OnlyForView(e: Entry)
    requires !e.associateAll
    ensures e.View().OnlyFor?
  {
  }

  lemma AddView(m: map<Addr, Entry>, addr: Addr, g: Gid)
    requires addr in m && NoEmpty(ViewOf(m))
    ensures !m[addr].NoAssociation()
    ensures ViewOf(m[addr := m[addr].Associate(g)]) == SetFor(ViewOf(m), addr, g)
  {
    assert ViewOf(m)[addr] == m[addr].View();
  }

  lemma AbsentView(m: map<Addr, Entry>, addr: Addr, g: Gid)
    requires addr !in m
    ensures ClearFor(ViewOf(m), addr, g) == ViewOf(m)
    ensures addr !in ViewOf(m)
  {
  }

  /** Part of the way through dropping g: the entries still to do are as before, the others are done. */
  ghost predicate Swept(before: map<Addr, Entry>, now: map<Addr, Entry>, todo: set<Addr>, g: Gid) {
    && todo <= now.Keys <= before.Keys
    && (forall a :: a in todo ==> now[a] == before[a])
    && (forall a :: a in before && a !in todo ==> (a in now <==> Keeps(before[a].View(), g)))
    && (forall a :: a in now && a !in todo ==> now[a].View() == Without(before[a].View(), g))
  }

  lemma SweepStart(m: map<Addr, Entry>, g: Gid)
    ensures Swept(m, m, m.Keys, g)
  {
  }

  lemma SweptKeys(before: map<Addr, Entry>, now: map<Addr, Entry>, todo: set<Addr>, g: Gid)
    requires Swept(before, now, todo, g)
    ensures todo <= now.Keys
  {
  }

  lemma SweepOne(before: map<Addr, Entry>, now: map<Addr, Entry>, todo: set<Addr>, g: Gid, addr: Addr, e: Entry)
    requires Swept(before, now, todo, g) && addr in todo
    requires e.View() == Without(now[addr].View(), g)
    ensures Swept(before, if e.NoAssociation() then now[addr := e] - {addr} else now[addr := e], todo - {addr}, g)
  {
    KeptIsAssociated(e, now[addr].View(), g);
  }

  lemma SweptAll(before: map<Addr, Entry>, now: map<Addr, Entry>, g: Gid)
    requires Swept(before, now, {}, g)
    ensures ViewOf(now) == ClearAllFor(ViewOf(before), g)
  {
  }

  class Breakpoints {
    var current: map<Addr, Entry>
    const process: Process

    constructor (process: Process)
      requires process.Weak() && process.breakpoints == map[]
      ensures this.process == process
      ensures Valid() && View() == map[]
    {
      this.process := process;
      this.current := map[];
    }

    ghost function View(): Table
      reads this
    {
      ViewOf(current)
    }

    /** The logical and the physical layer have the same keys. */
    ghost predicate Valid()
      reads this, process, process.client`mem, process.client`executed
    {
      && process.Weak()
      && current.Keys == process.breakpoints.Keys
    }

    method Hit(addr: Addr, g: Gid) returns (hit: bool)
      ensures hit <==> BreakpointTable.Hit(View(), addr, g)
    {
      if addr !in current {
        return false;
      }
      hit := current[addr].Hit(g);
    }

    method Clear(addr: Addr) returns (ok: bool)
      requires Valid()
      modifies this, process, process.client`mem, process.client`wire
      ensures process.client.wire.refusals == old(process.client.wire.refusals) + if ok then 0 else 1
      ensures Valid()
      ensures current == if ok then old(current) - {addr} else old(current)
      ensures ok ==> process.Holes() <= old(process.Holes())
    {
      hide Process.Holes;
      if addr !in current {
        return true;
      }
      ok := process.ClearBreakpoint(addr);
      if ok {
        current := current - {addr};
      }
    }

    method ClearConditional(addr: Addr, g: Gid) returns (ok: bool)
      requires Valid()
      modifies this, process, process.client`mem, process.client`wire
      ensures process.client.wire.refusals == old(process.client.wire.refusals) + if ok then 0 else 1
      ensures Valid()
      ensures ok ==> View() == ClearFor(old(View()), addr, g) && process.Holes() <= old(process.Holes())
    {
      hide Process.Weak, Process.Holes, ClearFor, ViewOf, Entry.View;
      if addr !in current {
        AbsentView(current, addr, g);
        return true;
      }
      var e, found := current[addr].Disassociate(g);
      ClearView(current, addr, g, e);
      current := current[addr := e];
      if !e.NoAssociation() {
        return true;
      }
      ok := Clear(addr);
    }

    /** The keys are visited in any order, and entries are deleted on the way. */
    method ClearAllByGoRoutineID(g: Gid) returns (ok: bool)
      requires Valid()
      modifies this, process, process.client`mem, process.client`wire
      ensures process.client.wire.refusals == old(process.client.wire.refusals) + if ok then 0 else 1
      ensures Valid()
      ensures ok ==> View() == ClearAllFor(old(View()), g) && process.Holes() <= old(process.Holes())
    {
      hide Process.Weak, Process.Holes, ViewOf, ClearAllFor, Swept;
      assert Swept(current, current, current.Keys, g) by { SweepStart(current, g); }
      var todo := current.Keys;
      while todo != {}
        invariant Valid()
        invariant process.Holes() <= old(process.Holes())
        invariant process.client.wire.refusals == old(process.client.wire.refusals)
        invariant Swept(old(current), current, todo, g)
        decreases todo
      {
        var addr :| addr in todo;
        SweptKeys(old(current), current, todo, g);
        var swept := Sweep(old(current), todo, g, addr);
        if !swept {
          return false;
        }
        todo := todo - {addr};
      }
      SweptAll(old(current), current, g);
      ok := true;
    }

    method Sweep(ghost before: map<Addr, Entry>, ghost todo: set<Addr>, g: Gid, addr: Addr) returns (ok: bool)
      requires Valid() && Swept(before, current, todo, g) && addr in todo && addr in current
      modifies this, process, process.client`mem, process.client`wire
      ensures process.client.wire.refusals == old(process.client.wire.refusals) + if ok then 0 else 1
      ensures Valid()
      ensures ok ==> Swept(before, current, todo - {addr}, g) && process.Holes() <= old(process.Holes())
    {
      hide Process.Weak, Process.Holes, Swept, Entry.View;
      var e := current[addr].DisassociateAll(g);
      SweepOne(before, current, todo, g, addr, e);
      current := current[addr := e];
      ok := true;
      if e.NoAssociation() {
        ok := Clear(addr);
      }
    }

    method Set(addr: Addr) returns (ok: bool)
      requires Valid()
      modifies this, process, process.client`mem, process.client`wire
      ensures process.client.wire.refusals == old(process.client.wire.refusals) + if ok then 0 else 1
      ensures Valid() && process.Holes() == old(process.Holes())
      ensures View() == if ok then SetAlways(old(View()), addr) else old(View())
    {
      hide Process.Weak, Process.Holes;
      if addr !in current {
        var done := process.SetBreakpoint(addr);
        if !done {
          return false;
        }
      }
      current := current[addr := Entry(true, [])];
      ok := true;
    }

    /** An entry left without associations by an error is not set again, and no error says so. As long as
        every entry has an association, setting never falls through silently. */
    method SetConditional(addr: Addr, g: Gid) returns (ok: bool)
      requires Valid()
      modifies this, process, process.client`mem, process.client`wire
      ensures process.client.wire.refusals == old(process.client.wire.refusals) + if ok then 0 else 1
      ensures Valid() && process.Holes() == old(process.Holes())
      ensures !ok ==> View() == old(View())
      ensures old(NoEmpty(View())) && ok ==> View() == SetFor(old(View()), addr, g)
      ensures old(addr in current && current[addr].NoAssociation()) ==> ok && View() == old(View())
    {
      hide Process.Weak, Process.Holes, ViewOf;
      SetView(current, addr, Entry(false, []).Associate(g));
      assert multiset([] + [g]) == multiset{g};
      if addr in current {
        if NoEmpty(View()) {
          AddView(current, addr, g);
        }
        if !current[addr].NoAssociation() {
          current := current[addr := current[addr].Associate(g)];
        }
        return true;
      }
      var done := process.SetBreakpoint(addr);
      if !done {
        return false;
      }
      AbsentView(current, addr, g);
      current := current[addr := Entry(false, []).Associate(g)];
      ok := true;
    }
  }
}
