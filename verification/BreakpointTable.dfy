/** The abstract breakpoint table: which goroutines a patched address is waiting for.
    The classes of module Breakpoints are proved to compute these functions. */
module BreakpointTable {
  import opened Base

  type Gid = int

  /** A breakpoint either stops every goroutine, or only those in a multiset of associations;
      a goroutine is associated once per reason to stop it there. */
  datatype Condition = Always | OnlyFor(gs: multiset<Gid>)

  type Table = map<Addr, Condition>

  predicate IsAlways(b: Table, a: Addr) {
    a in b && b[a].Always?
  }

  /** How many times goroutine g is associated with address a. */
  function Assoc(b: Table, a: Addr, g: Gid): nat {
    if a in b && b[a].OnlyFor? then b[a].gs[g] else 0
  }

  predicate Hit(b: Table, a: Addr, g: Gid) {
    IsAlways(b, a) || Assoc(b, a, g) > 0
  }

  /** Every entry has a reason to exist. */
  ghost predicate NoEmpty(b: Table) {
    forall a :: a in b && b[a].OnlyFor? ==> |b[a].gs| > 0
  }

  function SetAlways(b: Table, a: Addr): Table {
    b[a := Always]
  }

  function SetFor(b: Table, a: Addr, g: Gid): Table {
    if a !in b then b[a := OnlyFor(multiset{g})]
    else if b[a].Always? then b
    else b[a := OnlyFor(b[a].gs + multiset{g})]
  }

  function ClearFor(b: Table, a: Addr, g: Gid): Table {
    if a !in b || b[a].Always? then b
    else
      var gs := b[a].gs - multiset{g};
      if |gs| == 0 then b - {a} else b[a := OnlyFor(gs)]
  }

  predicate Keeps(c: Condition, g: Gid) {
    c.Always? || |c.gs[g := 0]| > 0
  }

  function Without(c: Condition, g: Gid): Condition {
    if c.Always? then c else OnlyFor(c.gs[g := 0])
  }

  /** g's associations are dropped everywhere; an entry survives when somebody else still needs it. */
  function ClearAllFor(b: Table, g: Gid): Table {
    map a | a in b && Keeps(b[a], g) :: Without(b[a], g)
  }

  function SetSeq(b: Table, addrs: seq<Addr>, g: Gid): Table
    decreases addrs
  {
    if addrs == [] then b else SetSeq(SetFor(b, addrs[0], g), addrs[1..], g)
  }

  function ClearSeq(b: Table, addrs: seq<Addr>, g: Gid): Table
    decreases addrs
  {
    if addrs == [] then b else ClearSeq(ClearFor(b, addrs[0], g), addrs[1..], g)
  }

  // ----- what the operations do to the associations

  function MonusNat(x: nat, y: nat): nat {
    if x >= y then x - y else 0
  }

  lemma SetForEffect(b: Table, a: Addr, g: Gid)
    ensures forall x :: IsAlways(SetFor(b, a, g), x) <==> IsAlways(b, x)
    ensures forall x, h :: Assoc(SetFor(b, a, g), x, h)
                           == Assoc(b, x, h) + if x == a && h == g && !IsAlways(b, a) then 1 else 0
    ensures NoEmpty(b) ==> NoEmpty(SetFor(b, a, g))
  {
  }

  lemma ClearOne(b: Table, a: Addr, g: Gid, h: Gid)
    requires a in b && b[a].OnlyFor?
    ensures Assoc(ClearFor(b, a, g), a, h) == MonusNat(Assoc(b, a, h), if h == g then 1 else 0)
  {
    var gs := b[a].gs - multiset{g};
    assert gs[h] == MonusNat(b[a].gs[h], if h == g then 1 else 0);
    if |gs| == 0 {
      assert gs[h] == 0;
    }
  }

  lemma ClearForEffect(b: Table, a: Addr, g: Gid)
    ensures forall x :: IsAlways(ClearFor(b, a, g), x) <==> IsAlways(b, x)
    ensures forall x, h :: Assoc(ClearFor(b, a, g), x, h)
                           == MonusNat(Assoc(b, x, h), if x == a && h == g then 1 else 0)
    ensures NoEmpty(b) ==> NoEmpty(ClearFor(b, a, g))
  {
    if a in b && b[a].OnlyFor? {
      forall h
        ensures Assoc(ClearFor(b, a, g), a, h) == MonusNat(Assoc(b, a, h), if h == g then 1 else 0)
      {
        ClearOne(b, a, g, h);
      }
    }
  }

  /** Setting a list of conditional breakpoints adds each address once per occurrence, except where
      the breakpoint is unconditional. */
  lemma {:induction false} SetSeqEffect(b: Table, addrs: seq<Addr>, g: Gid)
    ensures forall x :: IsAlways(SetSeq(b, addrs, g), x) <==> IsAlways(b, x)
    ensures forall x, h :: !IsAlways(b, x) ==>
                             Assoc(SetSeq(b, addrs, g), x, h)
                             == Assoc(b, x, h) + if h == g then multiset(addrs)[x] else 0
    ensures NoEmpty(b) ==> NoEmpty(SetSeq(b, addrs, g))
    decreases addrs
  {
    if addrs != [] {
      SetForEffect(b, addrs[0], g);
      SetSeqEffect(SetFor(b, addrs[0], g), addrs[1..], g);
      assert addrs == [addrs[0]] + addrs[1..];
    }
  }

  /** Clearing is the inverse as long as the associations are there, and never goes below zero. */
  lemma {:induction false} ClearSeqEffect(b: Table, addrs: seq<Addr>, g: Gid)
    ensures forall x :: IsAlways(ClearSeq(b, addrs, g), x) <==> IsAlways(b, x)
    ensures forall x, h :: Assoc(ClearSeq(b, addrs, g), x, h)
                           == MonusNat(Assoc(b, x, h), if h == g then multiset(addrs)[x] else 0)
    ensures NoEmpty(b) ==> NoEmpty(ClearSeq(b, addrs, g))
    decreases addrs
  {
    if addrs != [] {
      ClearForEffect(b, addrs[0], g);
      ClearSeqEffect(ClearFor(b, addrs[0], g), addrs[1..], g);
      assert addrs == [addrs[0]] + addrs[1..];
    }
  }

  lemma SomeMember(gs: multiset<Gid>) returns (g: Gid)
    requires |gs| > 0
    ensures g in gs
  {
    assert exists h :: h in gs by {
      if !exists h :: h in gs {
        assert false;
      }
    }
    g :| g in gs;
  }

  /** Dropping a goroutine removes exactly its own associations and exactly the entries that are
      left without any. */
  lemma ClearAllForEffect(b: Table, g: Gid)
    ensures forall x :: IsAlways(ClearAllFor(b, g), x) <==> IsAlways(b, x)
    ensures forall x, h :: Assoc(ClearAllFor(b, g), x, h) == if h == g then 0 else Assoc(b, x, h)
    ensures NoEmpty(ClearAllFor(b, g))
    ensures forall x :: x in b && x !in ClearAllFor(b, g) <==>
                          x in b && b[x].OnlyFor? && forall h :: h in b[x].gs ==> h == g
  {
    forall x | x in b && b[x].OnlyFor?
      ensures |b[x].gs[g := 0]| == 0 <==> forall h :: h in b[x].gs ==> h == g
    {
      var rest := b[x].gs[g := 0];
      if |rest| == 0 {
        assert rest == multiset{};
        assert forall h :: h != g ==> rest[h] == b[x].gs[h];
      } else {
        var h := SomeMember(rest);
        assert h in b[x].gs && h != g;
      }
    }
  }

  // ----- the same effects, seen from one goroutine

  /** Goroutine g is associated with each address as often as m says, except where b stops everybody. */
  ghost predicate Matches(b: Table, g: Gid, m: multiset<Addr>) {
    forall a :: !IsAlways(b, a) ==> Assoc(b, a, g) == m[a]
  }

  /** Two tables differ at most in the associations of goroutine g. */
  ghost predicate Agree(b: Table, b': Table, g: Gid) {
    && (forall a :: IsAlways(b', a) <==> IsAlways(b, a))
    && (forall a, h :: h != g ==> Assoc(b', a, h) == Assoc(b, a, h))
    && (NoEmpty(b) ==> NoEmpty(b'))
  }

  lemma SetSeqAgree(b: Table, addrs: seq<Addr>, g: Gid)
    ensures Agree(b, SetSeq(b, addrs, g), g)
  {
    SetSeqEffect(b, addrs, g);
    var b' := SetSeq(b, addrs, g);
    forall a, h | h != g
      ensures Assoc(b', a, h) == Assoc(b, a, h)
    {
      if IsAlways(b, a) {
        assert IsAlways(b', a);
      }
    }
  }

  lemma SetSeqMatches(b: Table, addrs: seq<Addr>, g: Gid, m: multiset<Addr>)
    requires Matches(b, g, m)
    ensures Matches(SetSeq(b, addrs, g), g, m + multiset(addrs))
  {
    SetSeqEffect(b, addrs, g);
  }

  lemma ClearSeqAgree(b: Table, addrs: seq<Addr>, g: Gid)
    ensures Agree(b, ClearSeq(b, addrs, g), g)
  {
    ClearSeqEffect(b, addrs, g);
  }

  lemma ClearSeqMatches(b: Table, addrs: seq<Addr>, g: Gid, m: multiset<Addr>)
    requires Matches(b, g, m)
    ensures Matches(ClearSeq(b, addrs, g), g, m - multiset(addrs))
  {
    ClearSeqEffect(b, addrs, g);
  }

  lemma ClearAllMatches(b: Table, g: Gid)
    ensures Matches(ClearAllFor(b, g), g, multiset{}) && Agree(b, ClearAllFor(b, g), g)
    ensures forall a :: Assoc(ClearAllFor(b, g), a, g) == 0
  {
    ClearAllForEffect(b, g);
  }

  lemma SetOneIsSeq(b: Table, a: Addr, g: Gid)
    ensures SetFor(b, a, g) == SetSeq(b, [a], g) && ClearFor(b, a, g) == ClearSeq(b, [a], g)
  {
  }
}
