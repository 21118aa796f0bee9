/** Exact accounting of conditional breakpoints, and the absence of leaked ones, over every run. */
module Accounting {
  import opened Base
  import opened BreakpointTable
  import opened TraceModel

  // ----- invariants

  /** The entry points of deferred functions, when they are known to be neither return addresses nor
      call instructions. With None nothing is assumed and nothing exact is claimed. */
  type Entries = Option<iset<Addr>>

  predicate Entry(d: Entries, a: Addr) {
    d.Some? ==> a in d.value
  }

  predicate NotEntry(d: Entries, a: Addr) {
    d.Some? ==> a !in d.value
  }

  predicate FrameOk(p: Program, fr: Frame) {
    && p.find(fr.func.start) == Some(fr.func)
    && (fr.flagged ==> p.calls(fr.func).Some?)
  }

  /** Sizes never decrease towards the top, and frames of one size belong to one function. */
  ghost predicate Ordered(st: seq<Frame>) {
    forall i, j :: 0 <= i < j < |st| ==>
                     st[i].size <= st[j].size && (st[i].size == st[j].size ==> st[i].func.name == st[j].func.name)
  }

  ghost predicate ShadowOk(p: Program, sh: Shadow) {
    && sh.base <= |sh.stack|
    && (forall i :: 0 <= i < |sh.stack| ==> FrameOk(p, sh.stack[i]))
    && Ordered(sh.stack)
  }

  /** The associations a goroutine must have: those of the frames of this session, and those owed. */
  function Expected(p: Program, sh: Shadow): multiset<Addr> {
    if sh.base <= |sh.stack| then Due(p, sh.stack[sh.base..]) + sh.owed else sh.owed
  }

  ghost predicate StacksOk(p: Program, w: World) {
    forall g :: ShadowOk(p, Of(w, g))
  }

  ghost predicate Conserved(p: Program, w: World) {
    forall g :: Matches(w.bps, g, Expected(p, Of(w, g)))
  }

  ghost predicate NoLeak(w: World) {
    && NoEmpty(w.bps)
    && (forall a :: IsAlways(w.bps, a) <==> a in w.starts + w.ends)
    && (forall g, a :: Assoc(w.bps, a, g) > 0 ==> g in w.tracing)
  }

  ghost predicate Separate(w: World, d: Entries) {
    && (forall a :: a in w.hints && w.hints[a].DeferredFunc? ==> Entry(d, a))
    && (forall g :: FramesClear(Of(w, g).stack, d))
  }

  ghost predicate FramesClear(st: seq<Frame>, d: Entries) {
    forall i :: 0 <= i < |st| ==> NotEntry(d, st[i].ret)
  }

  ghost predicate NoCallsIn(p: Program, d: Entries) {
    forall pc: Addr, a :: CallsAt(p, pc).Some? && a in CallsAt(p, pc).value ==> NotEntry(d, a)
  }

  ghost predicate Inv(p: Program, w: World, d: Entries) {
    && StacksOk(p, w)
    && NoLeak(w)
    && (d.Some? ==> Conserved(p, w) && Separate(w, d))
  }

  // ----- multisets of needed addresses

  lemma DuePush(p: Program, st: seq<Frame>, fr: Frame)
    ensures Due(p, st + [fr]) == Due(p, st) + Needs(p, fr)
  {
    assert (st + [fr])[..|st|] == st;
  }

  lemma {:induction false} DueConcat(p: Program, st: seq<Frame>, s: seq<Frame>, t: seq<Frame>)
    requires st == s + t
    ensures Due(p, st) == Due(p, s) + Due(p, t)
    decreases |t|
  {
    if |t| == 0 {
      assert st == s;
    } else {
      DueConcat(p, st[..|st| - 1], s, t[..|t| - 1]);
    }
  }

  /** Undoing frames takes away exactly what they need, as far as it is there. */
  lemma {:induction false} ClearFramesMatches(p: Program, b: Table, st: seq<Frame>, g: Gid, m: multiset<Addr>)
    requires forall i :: 0 <= i < |st| ==> FrameOk(p, st[i])
    requires Matches(b, g, m)
    ensures ClearFrames(p, b, st, g).Some?
    ensures Matches(ClearFrames(p, b, st, g).value, g, m - Due(p, st))
    decreases |st|
  {
    if st == [] {
      assert m - multiset{} == m;
    } else {
      var top, rest := st[|st| - 1], st[..|st| - 1];
      assert FrameOk(p, top);
      var addrs := FrameAddrs(p, top).value;
      var b1 := ClearSeq(b, addrs, g);
      ClearSeqMatches(b, addrs, g, m);
      ClearFramesMatches(p, b1, rest, g, m - multiset(addrs));
      assert m - Due(p, st) == m - multiset(addrs) - Due(p, rest);
    }
  }

  lemma {:induction false} ClearFramesAgree(p: Program, b: Table, st: seq<Frame>, g: Gid)
    requires ClearFrames(p, b, st, g).Some?
    ensures Agree(b, ClearFrames(p, b, st, g).value, g)
    decreases |st|
  {
    if st != [] {
      var addrs := FrameAddrs(p, st[|st| - 1]).value;
      ClearSeqAgree(b, addrs, g);
      ClearFramesAgree(p, ClearSeq(b, addrs, g), st[..|st| - 1], g);
    }
  }

  /** Cutting a shadow stack lowers what is expected by exactly what the dropped frames need. */
  lemma CutExpected(p: Program, sh: Shadow, n: nat)
    requires n <= |sh.stack| && sh.base <= |sh.stack|
    ensures Cut(p, sh, n).base <= |Cut(p, sh, n).stack|
    ensures Expected(p, Cut(p, sh, n)) == Expected(p, sh) - Due(p, sh.stack[n..])
  {
    var st := sh.stack;
    if n < sh.base {
      DueConcat(p, st[n..], st[n..sh.base], st[sh.base..]);
      assert st[..n][n..] == [];
    } else {
      DueConcat(p, st[sh.base..], st[sh.base..n], st[n..]);
      assert st[..n][sh.base..] == st[sh.base..n];
    }
  }

  // ----- every building block of a trap keeps the invariant

  /** A change confined to goroutine g keeps the invariant when it keeps g's own part of it. */
  lemma OnlyOne(p: Program, w: World, w': World, g: Gid, d: Entries)
    requires Inv(p, w, d)
    requires forall h :: h != g ==> Of(w', h) == Of(w, h)
    requires w'.starts == w.starts && w'.ends == w.ends
    requires Agree(w.bps, w'.bps, g)
    requires forall h :: h != g && h in w.tracing ==> h in w'.tracing
    requires ShadowOk(p, Of(w', g))
    requires d.Some? ==> FramesClear(Of(w', g).stack, d) && Matches(w'.bps, g, Expected(p, Of(w', g)))
    requires g in w'.tracing || forall a :: Assoc(w'.bps, a, g) == 0
    requires forall a :: a in w'.hints && w'.hints[a].DeferredFunc? ==> Entry(d, a)
    ensures Inv(p, w', d)
  {
    hide Due, Needs, Expected, Ordered, FrameOk;
    forall h
      ensures ShadowOk(p, Of(w', h))
      ensures d.Some? ==> FramesClear(Of(w', h).stack, d) && Matches(w'.bps, h, Expected(p, Of(w', h)))
    {
      Mine(p, w, h, d);
    }
  }

  /** Goroutine g's part of the invariant. */
  lemma Mine(p: Program, w: World, g: Gid, d: Entries)
    requires Inv(p, w, d)
    ensures ShadowOk(p, Of(w, g))
    ensures d.Some? ==> FramesClear(Of(w, g).stack, d) && Matches(w.bps, g, Expected(p, Of(w, g)))
  {
  }

  lemma CutShape(p: Program, sh: Shadow, n: nat, d: Entries)
    requires ShadowOk(p, sh) && n <= |sh.stack|
    ensures ShadowOk(p, Cut(p, sh, n))
    ensures FramesClear(sh.stack, d) ==> FramesClear(Cut(p, sh, n).stack, d)
  {
    assert Cut(p, sh, n).stack == sh.stack[..n];
  }

  lemma UnwindKeeps(p: Program, w: World, g: Gid, pc: Addr, used: nat, d: Entries)
    requires Inv(p, w, d) && g in w.tracing
    requires Unwind(p, w, g, pc, used).Some?
    ensures Inv(p, Unwind(p, w, g, pc, used).value, d)
  {
    hide Due, Needs, Expected, Ordered, FrameOk, ClearFrames, KeepLen, Cut;
    var sh := Of(w, g);
    var n := KeepLen(p, sh.stack, pc, used).value;
    Mine(p, w, g, d);
    CutShape(p, sh, n, d);
    ClearFramesAgree(p, w.bps, sh.stack[n..], g);
    if d.Some? {
      CutExpected(p, sh, n);
      ClearFramesMatches(p, w.bps, sh.stack[n..], g, Expected(p, sh));
    }
    OnlyOne(p, w, Unwind(p, w, g, pc, used).value, g, d);
  }

  lemma PushShape(p: Program, sh: Shadow, fr: Frame, d: Entries)
    requires ShadowOk(p, sh)
    requires NotEntry(d, fr.ret) && FrameOk(p, fr) && Ordered(sh.stack + [fr])
    ensures ShadowOk(p, sh.(stack := sh.stack + [fr]))
    ensures FramesClear(sh.stack, d) ==> FramesClear(sh.stack + [fr], d)
    ensures FrameAddrs(p, fr).Some? ==>
              Expected(p, sh.(stack := sh.stack + [fr])) == Expected(p, sh) + multiset(FrameAddrs(p, fr).value)
  {
    assert (sh.stack + [fr])[sh.base..] == sh.stack[sh.base..] + [fr];
    DuePush(p, sh.stack[sh.base..], fr);
  }

  lemma PushKeeps(p: Program, w: World, g: Gid, fr: Frame, d: Entries)
    requires Inv(p, w, d)
    requires g in w.tracing && NotEntry(d, fr.ret)
    requires p.find(fr.func.start) == Some(fr.func)
    requires Ordered(Of(w, g).stack + [fr])
    requires Push(p, w, g, fr).Some?
    ensures Inv(p, Push(p, w, g, fr).value, d)
    ensures Push(p, w, g, fr).value.tracing == w.tracing
  {
    hide Due, Needs, Expected, Ordered, FrameOk;
    var sh := Of(w, g);
    Mine(p, w, g, d);
    PushShape(p, sh, fr, d);
    SetSeqAgree(w.bps, FrameAddrs(p, fr).value, g);
    if d.Some? {
      SetSeqMatches(w.bps, FrameAddrs(p, fr).value, g, Expected(p, sh));
    }
    var w' := Push(p, w, g, fr).value;
    assert Of(w', g) == sh.(stack := sh.stack + [fr]);
    OnlyOne(p, w, w', g, d);
  }

  lemma OwedExpected(p: Program, sh: Shadow, m: multiset<Addr>)
    ensures Expected(p, sh.(owed := sh.owed + m)) == Expected(p, sh) + m
    ensures Expected(p, Shadow(sh.stack, |sh.stack|, m)) == m
  {
    assert sh.stack[|sh.stack|..] == [];
  }

  /** Settings made on top of the frames are owed. */
  lemma Owe(p: Program, w: World, w': World, g: Gid, addrs: seq<Addr>, d: Entries)
    requires Inv(p, w, d)
    requires g in w'.tracing && forall h :: h in w.tracing ==> h in w'.tracing
    requires w' == With(w, g, Of(w, g).(owed := Of(w, g).owed + multiset(addrs)))
                   .(bps := SetSeq(w.bps, addrs, g), tracing := w'.tracing, hints := w'.hints)
    requires forall a :: a in w'.hints && w'.hints[a].DeferredFunc? ==> Entry(d, a)
    ensures Inv(p, w', d)
  {
    hide Due, Needs, Expected, Ordered, FrameOk;
    var sh := Of(w, g);
    Mine(p, w, g, d);
    SetSeqAgree(w.bps, addrs, g);
    if d.Some? {
      SetSeqMatches(w.bps, addrs, g, Expected(p, sh));
    }
    OwedExpected(p, sh, multiset(addrs));
    OnlyOne(p, w, w', g, d);
  }

  lemma EnterKeeps(p: Program, w: World, g: Gid, pc: Addr, d: Entries)
    requires Inv(p, w, d)
    requires Enter(p, w, g, pc).Some?
    ensures Inv(p, Enter(p, w, g, pc).value, d)
  {
    Owe(p, w, Enter(p, w, g, pc).value, g, CallsAt(p, pc).value, d);
  }

  lemma WatchKeeps(p: Program, w: World, i: Info, d: Entries)
    requires Inv(p, w, d)
    requires i.id in w.tracing && (i.nextDefer == 0 || Entry(d, i.nextDefer))
    ensures Inv(p, WatchDeferred(w, i), d)
  {
    if i.nextDefer != 0 {
      SetOneIsSeq(w.bps, i.nextDefer, i.id);
      Owe(p, w, WatchDeferred(w, i), i.id, [i.nextDefer], d);
    }
  }

  lemma LeaveKeeps(p: Program, w: World, g: Gid, d: Entries)
    requires Inv(p, w, d)
    ensures Inv(p, Leave(w, g), d)
  {
    hide Due, Needs, Expected, Ordered, FrameOk, ClearAllFor;
    var sh := Of(w, g);
    Mine(p, w, g, d);
    ClearAllMatches(w.bps, g);
    OwedExpected(p, sh, multiset{});
    var w' := Leave(w, g);
    OnlyOne(p, w, w', g, d);
  }

  lemma {:induction false} NotDue(p: Program, st: seq<Frame>, at: Addr, d: Entries)
    requires NoCallsIn(p, d) && d.Some? && at in d.value && FramesClear(st, d)
    ensures Due(p, st)[at] == 0
  {
    if st != [] {
      var top := st[|st| - 1];
      assert NotEntry(d, top.ret);
      if CallsAt(p, top.func.start).Some? {
        assert at in CallsAt(p, top.func.start).value ==> NotEntry(d, at);
      }
      NotDue(p, st[..|st| - 1], at, d);
    }
  }

  lemma DeferredMatches(p: Program, b: Table, g: Gid, sh: Shadow, at: Addr, d: Entries)
    requires Matches(b, g, Expected(p, sh)) && Hit(b, at, g)
    requires sh.base <= |sh.stack| && FramesClear(sh.stack, d) && NoCallsIn(p, d) && d.Some? && at in d.value
    ensures Matches(ClearFor(b, at, g), g, Expected(p, sh.(owed := sh.owed - multiset{at})))
  {
    hide Due, Needs, NoCallsIn, ClearFor;
    var sh' := sh.(owed := sh.owed - multiset{at});
    SetOneIsSeq(b, at, g);
    ClearSeqMatches(b, [at], g, Expected(p, sh));
    NotDue(p, sh.stack[sh.base..], at, d);
    assert forall a :: a != at ==> Expected(p, sh')[a] == Expected(p, sh)[a];
    if !IsAlways(b, at) {
      assert Expected(p, sh)[at] == sh.owed[at];
    }
  }

  /** A trap at the entry of a deferred function uses up one of the settings owed for it. */
  lemma DeferredDone(p: Program, w: World, g: Gid, at: Addr, d: Entries)
    requires Inv(p, w, d) && NoCallsIn(p, d)
    requires g in w.tracing && (d.Some? ==> at in d.value && Hit(w.bps, at, g))
    ensures var sh := Of(w, g);
            Inv(p, With(w, g, sh.(owed := sh.owed - multiset{at})).(bps := ClearFor(w.bps, at, g)), d)
  {
    hide Due, Needs, Expected, Ordered, FrameOk, Hit, NoCallsIn, ClearFor;
    var sh := Of(w, g);
    var w' := With(w, g, sh.(owed := sh.owed - multiset{at})).(bps := ClearFor(w.bps, at, g));
    assert Of(w', g) == sh.(owed := sh.owed - multiset{at});
    Mine(p, w, g, d);
    SetOneIsSeq(w.bps, at, g);
    ClearSeqAgree(w.bps, [at], g);
    if d.Some? {
      DeferredMatches(p, w.bps, g, sh, at, d);
    }
    OnlyOne(p, w, w', g, d);
  }

  // ----- whole traps

  /** What the environment is assumed to report: return addresses and call instructions are not
      entries of deferred functions, and deferred functions are entered at addresses of d. */
  ghost predicate TrapOk(t: Trap, d: Entries) {
    t.User? ==> NotEntry(d, t.ret) && (t.info.nextDefer == 0 || Entry(d, t.info.nextDefer))
  }

  ghost predicate StepOk(s: Step, d: Entries) {
    s.Trapped? ==> TrapOk(s.trap, d)
  }

  lemma {:induction false} KeptBelow(p: Program, st: seq<Frame>, pc: Addr, used: nat)
    requires KeepLen(p, st, pc, used).Some?
    ensures var n := KeepLen(p, st, pc, used).value;
            n > 0 ==> st[n - 1].size < used
                      || (st[n - 1].size == used && p.find(pc).Some? && st[n - 1].func.name == p.find(pc).value.name)
  {
    if st != [] {
      var top := st[|st| - 1];
      if !(top.size < used) && !(top.size == used && p.find(pc).Some? && top.func.name == p.find(pc).value.name) {
        KeptBelow(p, st[..|st| - 1], pc, used);
      }
    }
  }

  lemma PushOrdered(p: Program, st: seq<Frame>, pc: Addr, used: nat, fr: Frame)
    requires KeepLen(p, st, pc, used).Some? && Ordered(st)
    requires p.find(pc) == Some(fr.func) && fr.size == used
    ensures Ordered(st[..KeepLen(p, st, pc, used).value] + [fr])
  {
    KeptBelow(p, st, pc, used);
  }

  lemma UnwindFacts(p: Program, w: World, g: Gid, pc: Addr, used: nat)
    requires Unwind(p, w, g, pc, used).Some?
    ensures var w' := Unwind(p, w, g, pc, used).value;
            && w'.tracing == w.tracing && w'.starts == w.starts && w'.ends == w.ends && w'.hints == w.hints
            && w'.level == w.level && w'.log == w.log
            && Of(w', g).stack == Of(w, g).stack[..KeepLen(p, Of(w, g).stack, pc, used).value]
  {
  }

  lemma AtCallKeeps(p: Program, w: World, i: Info, ret: Addr, d: Entries)
    requires WellFormed(p) && Inv(p, w, d)
    requires i.id in w.tracing && NotEntry(d, ret)
    requires AtCall(p, w, i, ret).Some?
    ensures Inv(p, AtCall(p, w, i, ret).value, d)
    ensures AtCall(p, w, i, ret).value.tracing == w.tracing
  {
    hide Inv, Due, Needs, Expected, ClearFrames, KeepLen, Push;
    var f := p.find(i.pc).value;
    var w1 := Unwind(p, w, i.id, i.pc, i.used).value;
    UnwindKeeps(p, w, i.id, i.pc, i.used, d);
    UnwindFacts(p, w, i.id, i.pc, i.used);
    var depth := |Of(w1, i.id).stack| + 1;
    var fr := Frame(f, ret, i.used, depth < w1.level);
    Mine(p, w, i.id, d);
    PushOrdered(p, Of(w, i.id).stack, i.pc, i.used, fr);
    PushKeeps(p, w1, i.id, fr, d);
    PrintKeeps(p, Push(p, w1, i.id, fr).value, AtCall(p, w, i, ret).value, d);
  }

  /** The log plays no part in the accounting. */
  lemma PrintKeeps(p: Program, w: World, w': World, d: Entries)
    requires Inv(p, w, d) && w' == w.(log := w'.log)
    ensures Inv(p, w', d)
  {
    assert forall g :: Of(w', g) == Of(w, g);
  }

  lemma UpdateTracingKeeps(p: Program, w: World, i: Info, at: Addr, d: Entries)
    requires Inv(p, w, d)
    requires UpdateTracing(p, w, i, at).Some?
    ensures Inv(p, UpdateTracing(p, w, i, at).value, d)
  {
    hide Inv;
    if at in w.starts {
      EnterKeeps(p, w, i.id, i.pc, d);
      LeaveKeeps(p, Enter(p, w, i.id, i.pc).value, i.id, d);
    } else {
      LeaveKeeps(p, w, i.id, d);
    }
  }

  lemma AfterReturnKeeps(p: Program, w: World, i: Info, d: Entries)
    requires Inv(p, w, d)
    requires i.id in w.tracing && (i.nextDefer == 0 || Entry(d, i.nextDefer))
    requires AfterReturn(p, w, i).Some?
    ensures Inv(p, AfterReturn(p, w, i).value, d)
    ensures AfterReturn(p, w, i).value.tracing == w.tracing
  {
    hide Inv, ClearFrames, KeepLen, Cut;
    UnwindKeeps(p, w, i.id, i.pc, i.used, d);
    var w1 := Unwind(p, w, i.id, i.pc, i.used).value;
    WatchKeeps(p, w1, i, d);
    var w' := AfterReturn(p, w, i).value;
    if w'.shadows == w1.shadows && w'.bps == w1.bps && w'.hints == w1.hints {
      PrintKeeps(p, w1, w', d);
    } else {
      PrintKeeps(p, WatchDeferred(w1, i), w', d);
    }
  }

  /** Goroutine g is still to be stopped at the entry of a deferred function. */
  predicate Waits(w: World, g: Gid, at: Addr) {
    at in w.starts + w.ends || Of(w, g).owed[at] > 0
  }

  lemma WaitsIsHit(p: Program, w: World, g: Gid, at: Addr, d: Entries)
    requires Inv(p, w, d) && NoCallsIn(p, d) && d.Some? && at in d.value
    ensures Hit(w.bps, at, g) <==> Waits(w, g, at)
  {
    hide Due, Needs;
    Mine(p, w, g, d);
    NotDue(p, Of(w, g).stack[Of(w, g).base..], at, d);
  }

  lemma UnwindWaits(p: Program, w: World, g: Gid, pc: Addr, used: nat, at: Addr, d: Entries)
    requires Inv(p, w, d) && NoCallsIn(p, d) && d.Some? && at in d.value && Waits(w, g, at)
    requires Unwind(p, w, g, pc, used).Some?
    ensures Waits(Unwind(p, w, g, pc, used).value, g, at)
  {
    hide Inv, Needs, ClearFrames, KeepLen, NoCallsIn;
    var sh := Of(w, g);
    var n := KeepLen(p, sh.stack, pc, used).value;
    Mine(p, w, g, d);
    if n < sh.base {
      NotDue(p, sh.stack[n..sh.base], at, d);
    }
  }

  lemma AtCallWaits(p: Program, w: World, i: Info, ret: Addr, at: Addr, d: Entries)
    requires Inv(p, w, d) && NoCallsIn(p, d) && d.Some? && at in d.value && Waits(w, i.id, at)
    requires AtCall(p, w, i, ret).Some?
    ensures Waits(AtCall(p, w, i, ret).value, i.id, at)
  {
    hide Inv, NoCallsIn, Unwind, SetSeq, MarkCalls;
    UnwindWaits(p, w, i.id, i.pc, i.used, at, d);
  }

  lemma AtDeferredFuncKeeps(p: Program, w: World, i: Info, ret: Addr, d: Entries)
    requires WellFormed(p) && Inv(p, w, d) && NoCallsIn(p, d)
    requires i.id in w.tracing && NotEntry(d, ret)
    requires d.Some? ==> Wrap(i.pc - 1) in d.value && Waits(w, i.id, Wrap(i.pc - 1))
    requires AtDeferredFunc(p, w, i, ret).Some?
    ensures Inv(p, AtDeferredFunc(p, w, i, ret).value, d)
  {
    hide Inv, Unwind, AtCall, NoCallsIn, Waits, WellFormed, Hit, ClearFor;
    var at := Wrap(i.pc - 1);
    var w1 := w;
    if i.panicking && i.handler.Some? {
      w1 := Unwind(p, w, i.id, i.pc, i.handler.value).value;
      UnwindKeeps(p, w, i.id, i.pc, i.handler.value, d);
      UnwindFacts(p, w, i.id, i.pc, i.handler.value);
      if d.Some? {
        UnwindWaits(p, w, i.id, i.pc, i.handler.value, at, d);
      }
    }
    var w2 := AtCall(p, w1, i, ret).value;
    AtCallKeeps(p, w1, i, ret, d);
    if d.Some? {
      AtCallWaits(p, w1, i, ret, at, d);
      WaitsIsHit(p, w2, i.id, at, d);
    }
    DeferredDone(p, w2, i.id, at, d);
  }

  lemma AfterReturnWaits(p: Program, w: World, i: Info, at: Addr, d: Entries)
    requires Inv(p, w, d) && NoCallsIn(p, d) && d.Some? && at in d.value && Waits(w, i.id, at)
    requires AfterReturn(p, w, i).Some?
    ensures Waits(AfterReturn(p, w, i).value, i.id, at)
  {
    hide Inv, NoCallsIn, Unwind, SetFor;
    UnwindWaits(p, w, i.id, i.pc, i.used, at, d);
  }

  lemma UpdateTracingWaits(p: Program, w: World, i: Info, at: Addr)
    requires Waits(w, i.id, at)
    requires UpdateTracing(p, w, i, at).Some?
    requires i.id in UpdateTracing(p, w, i, at).value.tracing
    ensures Waits(UpdateTracing(p, w, i, at).value, i.id, at)
  {
    hide SetSeq, ClearAllFor, CallsAt;
  }

  lemma BeforeCallKeeps(p: Program, w: World, after: Info, ret: Addr, d: Entries)
    requires WellFormed(p) && Inv(p, w, d) && NotEntry(d, ret)
    requires BeforeCall(p, w, after, ret).Some?
    ensures Inv(p, BeforeCall(p, w, after, ret).value, d)
  {
    hide Inv, UpdateTracing, AtCall;
    UpdateTracingKeeps(p, w, after, after.pc, d);
    var w1 := UpdateTracing(p, w, after, after.pc).value;
    if after.id in w1.tracing {
      AtCallKeeps(p, w1, after, ret, d);
    }
  }

  lemma HintIsEntry(p: Program, w: World, at: Addr, d: Entries)
    requires Inv(p, w, d) && d.Some? && at in w.hints && w.hints[at].DeferredFunc?
    ensures at in d.value
  {
  }

  lemma HandleTrapKeeps(p: Program, w: World, t: Trap, d: Entries)
    requires WellFormed(p) && Inv(p, w, d) && NoCallsIn(p, d) && TrapOk(t, d)
    requires HandleTrap(p, w, t).Some?
    ensures Inv(p, HandleTrap(p, w, t).value, d)
  {
    hide Inv, UpdateTracing, AfterReturn, BeforeCall, AtDeferredFunc, NoCallsIn, Hit;
    if t.User? && t.info.id != 0 {
      var i, at := t.info, Wrap(t.info.pc - 1);
      if Hit(w.bps, at, i.id) {
        UpdateTracingKeeps(p, w, i, at, d);
        var w1 := UpdateTracing(p, w, i, at).value;
        if i.id in w1.tracing {
          var w2 := if TopSize(Of(w1, i.id).stack) > i.used then AfterReturn(p, w1, i).value else w1;
          if TopSize(Of(w1, i.id).stack) > i.used {
            AfterReturnKeeps(p, w1, i, d);
          }
          if at in w2.hints && w2.hints[at].Call? {
            BeforeCallKeeps(p, w2, t.after, t.ret, d);
          } else if at in w2.hints {
            if d.Some? {
              HintIsEntry(p, w2, at, d);
              WaitsIsHit(p, w, i.id, at, d);
              UpdateTracingWaits(p, w, i, at);
              if TopSize(Of(w1, i.id).stack) > i.used {
                AfterReturnWaits(p, w1, i, at, d);
              }
            }
            AtDeferredFuncKeeps(p, w2, i, t.ret, d);
          }
        }
      }
    }
  }

  lemma SetAlwaysMatches(b: Table, a: Addr, g: Gid, m: multiset<Addr>)
    requires Matches(b, g, m)
    ensures Matches(SetAlways(b, a), g, m)
  {
    forall x | !IsAlways(SetAlways(b, a), x)
      ensures Assoc(SetAlways(b, a), x, g) == m[x]
    {
      assert x != a && !IsAlways(b, x);
    }
  }

  /** A new trace point takes its address out of the accounting and leaves the rest as it was. */
  lemma AddPointKeeps(p: Program, w: World, a: Addr, w': World, d: Entries)
    requires Inv(p, w, d)
    requires w' == w.(bps := SetAlways(w.bps, a), starts := w'.starts, ends := w'.ends)
    requires w'.starts + w'.ends == w.starts + w.ends + {a}
    ensures Inv(p, w', d)
  {
    hide Due, Needs, Expected, ShadowOk, FramesClear, Matches;
    forall g
      ensures ShadowOk(p, Of(w', g))
      ensures d.Some? ==> FramesClear(Of(w', g).stack, d) && Matches(w'.bps, g, Expected(p, Of(w', g)))
    {
      assert Of(w', g) == Of(w, g);
      Mine(p, w, g, d);
      if d.Some? {
        SetAlwaysMatches(w.bps, a, g, Expected(p, Of(w, g)));
      }
    }
    forall x, g | Assoc(w'.bps, x, g) > 0
      ensures g in w'.tracing
    {
      assert Assoc(w.bps, x, g) > 0;
    }
  }

  lemma NextKeeps(p: Program, w: World, s: Step, d: Entries)
    requires WellFormed(p) && Inv(p, w, d) && NoCallsIn(p, d) && StepOk(s, d)
    requires Next(p, w, s).Some?
    ensures Inv(p, Next(p, w, s).value, d)
  {
    hide Inv, NoCallsIn, HandleTrap, WellFormed;
    match s {
      case Trapped(t) => HandleTrapKeeps(p, w, t, d);
      case NewStart(a) => if a !in w.starts { AddPointKeeps(p, w, a, AddStart(w, a), d); }
      case NewEnd(a) => if a !in w.ends { AddPointKeeps(p, w, a, AddEnd(w, a), d); }
    }
  }

  lemma InitialInv(p: Program, level: int, d: Entries)
    ensures Inv(p, Initial(level), d)
  {
    var w := Initial(level);
    forall g
      ensures Expected(p, Of(w, g)) == multiset{}
    {
      assert Of(w, g) == Shadow([], 0, multiset{});
    }
  }

  // ----- main results: whatever happens during a run

  ghost predicate StepsOk(steps: seq<Step>, d: Entries) {
    forall k :: 0 <= k < |steps| ==> StepOk(steps[k], d)
  }

  /** The invariant holds after every run. */
  lemma {:induction false} RunInv(p: Program, level: int, steps: seq<Step>, d: Entries)
    requires WellFormed(p) && NoCallsIn(p, d) && StepsOk(steps, d)
    requires Run(p, Initial(level), steps).Some?
    ensures Inv(p, Run(p, Initial(level), steps).value, d)
  {
    hide Inv, NoCallsIn, Next, WellFormed, Initial, StepOk;
    if steps == [] {
      InitialInv(p, level, d);
    } else {
      var before := steps[..|steps| - 1];
      RunInv(p, level, before, d);
      NextKeeps(p, Run(p, Initial(level), before).value, steps[|steps| - 1], d);
    }
  }

  /** Conservation: at every address that is not unconditional, a goroutine is associated exactly once
      for every frame of its session returning there, once per call instruction there of every flagged
      frame of its session, and once for every outstanding setting made outside the frames. */
  lemma Conservation(p: Program, level: int, steps: seq<Step>, d: iset<Addr>, g: Gid, a: Addr)
    requires WellFormed(p) && NoCallsIn(p, Some(d)) && StepsOk(steps, Some(d))
    requires Run(p, Initial(level), steps).Some?
    ensures var w := Run(p, Initial(level), steps).value;
            var sh := Of(w, g);
            && sh.base <= |sh.stack|
            && (!IsAlways(w.bps, a) ==> Assoc(w.bps, a, g) == Due(p, sh.stack[sh.base..])[a] + sh.owed[a])
  {
    RunInv(p, level, steps, Some(d));
    Mine(p, Run(p, Initial(level), steps).value, g, Some(d));
  }

  lemma {:induction false} DueHasReturn(p: Program, st: seq<Frame>, i: nat)
    requires i < |st| && FrameOk(p, st[i])
    ensures Due(p, st)[st[i].ret] > 0
  {
    var top := st[|st| - 1];
    if i == |st| - 1 {
      var addrs := FrameAddrs(p, top).value;
      assert addrs[0] == top.ret;
    } else {
      DueHasReturn(p, st[..|st| - 1], i);
    }
  }

  /** No frame of the current session ever loses its return breakpoint, whatever recursion, tail jumps
      and panics do to the stack. */
  lemma ReturnsAreWatched(p: Program, level: int, steps: seq<Step>, d: iset<Addr>, g: Gid, i: nat)
    requires WellFormed(p) && NoCallsIn(p, Some(d)) && StepsOk(steps, Some(d))
    requires Run(p, Initial(level), steps).Some?
    requires Of(Run(p, Initial(level), steps).value, g).base <= i
    requires i < |Of(Run(p, Initial(level), steps).value, g).stack|
    ensures var w := Run(p, Initial(level), steps).value;
            Hit(w.bps, Of(w, g).stack[i].ret, g)
  {
    hide Inv, Due, Next;
    RunInv(p, level, steps, Some(d));
    var w := Run(p, Initial(level), steps).value;
    var sh := Of(w, g);
    Mine(p, w, g, Some(d));
    assert sh.stack[sh.base..][i - sh.base] == sh.stack[i];
    DueHasReturn(p, sh.stack[sh.base..], i - sh.base);
  }

  lemma {:induction false} DueHasCalls(p: Program, st: seq<Frame>, i: nat, a: Addr)
    requires i < |st| && FrameOk(p, st[i]) && st[i].flagged && a in CallsAt(p, st[i].func.start).value
    ensures Due(p, st)[a] > 0
  {
    var top := st[|st| - 1];
    if i == |st| - 1 {
      var calls := CallsAt(p, top.func.start).value;
      assert FrameAddrs(p, top).value == [top.ret] + calls;
      assert a in multiset([top.ret] + calls);
    } else {
      DueHasCalls(p, st[..|st| - 1], i, a);
    }
  }

  /** Nor does a flagged frame of the session lose the breakpoint at any of the call instructions of its function. */
  lemma CallsAreWatched(p: Program, level: int, steps: seq<Step>, d: iset<Addr>, g: Gid, i: nat, a: Addr)
    requires WellFormed(p) && NoCallsIn(p, Some(d)) && StepsOk(steps, Some(d))
    requires Run(p, Initial(level), steps).Some?
    requires Of(Run(p, Initial(level), steps).value, g).base <= i
    requires i < |Of(Run(p, Initial(level), steps).value, g).stack|
    ensures var w := Run(p, Initial(level), steps).value;
            var fr := Of(w, g).stack[i];
            fr.flagged ==>
              && p.find(fr.func.start).Some? && p.calls(p.find(fr.func.start).value).Some?
              && (a in p.calls(p.find(fr.func.start).value).value ==> Hit(w.bps, a, g))
  {
    hide Inv, Due, Next;
    RunInv(p, level, steps, Some(d));
    var w := Run(p, Initial(level), steps).value;
    var sh := Of(w, g);
    Mine(p, w, g, Some(d));
    assert sh.stack[sh.base..][i - sh.base] == sh.stack[i];
    if sh.stack[i].flagged && a in CallsAt(p, sh.stack[i].func.start).value {
      DueHasCalls(p, sh.stack[sh.base..], i - sh.base, a);
    }
  }

  /** No leak: a patched address is a trace point, or a goroutine that is being traced waits there;
      trace points stay unconditional; without traced goroutines only the trace points are patched. */
  lemma NoLeakedBreakpoint(p: Program, level: int, steps: seq<Step>, a: Addr)
    requires WellFormed(p)
    requires Run(p, Initial(level), steps).Some?
    ensures var w := Run(p, Initial(level), steps).value;
            && (a in w.bps ==> a in w.starts + w.ends || exists g :: g in w.tracing && Assoc(w.bps, a, g) > 0)
            && (a in w.starts + w.ends <==> IsAlways(w.bps, a))
            && (w.tracing == multiset{} ==> w.bps.Keys == w.starts + w.ends)
  {
    hide Next, StacksOk, Conserved, Separate;
    RunInv(p, level, steps, None);
    var w := Run(p, Initial(level), steps).value;
    forall x | x in w.bps && x !in w.starts + w.ends
      ensures exists g :: g in w.tracing && Assoc(w.bps, x, g) > 0
    {
      assert !IsAlways(w.bps, x);
      var g := SomeMember(w.bps[x].gs);
      assert Assoc(w.bps, x, g) > 0;
    }
  }
}
