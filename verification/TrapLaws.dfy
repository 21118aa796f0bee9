/** What a trap does, said of the stacks, the log, the associations, the hints and the traced goroutines, and not of
    the functions of the state machine that compute it. */
module TrapLaws {
  import opened Base
  import opened BreakpointTable
  import opened TraceModel
  import opened Accounting
  import opened TraceLog
  import opened Unwinding

  // ----- the effects

  /** Associations of goroutine g were undone, as far as they were there, and then made. */
  ghost predicate Settled(b: Table, b': Table, g: Gid, undone: multiset<Addr>, made: multiset<Addr>) {
    && (forall a :: IsAlways(b', a) <==> IsAlways(b, a))
    && (forall a, h :: h != g ==> Assoc(b', a, h) == Assoc(b, a, h))
    && forall a :: !IsAlways(b, a) ==>
                     Assoc(b', a, g)
                     == (if Assoc(b, a, g) >= undone[a] then Assoc(b, a, g) - undone[a] else 0) + made[a]
  }

  /** All associations of goroutine g are gone. */
  ghost predicate Forgotten(b: Table, b': Table, g: Gid) {
    && (forall a :: IsAlways(b', a) <==> IsAlways(b, a))
    && forall a, h :: Assoc(b', a, h) == if h == g then 0 else Assoc(b, a, h)
  }

  ghost predicate SamePoints(w: World, w': World) {
    w'.level == w.level && w'.starts == w.starts && w'.ends == w.ends
  }

  ghost predicate OtherStacks(w: World, w': World, g: Gid) {
    forall h :: h != g ==> Of(w', h).stack == Of(w, h).stack
  }

  function Marked(hints: map<Addr, Hint>, calls: seq<Addr>): map<Addr, Hint> {
    map a | a in hints.Keys + (set c | c in calls) :: if a in calls then Call else hints[a]
  }

  /** The goroutine passed the address: at a start point it is traced once more, and stopped at the calls of its
      function; at an end point it is traced once less, and at last it is stopped nowhere. */
  ghost predicate Passes(p: Program, w: World, w': World, i: Info, at: Addr) {
    var one := multiset{i.id};
    && SamePoints(w, w') && w'.log == w.log && OtherStacks(w, w', i.id) && Of(w', i.id).stack == Of(w, i.id).stack
    && w'.tracing
       == (if at in w.starts then w.tracing + one else w.tracing) - (if at in w.ends then one else multiset{})
    && (at in w.starts ==> p.find(i.pc).Some? && p.calls(p.find(i.pc).value).Some?)
    && var calls := if at in w.starts then p.calls(p.find(i.pc).value).value else [];
       && w'.hints == Marked(w.hints, calls)
       && if at in w.ends && i.id !in w'.tracing then Forgotten(w.bps, w'.bps, i.id)
          else Settled(w.bps, w'.bps, i.id, multiset{}, multiset(calls))
  }

  /** The frames that are dead at pc with the given stack size are gone, with what they needed. */
  ghost predicate Drops(p: Program, w: World, w': World, g: Gid, pc: Addr, used: nat) {
    var st, kept := Of(w, g).stack, Survivors(p, Of(w, g).stack, pc, used);
    && SamePoints(w, w') && w'.log == w.log && w'.tracing == w.tracing && w'.hints == w.hints
    && OtherStacks(w, w', g) && Of(w', g).stack == kept
    && kept <= st && Settled(w.bps, w'.bps, g, Due(p, st[|kept|..]), multiset{})
  }

  /** A function returned: the dead frames are gone, the lowest of them is printed, and after runtime.deferproc the
      goroutine is stopped at the next deferred function. */
  ghost predicate Returns(p: Program, w: World, w': World, i: Info) {
    var st, kept := Of(w, i.id).stack, Survivors(p, Of(w, i.id).stack, i.pc, i.used);
    && kept <= st && |kept| < |st|
    && var depth, name := |kept| + 1, st[|kept|].func.name;
       var watch := depth <= w.level && name == "runtime.deferproc" && i.nextDefer != 0;
       && SamePoints(w, w') && w'.tracing == w.tracing && OtherStacks(w, w', i.id) && Of(w', i.id).stack == kept
       && w'.log == w.log + (if depth <= w.level && p.printable(name) then [Line(i.id, depth, false, name)] else [])
       && w'.hints == (if watch then w.hints[i.nextDefer := DeferredFunc] else w.hints)
       && Settled(w.bps, w'.bps, i.id, Due(p, st[|kept|..]), if watch then multiset{i.nextDefer} else multiset{})
  }

  /** A function was called: its frame is on top of those that are not dead, it is printed, and the goroutine is
      stopped where it returns and, below the trace level, at its calls. */
  ghost predicate CallsInto(p: Program, w: World, w': World, i: Info, ret: Addr) {
    var st, kept := Of(w, i.id).stack, Survivors(p, Of(w, i.id).stack, i.pc, i.used);
    && kept <= st && p.find(i.pc).Some?
    && var f, depth := p.find(i.pc).value, |kept| + 1;
       && SamePoints(w, w') && w'.tracing == w.tracing && OtherStacks(w, w', i.id)
       && Of(w', i.id).stack == kept + [Frame(f, ret, i.used, depth < w.level)]
       && w'.log == w.log + (if depth <= w.level && p.printable(f.name) then [Line(i.id, depth, true, f.name)] else [])
       && (depth < w.level ==> p.find(f.start).Some? && p.calls(p.find(f.start).value).Some?)
       && var calls := if depth < w.level then p.calls(p.find(f.start).value).value else [];
          && w'.hints == Marked(w.hints, calls)
          && Settled(w.bps, w'.bps, i.id, Due(p, st[|kept|..]), multiset{ret} + multiset(calls))
  }

  /** A deferred function was entered: in a panic the frames above the handler's are gone first. The goroutine need not
      be stopped there once more. */
  ghost predicate EntersDeferred(p: Program, w: World, w': World, i: Info, ret: Addr) {
    exists w1, w2 ::
      && (if i.panicking && i.handler.Some? then Drops(p, w, w1, i.id, i.pc, i.handler.value) else w1 == w)
      && CallsInto(p, w1, w2, i, ret)
      && SamePoints(w2, w') && w'.log == w2.log && w'.tracing == w2.tracing && w'.hints == w2.hints
      && OtherStacks(w2, w', i.id) && Of(w', i.id).stack == Of(w2, i.id).stack
      && Settled(w2.bps, w'.bps, i.id, multiset{Wrap(i.pc - 1)}, multiset{})
  }

  /** What follows once returns were handled depends on why the breakpoint was set. */
  ghost predicate Follows(p: Program, w: World, w': World, t: Trap)
    requires t.User?
  {
    var at := Wrap(t.info.pc - 1);
    if at !in w.hints then w' == w
    else if w.hints[at].DeferredFunc? then EntersDeferred(p, w, w', t.info, t.ret)
    else
      exists w1 :: && Passes(p, w, w1, t.after, t.after.pc)
                   && if t.after.id in w1.tracing then CallsInto(p, w1, w', t.after, t.ret) else w' == w1
  }

  /** Whether the breakpoint is the goroutine's. */
  ghost predicate Noticed(w: World, i: Info) {
    i.id != 0 && (IsAlways(w.bps, Wrap(i.pc - 1)) || Assoc(w.bps, Wrap(i.pc - 1), i.id) > 0)
  }

  ghost predicate Handles(p: Program, w: World, w': World, t: Trap) {
    if t.System? || !Noticed(w, t.info) then w' == w
    else exists w1 :: Passes(p, w, w1, t.info, Wrap(t.info.pc - 1)) && GoesOn(p, w1, w', t)
  }

  /** A goroutine that is traced at the trap: less stack than its top frame has means that functions returned. */
  ghost predicate GoesOn(p: Program, w: World, w': World, t: Trap)
    requires t.User?
  {
    if t.info.id !in w.tracing then w' == w
    else exists w1 :: MayReturn(p, w, w1, t.info) && Follows(p, w1, w', t)
  }

  ghost predicate MayReturn(p: Program, w: World, w': World, i: Info) {
    if TopSize(Of(w, i.id).stack) > i.used then Returns(p, w, w', i) else w' == w
  }

  // ----- the functions have these effects

  /** What a list of frames needs, frame by frame. */
  lemma DueIs(p: Program, st: seq<Frame>, fr: Frame)
    requires fr.flagged ==> p.find(fr.func.start).Some? && p.calls(p.find(fr.func.start).value).Some?
    ensures Due(p, []) == multiset{}
    ensures Due(p, st + [fr])
            == Due(p, st) + multiset{fr.ret}
               + if fr.flagged then multiset(p.calls(p.find(fr.func.start).value).value) else multiset{}
  {
    DuePush(p, st, fr);
    if fr.flagged {
      var calls := p.calls(p.find(fr.func.start).value).value;
      assert multiset([fr.ret] + calls) == multiset{fr.ret} + multiset(calls);
    }
  }

  lemma SettledSet(b: Table, addrs: seq<Addr>, g: Gid)
    ensures Settled(b, SetSeq(b, addrs, g), g, multiset{}, multiset(addrs))
  {
    SetSeqEffect(b, addrs, g);
    SetSeqAgree(b, addrs, g);
  }

  lemma SettledClear(b: Table, addrs: seq<Addr>, g: Gid)
    ensures Settled(b, ClearSeq(b, addrs, g), g, multiset(addrs), multiset{})
  {
    ClearSeqEffect(b, addrs, g);
    ClearSeqAgree(b, addrs, g);
  }

  lemma SettledTwice(b: Table, b1: Table, b2: Table, g: Gid, undone: multiset<Addr>, made: multiset<Addr>)
    requires Settled(b, b1, g, undone, multiset{}) && Settled(b1, b2, g, multiset{}, made)
    ensures Settled(b, b2, g, undone, made)
  {
  }

  lemma SettledMore(b: Table, b1: Table, b2: Table, g: Gid, first: multiset<Addr>, then': multiset<Addr>)
    requires Settled(b, b1, g, first, multiset{}) && Settled(b1, b2, g, then', multiset{})
    ensures Settled(b, b2, g, first + then', multiset{})
  {
  }

  lemma {:induction false} FramesSettled(p: Program, b: Table, st: seq<Frame>, g: Gid)
    requires ClearFrames(p, b, st, g).Some?
    ensures Settled(b, ClearFrames(p, b, st, g).value, g, Due(p, st), multiset{})
    decreases |st|
  {
    hide Settled;
    if st == [] {
      SettledClear(b, [], g);
    } else {
      var top, rest := st[|st| - 1], st[..|st| - 1];
      var addrs := FrameAddrs(p, top).value;
      var b1 := ClearSeq(b, addrs, g);
      SettledClear(b, addrs, g);
      FramesSettled(p, b1, rest, g);
      SettledMore(b, b1, ClearFrames(p, b, st, g).value, g, multiset(addrs), Due(p, rest));
      assert multiset(addrs) + Due(p, rest) == Due(p, st);
    }
  }

  lemma MarkedIs(hints: map<Addr, Hint>, calls: seq<Addr>)
    ensures MarkCalls(hints, calls) == Marked(hints, calls)
    ensures Marked(hints, []) == hints
  {
  }

  lemma EnterEffect(p: Program, w: World, g: Gid, pc: Addr)
    requires Enter(p, w, g, pc).Some?
    ensures p.find(pc).Some? && p.calls(p.find(pc).value).Some?
    ensures var calls, w' := p.calls(p.find(pc).value).value, Enter(p, w, g, pc).value;
            && SamePoints(w, w') && w'.log == w.log && w'.tracing == w.tracing + multiset{g}
            && (forall h :: Of(w', h).stack == Of(w, h).stack)
            && w'.hints == Marked(w.hints, calls) && Settled(w.bps, w'.bps, g, multiset{}, multiset(calls))
  {
    hide Settled, SetSeq, MarkCalls, Marked;
    var calls := p.calls(p.find(pc).value).value;
    MarkedIs(w.hints, calls);
    SettledSet(w.bps, calls, g);
  }

  lemma LeaveEffect(w: World, g: Gid)
    ensures var w' := Leave(w, g);
            && SamePoints(w, w') && w'.log == w.log && w'.tracing == w.tracing - multiset{g} && w'.hints == w.hints
            && (forall h :: Of(w', h).stack == Of(w, h).stack)
            && w'.bps == if g in w'.tracing then w.bps else ClearAllFor(w.bps, g)
  {
    hide ClearAllFor;
  }

  lemma UpdateTracingPasses(p: Program, w: World, i: Info, at: Addr)
    requires UpdateTracing(p, w, i, at).Some?
    ensures Passes(p, w, UpdateTracing(p, w, i, at).value, i, at)
  {
    hide Settled, Forgotten, SetSeq, ClearAllFor, Marked, Enter, Leave;
    var w1 := w;
    var calls := [];
    if at in w.starts {
      EnterEffect(p, w, i.id, i.pc);
      w1 := Enter(p, w, i.id, i.pc).value;
      calls := p.calls(p.find(i.pc).value).value;
    } else {
      MarkedIs(w.hints, []);
      SettledSet(w.bps, [], i.id);
      NoneSet(w.bps, i.id);
    }
    LeaveEffect(w1, i.id);
    AllForgotten(w.bps, w1.bps, i.id, calls);
    assert w1.tracing - multiset{} == w1.tracing;
  }

  lemma NoneSet(b: Table, g: Gid)
    ensures SetSeq(b, [], g) == b
  {
  }

  lemma AllForgotten(b: Table, b1: Table, g: Gid, calls: seq<Addr>)
    requires Settled(b, b1, g, multiset{}, multiset(calls))
    ensures Forgotten(b, ClearAllFor(b1, g), g)
  {
    ClearAllForEffect(b1, g);
  }

  lemma UnwindDrops(p: Program, w: World, g: Gid, pc: Addr, used: nat)
    requires ShadowOk(p, Of(w, g)) && Unwind(p, w, g, pc, used).Some?
    ensures Drops(p, w, Unwind(p, w, g, pc, used).value, g, pc, used)
  {
    hide Settled, ClearFrames, KeepLen, Survivors, Due, ShadowOk;
    UnwindSplits(p, w, g, pc, used);
    var st := Of(w, g).stack;
    var n := KeepLen(p, st, pc, used).value;
    FramesSettled(p, w.bps, st[n..], g);
  }

  lemma PushEffect(p: Program, w: World, g: Gid, fr: Frame)
    requires Push(p, w, g, fr).Some?
    ensures fr.flagged ==> p.find(fr.func.start).Some? && p.calls(p.find(fr.func.start).value).Some?
    ensures var calls := if fr.flagged then p.calls(p.find(fr.func.start).value).value else [];
            var w' := Push(p, w, g, fr).value;
            && SamePoints(w, w') && w'.log == w.log && w'.tracing == w.tracing && OtherStacks(w, w', g)
            && Of(w', g).stack == Of(w, g).stack + [fr] && w'.hints == Marked(w.hints, calls)
            && Settled(w.bps, w'.bps, g, multiset{}, multiset{fr.ret} + multiset(calls))
  {
    hide Settled, SetSeq, MarkCalls, Marked;
    var calls := if fr.flagged then p.calls(p.find(fr.func.start).value).value else [];
    var addrs := FrameAddrs(p, fr).value;
    assert addrs == [fr.ret] + calls && addrs[1..] == calls;
    assert multiset(addrs) == multiset{fr.ret} + multiset(calls);
    MarkedIs(w.hints, calls);
    SettledSet(w.bps, addrs, g);
  }

  lemma PrintEffect(p: Program, w: World, g: Gid, depth: int, f: Func)
    ensures var w' := Print(p, w, g, depth, true, f);
            && SamePoints(w, w') && w'.tracing == w.tracing && w'.hints == w.hints && w'.bps == w.bps
            && w'.shadows == w.shadows
            && w'.log == w.log
                         + if depth <= w.level && p.printable(f.name) then [Line(g, depth, true, f.name)] else []
  {
    assert w.log + [] == w.log;
  }

  /** A call in its three parts. */
  lemma CallParts(p: Program, w: World, i: Info, ret: Addr) returns (f: Func, w1: World, w2: World)
    requires AtCall(p, w, i, ret).Some?
    ensures p.find(i.pc) == Some(f) && Unwind(p, w, i.id, i.pc, i.used) == Some(w1)
    ensures Push(p, w1, i.id, Frame(f, ret, i.used, |Of(w1, i.id).stack| + 1 < w.level)) == Some(w2)
    ensures AtCall(p, w, i, ret) == Some(Print(p, w2, i.id, |Of(w1, i.id).stack| + 1, true, f))
  {
    hide Print, FrameAddrs, KeepLen, ClearFrames, Cut;
    f := p.find(i.pc).value;
    w1 := Unwind(p, w, i.id, i.pc, i.used).value;
    w2 := Push(p, w1, i.id, Frame(f, ret, i.used, |Of(w1, i.id).stack| + 1 < w.level)).value;
  }

  lemma CallCallsInto(p: Program, w: World, i: Info, ret: Addr)
    requires ShadowOk(p, Of(w, i.id)) && AtCall(p, w, i, ret).Some?
    ensures CallsInto(p, w, AtCall(p, w, i, ret).value, i, ret)
  {
    hide Settled, Unwind, Survivors, Due, ShadowOk, Marked, Push, AtCall, Print;
    var f, w1, w2 := CallParts(p, w, i, ret);
    UnwindDrops(p, w, i.id, i.pc, i.used);
    var n := |Of(w1, i.id).stack|;
    PushEffect(p, w1, i.id, Frame(f, ret, i.used, n + 1 < w.level));
    PrintEffect(p, w2, i.id, n + 1, f);
    var calls := if n + 1 < w.level then p.calls(p.find(f.start).value).value else [];
    SettledTwice(w.bps, w1.bps, w2.bps, i.id, Due(p, Of(w, i.id).stack[n..]), multiset{ret} + multiset(calls));
  }

  lemma WatchEffect(w: World, i: Info)
    ensures var w' := WatchDeferred(w, i);
            && SamePoints(w, w') && w'.log == w.log && w'.tracing == w.tracing
            && (forall h :: Of(w', h).stack == Of(w, h).stack)
            && w'.hints == (if i.nextDefer != 0 then w.hints[i.nextDefer := DeferredFunc] else w.hints)
            && Settled(w.bps, w'.bps, i.id, multiset{}, if i.nextDefer != 0 then multiset{i.nextDefer} else multiset{})
  {
    hide Settled, SetFor;
    SetOneIsSeq(w.bps, i.nextDefer, i.id);
    SettledSet(w.bps, [i.nextDefer], i.id);
    SettledSet(w.bps, [], i.id);
    NoneSet(w.bps, i.id);
  }

  lemma ReturnReturns(p: Program, w: World, i: Info)
    requires ShadowOk(p, Of(w, i.id)) && AfterReturn(p, w, i).Some?
    ensures Returns(p, w, AfterReturn(p, w, i).value, i)
  {
    hide Settled, Unwind, Survivors, Due, Ordered, WatchDeferred;
    UnwindDrops(p, w, i.id, i.pc, i.used);
    var w1 := Unwind(p, w, i.id, i.pc, i.used).value;
    var st, n := Of(w, i.id).stack, |Of(w1, i.id).stack|;
    assert FrameOk(p, st[n]);
    WatchEffect(w1, i);
    var made := if i.nextDefer != 0 then multiset{i.nextDefer} else multiset{};
    SettledTwice(w.bps, w1.bps, WatchDeferred(w1, i).bps, i.id, Due(p, st[n..]), made);
    assert w.log + [] == w.log;
  }

  lemma EntryCleared(p: Program, w: World, w1: World, i: Info, ret: Addr)
    requires AtDeferredFunc(p, w, i, ret).Some?
    requires Some(w1) == if i.panicking && i.handler.Some? then Unwind(p, w, i.id, i.pc, i.handler.value) else Some(w)
    ensures AtCall(p, w1, i, ret).Some?
    ensures var w2, w' := AtCall(p, w1, i, ret).value, AtDeferredFunc(p, w, i, ret).value;
            && SamePoints(w2, w') && w'.log == w2.log && w'.tracing == w2.tracing && w'.hints == w2.hints
            && OtherStacks(w2, w', i.id) && Of(w', i.id).stack == Of(w2, i.id).stack
            && w'.bps == ClearFor(w2.bps, Wrap(i.pc - 1), i.id)
  {
    hide Unwind, AtCall, ClearFor;
  }

  lemma DeferredEnters(p: Program, w: World, i: Info, ret: Addr)
    requires ShadowOk(p, Of(w, i.id)) && AtDeferredFunc(p, w, i, ret).Some?
    ensures EntersDeferred(p, w, AtDeferredFunc(p, w, i, ret).value, i, ret)
  {
    hide Settled, Unwind, AtCall, AtDeferredFunc, Drops, CallsInto, ShadowOk, ClearFor, SamePoints, OtherStacks;
    var at := Wrap(i.pc - 1);
    var w1 := w;
    if i.panicking && i.handler.Some? {
      Unwound(p, w, i, ret);
      UnwindDrops(p, w, i.id, i.pc, i.handler.value);
      StillOk(p, w, i.id, i.pc, i.handler.value);
      w1 := Unwind(p, w, i.id, i.pc, i.handler.value).value;
    }
    EntryCleared(p, w, w1, i, ret);
    CallCallsInto(p, w1, i, ret);
    var w2 := AtCall(p, w1, i, ret).value;
    SetOneIsSeq(w2.bps, at, i.id);
    SettledClear(w2.bps, [at], i.id);
    assert multiset([at]) == multiset{at};
  }

  lemma Unwound(p: Program, w: World, i: Info, ret: Addr)
    requires AtDeferredFunc(p, w, i, ret).Some? && i.panicking && i.handler.Some?
    ensures Unwind(p, w, i.id, i.pc, i.handler.value).Some?
  {
  }

  lemma StillOk(p: Program, w: World, g: Gid, pc: Addr, used: nat)
    requires ShadowOk(p, Of(w, g)) && Unwind(p, w, g, pc, used).Some?
    ensures ShadowOk(p, Of(Unwind(p, w, g, pc, used).value, g))
  {
    hide ClearFrames, KeepLen, Cut;
    CutShape(p, Of(w, g), KeepLen(p, Of(w, g).stack, pc, used).value, None);
  }

  /** Main result: a trap that is handled has the effects above, in this order. */
  lemma TrapHandles(p: Program, w: World, t: Trap)
    requires WellFormed(p) && Inv(p, w, None) && HandleTrap(p, w, t).Some?
    ensures Handles(p, w, HandleTrap(p, w, t).value, t)
  {
    hide Inv, UpdateTracing, AfterReturn, BeforeCall, AtDeferredFunc, Passes, Returns, Follows, ShadowOk;
    if t.User? && Noticed(w, t.info) {
      var i, at := t.info, Wrap(t.info.pc - 1);
      var w1 := UpdateTracing(p, w, i, at).value;
      UpdateTracingPasses(p, w, i, at);
      UpdateTracingKeeps(p, w, i, at, None);
      Mine(p, w1, i.id, None);
      if i.id in w1.tracing {
        var w2 := w1;
        if TopSize(Of(w1, i.id).stack) > i.used {
          w2 := AfterReturn(p, w1, i).value;
          ReturnReturns(p, w1, i);
          AfterReturnKeeps(p, w1, i, None);
        }
        HintFollows(p, w2, HandleTrap(p, w, t).value, t);
        assert MayReturn(p, w1, w2, i);
      }
      assert GoesOn(p, w1, HandleTrap(p, w, t).value, t);
    }
  }

  lemma HintFollows(p: Program, w: World, w': World, t: Trap)
    requires WellFormed(p) && Inv(p, w, None) && t.User?
    requires var at := Wrap(t.info.pc - 1);
             Some(w') == if at !in w.hints then Some(w)
                         else if w.hints[at].Call? then BeforeCall(p, w, t.after, t.ret)
                         else AtDeferredFunc(p, w, t.info, t.ret)
    ensures Follows(p, w, w', t)
  {
    hide Inv, UpdateTracing, AtCall, AtDeferredFunc, Passes, CallsInto, EntersDeferred, ShadowOk;
    var at := Wrap(t.info.pc - 1);
    Mine(p, w, t.info.id, None);
    if at in w.hints && w.hints[at].Call? {
      UpdateTracingPasses(p, w, t.after, t.after.pc);
      UpdateTracingKeeps(p, w, t.after, t.after.pc, None);
      var w1 := UpdateTracing(p, w, t.after, t.after.pc).value;
      Mine(p, w1, t.after.id, None);
      if t.after.id in w1.tracing {
        CallCallsInto(p, w1, t.after, t.ret);
      }
    } else if at in w.hints {
      DeferredEnters(p, w, t.info, t.ret);
    }
  }

  // ----- no trap is lost

  /** Every function that is found has a list of calls. */
  ghost predicate CallsKnown(p: Program) {
    forall pc: Addr :: p.find(pc).Some? ==> p.calls(p.find(pc).value).Some?
  }

  lemma UnwindWorks(p: Program, w: World, g: Gid, pc: Addr, used: nat)
    requires ShadowOk(p, Of(w, g)) && p.find(pc).Some?
    ensures Unwind(p, w, g, pc, used).Some? && Unwind(p, w, g, pc, used).value.tracing == w.tracing
    ensures ShadowOk(p, Of(Unwind(p, w, g, pc, used).value, g))
  {
    hide Unwind, ShadowOk, Survivors;
    UnwindSplits(p, w, g, pc, used);
    StillOk(p, w, g, pc, used);
    UnwindFacts(p, w, g, pc, used);
  }

  lemma CallWorks(p: Program, w: World, i: Info, ret: Addr)
    requires WellFormed(p) && CallsKnown(p) && ShadowOk(p, Of(w, i.id)) && p.find(i.pc).Some?
    ensures AtCall(p, w, i, ret).Some?
  {
    hide Unwind, Print, SetSeq, MarkCalls, ShadowOk;
    UnwindWorks(p, w, i.id, i.pc, i.used);
  }

  lemma ReturnWorks(p: Program, w: World, i: Info)
    requires ShadowOk(p, Of(w, i.id)) && p.find(i.pc).Some? && TopSize(Of(w, i.id).stack) > i.used
    ensures AfterReturn(p, w, i).Some?
  {
    hide Unwind, Ordered, WatchDeferred, Survivors;
    UnwindWorks(p, w, i.id, i.pc, i.used);
    ReturnDropsAFrame(p, w, i.id, i.pc, i.used);
    assert FrameOk(p, Of(w, i.id).stack[|Of(Unwind(p, w, i.id, i.pc, i.used).value, i.id).stack|]);
  }

  lemma DeferredWorks(p: Program, w: World, i: Info, ret: Addr)
    requires WellFormed(p) && CallsKnown(p) && ShadowOk(p, Of(w, i.id)) && p.find(i.pc).Some?
    ensures AtDeferredFunc(p, w, i, ret).Some?
  {
    hide Unwind, AtCall, ShadowOk, ClearFor, CallsKnown;
    var w1 := w;
    if i.panicking && i.handler.Some? {
      UnwindWorks(p, w, i.id, i.pc, i.handler.value);
      w1 := Unwind(p, w, i.id, i.pc, i.handler.value).value;
    }
    CallWorks(p, w1, i, ret);
  }

  /** A trap has a step when the functions the goroutine is in, before and after, are known. */
  lemma TrapWorks(p: Program, w: World, t: Trap)
    requires WellFormed(p) && CallsKnown(p) && Inv(p, w, None) && t.User?
    requires p.find(t.info.pc).Some? && p.find(t.after.pc).Some?
    ensures HandleTrap(p, w, t).Some?
  {
    hide Inv, UpdateTracing, AfterReturn, AtCall, AtDeferredFunc, ShadowOk, CallsKnown, Hit;
    var i, at := t.info, Wrap(t.info.pc - 1);
    PassWorks(p, w, i, at);
    var w1 := UpdateTracing(p, w, i, at).value;
    UpdateTracingKeeps(p, w, i, at, None);
    Mine(p, w1, i.id, None);
    if i.id in w1.tracing {
      var w2 := w1;
      if TopSize(Of(w1, i.id).stack) > i.used {
        ReturnWorks(p, w1, i);
        w2 := AfterReturn(p, w1, i).value;
        AfterReturnKeeps(p, w1, i, None);
      }
      Mine(p, w2, i.id, None);
      DeferredWorks(p, w2, i, t.ret);
      PassWorks(p, w2, t.after, t.after.pc);
      UpdateTracingKeeps(p, w2, t.after, t.after.pc, None);
      Mine(p, UpdateTracing(p, w2, t.after, t.after.pc).value, t.after.id, None);
      CallWorks(p, UpdateTracing(p, w2, t.after, t.after.pc).value, t.after, t.ret);
    }
  }

  lemma PassWorks(p: Program, w: World, i: Info, at: Addr)
    requires CallsKnown(p) && p.find(i.pc).Some?
    ensures UpdateTracing(p, w, i, at).Some?
  {
    hide SetSeq, MarkCalls, Leave;
  }

  // ----- over runs

  lemma RunPrefix(p: Program, w: World, steps: seq<Step>, k: nat)
    requires k <= |steps| && Run(p, w, steps).Some?
    ensures Run(p, w, steps[..k]).Some? && Run(p, w, steps) == Run(p, Run(p, w, steps[..k]).value, steps[k..])
  {
    assert steps[..k] + steps[k..] == steps;
    RunConcat(p, w, steps[..k], steps[k..]);
  }

  /** Every trap of a run was handled with these effects. */
  lemma EveryTrap(p: Program, level: int, steps: seq<Step>, k: nat)
    requires WellFormed(p) && Run(p, Initial(level), steps).Some? && k < |steps| && steps[k].Trapped?
    ensures Run(p, Initial(level), steps[..k]).Some? && Run(p, Initial(level), steps[..k + 1]).Some?
    ensures Handles(p, Run(p, Initial(level), steps[..k]).value, Run(p, Initial(level), steps[..k + 1]).value,
                    steps[k].trap)
  {
    hide Inv, HandleTrap, Handles, Initial;
    RunPrefix(p, Initial(level), steps, k);
    RunPrefix(p, Initial(level), steps, k + 1);
    RunStep(p, Initial(level), steps, k);
    RunInv(p, level, steps[..k], None);
    TrapHandles(p, Run(p, Initial(level), steps[..k]).value, steps[k].trap);
  }

  lemma PassesFacts(p: Program, w: World, w': World, i: Info, at: Addr)
    requires Passes(p, w, w', i, at)
    ensures w'.log == w.log && w'.level == w.level && (forall h :: Of(w', h).stack == Of(w, h).stack)
    ensures w'.tracing == (if at in w.starts then w.tracing + multiset{i.id} else w.tracing)
                          - (if at in w.ends then multiset{i.id} else multiset{})
    ensures w.hints.Keys <= w'.hints.Keys
  {
    hide Settled, Forgotten;
  }

  lemma ReturnsFacts(p: Program, w: World, w': World, i: Info)
    requires Returns(p, w, w', i)
    ensures var st, kept := Of(w, i.id).stack, Survivors(p, Of(w, i.id).stack, i.pc, i.used);
            && |kept| < |st| && Of(w', i.id).stack == kept && w.log <= w'.log && w'.level == w.level
            && (|kept| + 1 <= w.level && p.printable(st[|kept|].func.name) ==>
                  w'.log == w.log + [Line(i.id, |kept| + 1, false, st[|kept|].func.name)])
    ensures w.hints.Keys <= w'.hints.Keys
  {
    hide Settled, Survivors, Due;
  }

  lemma CallsFacts(p: Program, w: World, w': World, i: Info, ret: Addr)
    requires CallsInto(p, w, w', i, ret)
    ensures w.log <= w'.log && w.hints.Keys <= w'.hints.Keys
  {
    hide Settled, Survivors, Due;
  }

  lemma FollowsFacts(p: Program, w: World, w': World, t: Trap)
    requires t.User? && Follows(p, w, w', t)
    ensures w.log <= w'.log && w.hints.Keys <= w'.hints.Keys
    ensures Wrap(t.info.pc - 1) !in w'.hints ==> w' == w
  {
    hide Settled, Survivors, Due, Passes, CallsInto;
    if Wrap(t.info.pc - 1) in w.hints {
      if w.hints[Wrap(t.info.pc - 1)].DeferredFunc? {
        var w1, w2 :| && (if t.info.panicking && t.info.handler.Some?
                          then Drops(p, w, w1, t.info.id, t.info.pc, t.info.handler.value) else w1 == w)
                      && CallsInto(p, w1, w2, t.info, t.ret) && w'.log == w2.log && w'.hints == w2.hints;
        CallsFacts(p, w1, w2, t.info, t.ret);
      } else {
        var w1 :| && Passes(p, w, w1, t.after, t.after.pc)
                  && if t.after.id in w1.tracing then CallsInto(p, w1, w', t.after, t.ret) else w' == w1;
        PassesFacts(p, w, w1, t.after, t.after.pc);
        if t.after.id in w1.tracing {
          CallsFacts(p, w1, w', t.after, t.ret);
        }
      }
    }
  }

  lemma TrapLogs(p: Program, w: World, w': World, t: Trap)
    requires Handles(p, w, w', t)
    ensures w.log <= w'.log
  {
    hide Passes, Returns, Follows;
    if t.User? && Noticed(w, t.info) {
      var i := t.info;
      var w1 :| Passes(p, w, w1, i, Wrap(i.pc - 1)) && GoesOn(p, w1, w', t);
      PassesFacts(p, w, w1, i, Wrap(i.pc - 1));
      if i.id in w1.tracing {
        var w2 :| MayReturn(p, w1, w2, i) && Follows(p, w2, w', t);
        if TopSize(Of(w1, i.id).stack) > i.used {
          ReturnsFacts(p, w1, w2, i);
        }
        FollowsFacts(p, w2, w', t);
      }
    }
  }

  lemma {:induction false} RunLogs(p: Program, level: int, steps: seq<Step>, k: nat)
    requires WellFormed(p) && Run(p, Initial(level), steps).Some? && k <= |steps|
    ensures Run(p, Initial(level), steps[..k]).Some?
    ensures Run(p, Initial(level), steps[..k]).value.log <= Run(p, Initial(level), steps).value.log
    decreases |steps|
  {
    hide Handles, HandleTrap, Initial, AddStart, AddEnd;
    var n := |steps| - 1;
    if k == |steps| {
      assert steps[..k] == steps;
    } else {
      assert steps[..n][..k] == steps[..k] && steps[..n + 1] == steps;
      RunLogs(p, level, steps[..n], k);
      if steps[n].Trapped? {
        EveryTrap(p, level, steps, n);
        TrapLogs(p, Run(p, Initial(level), steps[..n]).value, Run(p, Initial(level), steps).value, steps[n].trap);
      } else {
        RunStep(p, Initial(level), steps, n);
        PointLogs(p, Run(p, Initial(level), steps[..n]).value, steps[n]);
      }
    }
  }

  /** A new trace point stops every goroutine from then on, and changes nothing else. */
  ghost predicate Adds(w: World, w': World, s: Step)
    requires !s.Trapped?
  {
    var a := s.addr;
    && w'.starts == (if s.NewStart? then w.starts + {a} else w.starts)
    && w'.ends == (if s.NewEnd? then w.ends + {a} else w.ends)
    && (forall x :: IsAlways(w'.bps, x) <==> x == a || IsAlways(w.bps, x))
    && (forall x, g :: x != a ==> Assoc(w'.bps, x, g) == Assoc(w.bps, x, g))
    && w'.level == w.level && w'.hints == w.hints && w'.tracing == w.tracing
    && w'.shadows == w.shadows && w'.log == w.log
  }

  lemma PointAdds(p: Program, w: World, s: Step)
    requires !s.Trapped? && NoLeak(w)
    ensures Next(p, w, s).Some? && Adds(w, Next(p, w, s).value, s)
  {
    if s.NewStart? && s.addr in w.starts {
      assert w.starts + {s.addr} == w.starts;
    }
    if s.NewEnd? && s.addr in w.ends {
      assert w.ends + {s.addr} == w.ends;
    }
  }

  /** Every new trace point of a run was added so. */
  lemma EveryPoint(p: Program, level: int, steps: seq<Step>, k: nat)
    requires WellFormed(p) && Run(p, Initial(level), steps).Some? && k < |steps| && !steps[k].Trapped?
    ensures Run(p, Initial(level), steps[..k]).Some? && Run(p, Initial(level), steps[..k + 1]).Some?
    ensures Adds(Run(p, Initial(level), steps[..k]).value, Run(p, Initial(level), steps[..k + 1]).value, steps[k])
  {
    hide StacksOk, HandleTrap, Adds, Initial;
    RunPrefix(p, Initial(level), steps, k);
    RunPrefix(p, Initial(level), steps, k + 1);
    RunStep(p, Initial(level), steps, k);
    RunInv(p, level, steps[..k], None);
    PointAdds(p, Run(p, Initial(level), steps[..k]).value, steps[k]);
  }

  lemma PointLogs(p: Program, w: World, s: Step)
    requires !s.Trapped?
    ensures Next(p, w, s).Some? && Next(p, w, s).value.log == w.log
  {
  }

  lemma {:induction false} SurvivorsStay(p: Program, st: seq<Frame>, pc: Addr, used: nat)
    ensures forall i :: 0 <= i < |Survivors(p, st, pc, used)| ==>
                          Stays(p, Survivors(p, st, pc, used)[i], pc, used) && Survivors(p, st, pc, used)[i] in st
    ensures forall fr :: fr in st && Stays(p, fr, pc, used) ==> fr in Survivors(p, st, pc, used)
  {
    hide Stays;
    if st != [] {
      SurvivorsStay(p, st[1..], pc, used);
    }
  }

  /** Main result: a goroutine that stays traced is stopped with less stack in use than its top frame had. Then the
      frames that stay are those that are not dead, none of them larger, and the lowest of the others is printed when
      its depth is within the trace level: the line stays in its place of the log for the rest of the run. */
  lemma ReturnIsLogged(p: Program, level: int, steps: seq<Step>, k: nat, t: Trap, w: World, w': World)
    requires WellFormed(p) && Run(p, Initial(level), steps).Some? && k < |steps| && steps[k] == Trapped(t)
    requires Run(p, Initial(level), steps[..k]) == Some(w) && Run(p, Initial(level), steps[..k + 1]) == Some(w')
    requires t.User? && Noticed(w, t.info) && TopSize(Of(w, t.info.id).stack) > t.info.used
    requires var at := Wrap(t.info.pc - 1);
             t.info.id in (if at in w.starts then w.tracing + multiset{t.info.id} else w.tracing)
                          - (if at in w.ends then multiset{t.info.id} else multiset{})
    ensures var i, st, log := t.info, Of(w, t.info.id).stack, Run(p, Initial(level), steps).value.log;
            var kept := Survivors(p, st, i.pc, i.used);
            && |kept| < |st| && (forall fr :: fr in kept ==> fr.size <= i.used && fr in st)
            && (forall fr :: fr in st && fr.size < i.used ==> fr in kept)
            && (Wrap(i.pc - 1) !in w'.hints ==> Of(w', i.id).stack == kept)
            && (|kept| + 1 <= w.level && p.printable(st[|kept|].func.name) ==>
                  |w.log| < |log| && log[|w.log|] == Line(i.id, |kept| + 1, false, st[|kept|].func.name))
  {
    hide Handles, Survivors, Run, Initial;
    EveryTrap(p, level, steps, k);
    RunLogs(p, level, steps, k + 1);
    SurvivorsStay(p, Of(w, t.info.id).stack, t.info.pc, t.info.used);
    ReturnSeen(p, w, w', t);
  }

  lemma ReturnSeen(p: Program, w: World, w': World, t: Trap)
    requires Handles(p, w, w', t) && t.User? && Noticed(w, t.info) && TopSize(Of(w, t.info.id).stack) > t.info.used
    requires var at := Wrap(t.info.pc - 1);
             t.info.id in (if at in w.starts then w.tracing + multiset{t.info.id} else w.tracing)
                          - (if at in w.ends then multiset{t.info.id} else multiset{})
    ensures var i, st := t.info, Of(w, t.info.id).stack;
            var kept := Survivors(p, st, i.pc, i.used);
            && |kept| < |st| && (Wrap(i.pc - 1) !in w'.hints ==> Of(w', i.id).stack == kept)
            && (|kept| + 1 <= w.level && p.printable(st[|kept|].func.name) ==>
                  w.log + [Line(i.id, |kept| + 1, false, st[|kept|].func.name)] <= w'.log)
  {
    hide Passes, Returns, Follows, Survivors;
    var i := t.info;
    var w1 :| Passes(p, w, w1, i, Wrap(i.pc - 1)) && GoesOn(p, w1, w', t);
    PassesFacts(p, w, w1, i, Wrap(i.pc - 1));
    var w2 :| MayReturn(p, w1, w2, i) && Follows(p, w2, w', t);
    ReturnsFacts(p, w1, w2, i);
    FollowsFacts(p, w2, w', t);
  }

  /** Entering a deferred function, its stack and its line. */
  lemma DeferredFacts(p: Program, w: World, w': World, i: Info, ret: Addr)
    requires EntersDeferred(p, w, w', i, ret)
    ensures p.find(i.pc).Some?
    ensures var st, f := Of(w, i.id).stack, p.find(i.pc).value;
            var live := if i.panicking && i.handler.Some? then Survivors(p, st, i.pc, i.handler.value) else st;
            var kept := Survivors(p, live, i.pc, i.used);
            && Of(w', i.id).stack == kept + [Frame(f, ret, i.used, |kept| + 1 < w.level)]
            && w'.log == w.log + if |kept| + 1 <= w.level && p.printable(f.name)
                                 then [Line(i.id, |kept| + 1, true, f.name)] else []
  {
    hide Settled, Survivors, Due, Marked;
  }

  /** Main result: a goroutine that panics enters a deferred function. The frames below it all pass the filter for
      the stack size at which the handler was deferred, and its depth is one more than their number. */
  lemma PanicLeavesNoDeadFrame(p: Program, w: World, w': World, t: Trap)
    requires WellFormed(p) && Inv(p, w, None) && t.User? && HandleTrap(p, w, t) == Some(w') && Noticed(w, t.info)
    requires var at := Wrap(t.info.pc - 1);
             && at !in w.starts && at in w.hints && w.hints[at].DeferredFunc?
             && t.info.id in w.tracing - (if at in w.ends then multiset{t.info.id} else multiset{})
    requires t.info.panicking && t.info.handler.Some?
    ensures p.find(t.info.pc).Some?
    ensures var i, st, f := t.info, Of(w, t.info.id).stack, p.find(t.info.pc).value;
            var live := if TopSize(st) > i.used then Survivors(p, st, i.pc, i.used) else st;
            var kept := Survivors(p, Survivors(p, live, i.pc, i.handler.value), i.pc, i.used);
            && Of(w', i.id).stack == kept + [Frame(f, t.ret, i.used, |kept| + 1 < w.level)]
            && (forall fr :: fr in kept ==> Stays(p, fr, i.pc, i.handler.value) && Stays(p, fr, i.pc, i.used))
            && (|kept| + 1 <= w.level && p.printable(f.name) ==>
                  w'.log != [] && w'.log[|w'.log| - 1] == Line(i.id, |kept| + 1, true, f.name))
  {
    hide HandleTrap, Inv, Handles, Survivors, EntersDeferred, Stays;
    TrapHandles(p, w, t);
    var i := t.info;
    var w1 := ReachesDeferred(p, w, w', t);
    DeferredFacts(p, w1, w', i, t.ret);
    var st := Of(w1, i.id).stack;
    SurvivorsStay(p, st, i.pc, i.handler.value);
    SurvivorsStay(p, Survivors(p, st, i.pc, i.handler.value), i.pc, i.used);
  }

  lemma ReachesDeferred(p: Program, w: World, w': World, t: Trap) returns (w2: World)
    requires t.User? && Handles(p, w, w', t) && Noticed(w, t.info)
    requires var at := Wrap(t.info.pc - 1);
             && at !in w.starts && at in w.hints && w.hints[at].DeferredFunc?
             && t.info.id in w.tracing - (if at in w.ends then multiset{t.info.id} else multiset{})
    ensures EntersDeferred(p, w2, w', t.info, t.ret) && w2.level == w.level
    ensures var i, st := t.info, Of(w, t.info.id).stack;
            Of(w2, i.id).stack == if TopSize(st) > i.used then Survivors(p, st, i.pc, i.used) else st
  {
    hide Passes, Survivors, EntersDeferred, GoesOn, Follows, MayReturn, Of, TopSize;
    var i, at := t.info, Wrap(t.info.pc - 1);
    var w1 :| Passes(p, w, w1, i, at) && GoesOn(p, w1, w', t);
    PassesFacts(p, w, w1, i, at);
    SameHints(p, w, w1, i, at);
    w2 := Continued(p, w1, w', t);
  }

  lemma Continued(p: Program, w: World, w': World, t: Trap) returns (w2: World)
    requires t.User? && GoesOn(p, w, w', t) && t.info.id in w.tracing
    requires Wrap(t.info.pc - 1) in w.hints && w.hints[Wrap(t.info.pc - 1)].DeferredFunc?
    ensures EntersDeferred(p, w2, w', t.info, t.ret) && w2.level == w.level
    ensures var i, st := t.info, Of(w, t.info.id).stack;
            Of(w2, i.id).stack == if TopSize(st) > i.used then Survivors(p, st, i.pc, i.used) else st
  {
    hide Passes, Returns, Survivors, EntersDeferred, CallsInto;
    var i, at := t.info, Wrap(t.info.pc - 1);
    w2 :| MayReturn(p, w, w2, i) && Follows(p, w2, w', t);
    if TopSize(Of(w, i.id).stack) > i.used {
      ReturnsFacts(p, w, w2, i);
      HintStays(p, w, w2, i, at);
    }
  }

  lemma SameHints(p: Program, w: World, w1: World, i: Info, at: Addr)
    requires Passes(p, w, w1, i, at) && at !in w.starts
    ensures w1.hints == w.hints
  {
    hide Settled, Forgotten;
    MarkedIs(w.hints, []);
  }

  lemma HintStays(p: Program, w: World, w': World, i: Info, at: Addr)
    requires Returns(p, w, w', i) && at in w.hints && w.hints[at].DeferredFunc?
    ensures at in w'.hints && w'.hints[at].DeferredFunc?
  {
    hide Settled, Survivors, Due;
  }
}
