/** Unwinding a shadow stack refines a filter, and what a session that ended too early leaves behind. */
module Unwinding {
  import opened Base
  import opened BreakpointTable
  import opened TraceModel
  import opened Accounting

  /** A frame survives when it is below the current stack pointer, or on it in the current function. */
  predicate Stays(p: Program, fr: Frame, pc: Addr, used: nat) {
    || fr.size < used
    || (fr.size == used && p.find(pc).Some? && fr.func.name == p.find(pc).value.name)
  }

  function Survivors(p: Program, st: seq<Frame>, pc: Addr, used: nat): seq<Frame> {
    if st == [] then []
    else if Stays(p, st[0], pc, used) then [st[0]] + Survivors(p, st[1..], pc, used)
    else Survivors(p, st[1..], pc, used)
  }

  lemma {:induction false} AllSurvive(p: Program, st: seq<Frame>, n: nat, pc: Addr, used: nat)
    requires n <= |st|
    requires forall i :: 0 <= i < |st| ==> (Stays(p, st[i], pc, used) <==> i < n)
    ensures Survivors(p, st, pc, used) == st[..n]
  {
    if st != [] {
      var m := if n == 0 then 0 else n - 1;
      forall i | 0 <= i < |st[1..]|
        ensures Stays(p, st[1..][i], pc, used) <==> i < m
      {
        assert st[1..][i] == st[i + 1];
      }
      AllSurvive(p, st[1..], m, pc, used);
      if n > 0 {
        assert st[..n] == [st[0]] + st[1..][..m];
      }
    }
  }

  /** The backward loop stops at the first frame that stays, and in an ordered stack everything below
      stays as well and everything above goes. */
  lemma {:induction false} KeepLenSplits(p: Program, st: seq<Frame>, pc: Addr, used: nat)
    requires Ordered(st)
    ensures var n := KeepLen(p, st, pc, used);
            n.Some? ==> forall i :: 0 <= i < |st| ==> (Stays(p, st[i], pc, used) <==> i < n.value)
    ensures KeepLen(p, st, pc, used).None? <==>
              p.find(pc).None? && exists i :: 0 <= i < |st| && st[i].size == used
  {
    if st != [] {
      var k := |st| - 1;
      var top, rest := st[k], st[..k];
      KeepLenSplits(p, rest, pc, used);
      assert forall i :: 0 <= i < k ==> rest[i] == st[i];
      if top.size == used && p.find(pc).None? {
        assert st[k].size == used;
      } else if top.size < used || Stays(p, top, pc, used) {
        assert forall i :: 0 <= i < k ==> st[i].size <= top.size;
      }
    }
  }

  /** Main result: in every reachable state, unwinding keeps exactly the frames that pass the filter, in
      order, drops the others, and fails only when it needs a function that is not known. */
  lemma UnwindIsFilter(p: Program, level: int, steps: seq<Step>, g: Gid, pc: Addr, used: nat)
    requires WellFormed(p) && Run(p, Initial(level), steps).Some?
    ensures var w := Run(p, Initial(level), steps).value;
            var st := Of(w, g).stack;
            && (Unwind(p, w, g, pc, used).Some? ==>
                  Of(Unwind(p, w, g, pc, used).value, g).stack == Survivors(p, st, pc, used))
            && (Unwind(p, w, g, pc, used).None? <==>
                  p.find(pc).None? && exists i :: 0 <= i < |st| && st[i].size == used)
  {
    hide Next, Initial, Inv, ShadowOk;
    RunInv(p, level, steps, None);
    var w := Run(p, Initial(level), steps).value;
    Mine(p, w, g, None);
    UnwindSplits(p, w, g, pc, used);
  }

  lemma UnwindSplits(p: Program, w: World, g: Gid, pc: Addr, used: nat)
    requires ShadowOk(p, Of(w, g))
    ensures var st := Of(w, g).stack;
            && (Unwind(p, w, g, pc, used).Some? ==>
                  Of(Unwind(p, w, g, pc, used).value, g).stack == Survivors(p, st, pc, used))
            && (Unwind(p, w, g, pc, used).None? <==>
                  p.find(pc).None? && exists i :: 0 <= i < |st| && st[i].size == used)
  {
    hide Due, Ordered;
    var st := Of(w, g).stack;
    OrderedStack(p, Of(w, g));
    KeepLenSplits(p, st, pc, used);
    var n := KeepLen(p, st, pc, used);
    if n.Some? {
      AllSurvive(p, st, n.value, pc, used);
      FramesClearable(p, w.bps, st[n.value..], g);
    }
  }

  lemma OrderedStack(p: Program, sh: Shadow)
    requires ShadowOk(p, sh)
    ensures Ordered(sh.stack)
  {
  }

  lemma {:induction false} FramesClearable(p: Program, b: Table, st: seq<Frame>, g: Gid)
    requires forall i :: 0 <= i < |st| ==> FrameOk(p, st[i])
    ensures ClearFrames(p, b, st, g).Some?
    decreases |st|
  {
    if st != [] {
      assert FrameOk(p, st[|st| - 1]);
      FramesClearable(p, ClearSeq(b, FrameAddrs(p, st[|st| - 1]).value, g), st[..|st| - 1], g);
    }
  }

  /** After a return at least one frame goes, so the function that returned can be named. */
  lemma ReturnDropsAFrame(p: Program, w: World, g: Gid, pc: Addr, used: nat)
    requires TopSize(Of(w, g).stack) > used
    requires Unwind(p, w, g, pc, used).Some?
    ensures |Of(Unwind(p, w, g, pc, used).value, g).stack| < |Of(w, g).stack|
  {
    hide ClearFrames, Due;
    var st := Of(w, g).stack;
    assert KeepLen(p, st, pc, used) == KeepLen(p, st[..|st| - 1], pc, used);
  }

  // ----- leftover frames

  /** Counting every frame on the shadow stack is right at an address exactly when no leftover frame
      needs it. */
  lemma ExactlyWithoutLeftovers(p: Program, level: int, steps: seq<Step>, d: iset<Addr>, g: Gid, a: Addr)
    requires WellFormed(p) && NoCallsIn(p, Some(d)) && StepsOk(steps, Some(d))
    requires Run(p, Initial(level), steps).Some?
    requires !IsAlways(Run(p, Initial(level), steps).value.bps, a)
    ensures var w := Run(p, Initial(level), steps).value;
            var sh := Of(w, g);
            && sh.base <= |sh.stack|
            && (Assoc(w.bps, a, g) == Due(p, sh.stack)[a] + sh.owed[a] <==> Due(p, sh.stack[..sh.base])[a] == 0)
  {
    hide Next, Initial;
    Conservation(p, level, steps, d, g, a);
    var sh := Of(Run(p, Initial(level), steps).value, g);
    DueConcat(p, sh.stack, sh.stack[..sh.base], sh.stack[sh.base..]);
  }

  // ----- a session that starts on an empty stack

  lemma UnwindBase(p: Program, w: World, g: Gid, pc: Addr, used: nat, h: Gid)
    requires Unwind(p, w, g, pc, used).Some? && Of(w, h).base == 0
    ensures Of(Unwind(p, w, g, pc, used).value, h).base == 0
    ensures Unwind(p, w, g, pc, used).value.tracing == w.tracing
  {
    hide ClearFrames, Due;
  }

  lemma AtCallBase(p: Program, w: World, i: Info, ret: Addr, h: Gid)
    requires AtCall(p, w, i, ret).Some? && Of(w, h).base == 0
    ensures Of(AtCall(p, w, i, ret).value, h).base == 0 && AtCall(p, w, i, ret).value.tracing == w.tracing
  {
    hide Unwind, SetSeq, MarkCalls, FrameAddrs;
    UnwindBase(p, w, i.id, i.pc, i.used, h);
  }

  /** Passing trace points leaves frames behind only where it ends a session. */
  lemma UpdateTracingBase(p: Program, w: World, i: Info, at: Addr, h: Gid)
    requires UpdateTracing(p, w, i, at).Some? && Of(w, h).base == 0
    ensures var w' := UpdateTracing(p, w, i, at).value;
            Of(w', h).base == 0 || (h == i.id && h !in w'.tracing)
  {
    hide CallsAt, SetSeq, MarkCalls, ClearAllFor;
  }

  lemma AfterReturnBase(p: Program, w: World, i: Info, h: Gid)
    requires AfterReturn(p, w, i).Some? && Of(w, h).base == 0
    ensures Of(AfterReturn(p, w, i).value, h).base == 0 && AfterReturn(p, w, i).value.tracing == w.tracing
  {
    hide Unwind, SetFor;
    UnwindBase(p, w, i.id, i.pc, i.used, h);
  }

  lemma BeforeCallBase(p: Program, w: World, after: Info, ret: Addr, h: Gid)
    requires BeforeCall(p, w, after, ret).Some? && Of(w, h).base == 0
    ensures var w' := BeforeCall(p, w, after, ret).value;
            h in w'.tracing ==> Of(w', h).base == 0
  {
    hide UpdateTracing, AtCall;
    UpdateTracingBase(p, w, after, after.pc, h);
    var w1 := UpdateTracing(p, w, after, after.pc).value;
    if after.id in w1.tracing {
      AtCallBase(p, w1, after, ret, h);
    }
  }

  lemma AtDeferredFuncBase(p: Program, w: World, i: Info, ret: Addr, h: Gid)
    requires AtDeferredFunc(p, w, i, ret).Some? && Of(w, h).base == 0
    ensures Of(AtDeferredFunc(p, w, i, ret).value, h).base == 0
  {
    hide Unwind, AtCall, ClearFor;
    var w1 := w;
    if i.panicking && i.handler.Some? {
      UnwindBase(p, w, i.id, i.pc, i.handler.value, h);
      w1 := Unwind(p, w, i.id, i.pc, i.handler.value).value;
    }
    AtCallBase(p, w1, i, ret, h);
  }

  lemma NextBase(p: Program, w: World, s: Step, h: Gid)
    requires Next(p, w, s).Some? && Of(w, h).base == 0 && h in Next(p, w, s).value.tracing
    ensures Of(Next(p, w, s).value, h).base == 0
  {
    hide UpdateTracing, AfterReturn, BeforeCall, AtDeferredFunc, Hit, SetAlways;
    if s.Trapped? && s.trap.User? && s.trap.info.id != 0 && Hit(w.bps, Wrap(s.trap.info.pc - 1), s.trap.info.id) {
      var i, at := s.trap.info, Wrap(s.trap.info.pc - 1);
      UpdateTracingBase(p, w, i, at, h);
      var w1 := UpdateTracing(p, w, i, at).value;
      if i.id in w1.tracing {
        var w2 := w1;
        if TopSize(Of(w1, i.id).stack) > i.used {
          AfterReturnBase(p, w1, i, h);
          w2 := AfterReturn(p, w1, i).value;
        }
        if at in w2.hints && w2.hints[at].Call? {
          BeforeCallBase(p, w2, s.trap.after, s.trap.ret, h);
        } else if at in w2.hints {
          AtDeferredFuncBase(p, w2, i, s.trap.ret, h);
        }
      }
    }
  }

  /** Goroutine h is traced after each of the steps. */
  ghost predicate TracedThroughout(p: Program, w: World, steps: seq<Step>, h: Gid) {
    forall k :: 0 < k <= |steps| && Run(p, w, steps[..k]).Some? ==> h in Run(p, w, steps[..k]).value.tracing
  }

  lemma {:induction false} RunBase(p: Program, w: World, steps: seq<Step>, h: Gid)
    requires Run(p, w, steps).Some? && Of(w, h).base == 0 && TracedThroughout(p, w, steps, h)
    ensures Of(Run(p, w, steps).value, h).base == 0
  {
    hide Next;
    if steps != [] {
      var n := |steps| - 1;
      var before := steps[..n];
      forall k | 0 < k <= n && Run(p, w, before[..k]).Some?
        ensures h in Run(p, w, before[..k]).value.tracing
      {
        assert before[..k] == steps[..k];
      }
      RunBase(p, w, before, h);
      assert steps[..n + 1] == steps;
      NextBase(p, Run(p, w, before).value, steps[n], h);
    }
  }

  lemma {:induction false} RunConcat(p: Program, w: World, s: seq<Step>, t: seq<Step>)
    requires Run(p, w, s + t).Some?
    ensures Run(p, w, s).Some? && Run(p, w, s + t) == Run(p, Run(p, w, s).value, t)
    decreases |t|
  {
    hide Next;
    if t == [] {
      assert s + t == s;
    } else {
      assert (s + t)[..|s + t| - 1] == s + t[..|t| - 1] && (s + t)[|s + t| - 1] == t[|t| - 1];
      RunConcat(p, w, s, t[..|t| - 1]);
    }
  }

  lemma SessionBase(p: Program, level: int, s: seq<Step>, t: seq<Step>, g: Gid)
    requires WellFormed(p) && Run(p, Initial(level), s + t).Some?
    requires Run(p, Initial(level), s).Some? && Of(Run(p, Initial(level), s).value, g).stack == []
    requires TracedThroughout(p, Run(p, Initial(level), s).value, t, g)
    ensures Of(Run(p, Initial(level), s + t).value, g).base == 0
  {
    hide Next, Inv, TracedThroughout;
    RunInv(p, level, s, None);
    var w := Run(p, Initial(level), s).value;
    Mine(p, w, g, None);
    RunConcat(p, Initial(level), s, t);
    RunBase(p, w, t, g);
  }

  /** A session that starts on an empty shadow stack has no leftover frames as long as it lasts: every frame
      of the stack, and not only those above some base, has its return address watched. */
  lemma WholeStackIsWatched(p: Program, level: int, s: seq<Step>, t: seq<Step>, d: iset<Addr>, g: Gid, i: nat)
    requires WellFormed(p) && NoCallsIn(p, Some(d)) && StepsOk(s + t, Some(d))
    requires Run(p, Initial(level), s + t).Some?
    requires Run(p, Initial(level), s).Some? && Of(Run(p, Initial(level), s).value, g).stack == []
    requires TracedThroughout(p, Run(p, Initial(level), s).value, t, g)
    requires i < |Of(Run(p, Initial(level), s + t).value, g).stack|
    ensures var w := Run(p, Initial(level), s + t).value;
            Of(w, g).base == 0 && Hit(w.bps, Of(w, g).stack[i].ret, g)
  {
    hide Next, Inv, TracedThroughout;
    SessionBase(p, level, s, t, g);
    ReturnsAreWatched(p, level, s + t, d, g, i);
  }

  /** And every frame counts, as long as the session lasts. */
  lemma WholeStackIsCounted(p: Program, level: int, s: seq<Step>, t: seq<Step>, d: iset<Addr>, g: Gid, a: Addr)
    requires WellFormed(p) && NoCallsIn(p, Some(d)) && StepsOk(s + t, Some(d))
    requires Run(p, Initial(level), s + t).Some?
    requires Run(p, Initial(level), s).Some? && Of(Run(p, Initial(level), s).value, g).stack == []
    requires TracedThroughout(p, Run(p, Initial(level), s).value, t, g)
    ensures var w := Run(p, Initial(level), s + t).value;
            !IsAlways(w.bps, a) ==> Assoc(w.bps, a, g) == Due(p, Of(w, g).stack)[a] + Of(w, g).owed[a]
  {
    hide Next, Inv, TracedThroughout;
    SessionBase(p, level, s, t, g);
    Conservation(p, level, s + t, d, g, a);
    var st := Of(Run(p, Initial(level), s + t).value, g).stack;
    assert st[0..] == st;
  }

  const CALLER := Func("main.f", 0x100, 0x180)
  const CALLEE := Func("main.g", 0x200, 0x280)

  function Lookup(pc: Addr): Option<Func> {
    if 0x100 <= pc < 0x180 then Some(CALLER)
    else if 0x200 <= pc < 0x280 then Some(CALLEE)
    else None
  }

  function CallList(f: Func): Option<seq<Addr>> {
    if f == CALLER then Some([0x110]) else Some([])
  }

  const EXAMPLE := Program(Lookup, CallList, name => true)

  function At(pc: Addr, used: nat): Info {
    Info(1, used, pc, 0, false, None, 6)
  }

  /** Goroutine 1 starts at main.f, calls main.g, leaves through the end point inside main.g and starts
      again in a deeper call of main.f. */
  const LEFTOVER_RUN: seq<Step> := [
    NewStart(0x100), NewEnd(0x210),
    Trapped(User(At(0x101, 10), At(0, 0), 0)),
    Trapped(User(At(0x111, 10), At(0x200, 18), 0x115)),
    Trapped(User(At(0x211, 30), At(0, 0), 0)),
    Trapped(User(At(0x101, 50), At(0, 0), 0))]

  lemma {:induction false} RunStep(p: Program, w: World, steps: seq<Step>, k: nat)
    requires k < |steps|
    ensures Run(p, w, steps[..k + 1])
            == if Run(p, w, steps[..k]).None? then None else Next(p, Run(p, w, steps[..k]).value, steps[k])
  {
    assert steps[..k + 1][..k] == steps[..k];
  }

  const ENTERED := World(1, map[1 := Shadow([], 0, multiset{0x110})],
                         map[0x100 := Always, 0x210 := Always, 0x110 := OnlyFor(multiset{1})],
                         {0x100}, {0x210}, multiset{1}, map[0x110 := Call], [])

  const INSIDE := World(1, map[1 := Shadow([Frame(CALLEE, 0x115, 18, false)], 0, multiset{0x110})],
                        map[0x100 := Always, 0x210 := Always, 0x110 := OnlyFor(multiset{1}),
                            0x115 := OnlyFor(multiset{1})],
                        {0x100}, {0x210}, multiset{1}, map[0x110 := Call], [Line(1, 1, true, "main.g")])

  const OUTSIDE := World(1, map[1 := Shadow([Frame(CALLEE, 0x115, 18, false)], 1, multiset{})],
                         map[0x100 := Always, 0x210 := Always],
                         {0x100}, {0x210}, multiset{}, map[0x110 := Call], [Line(1, 1, true, "main.g")])

  lemma FirstEntry()
    ensures var w := AddEnd(AddStart(Initial(1), 0x100), 0x210);
            HandleTrap(EXAMPLE, w, LEFTOVER_RUN[2].trap) == Some(ENTERED)
  {
    var w := AddEnd(AddStart(Initial(1), 0x100), 0x210);
    assert w == World(1, map[], map[0x100 := Always, 0x210 := Always], {0x100}, {0x210}, multiset{}, map[], []);
    assert SetSeq(w.bps, [0x110], 1) == ENTERED.bps;
    assert MarkCalls(w.hints, [0x110]) == ENTERED.hints;
    assert CallsAt(EXAMPLE, 0x101) == Some([0x110]);
    assert multiset{} + multiset([0x110]) == multiset{0x110};
    assert multiset{} + multiset{1} == multiset{1};
    assert Enter(EXAMPLE, w, 1, 0x101) == Some(ENTERED);
  }

  lemma PushInside()
    ensures Unwind(EXAMPLE, ENTERED, 1, 0x200, 18) == Some(ENTERED)
    ensures Push(EXAMPLE, ENTERED, 1, Frame(CALLEE, 0x115, 18, false)) == Some(INSIDE.(log := []))
  {
    var fr := Frame(CALLEE, 0x115, 18, false);
    var sh := Of(ENTERED, 1);
    assert sh.stack[0..] == [] && sh.stack[..0] == [];
    assert ENTERED.shadows[1 := sh] == ENTERED.shadows;
    assert SetSeq(ENTERED.bps, [0x115], 1) == INSIDE.bps;
    assert [] + [fr] == [fr] && [0x115][1..] == [];
    assert MarkCalls(ENTERED.hints, []) == ENTERED.hints;
    assert ENTERED.shadows[1 := sh.(stack := [fr])] == INSIDE.shadows;
  }

  lemma AtCallInside()
    ensures AtCall(EXAMPLE, ENTERED, At(0x200, 18), 0x115) == Some(INSIDE)
  {
    hide Unwind, Push;
    PushInside();
    assert Of(ENTERED, 1).stack == [];
    assert [] + [Line(1, 1, true, "main.g")] == INSIDE.log;
    assert EXAMPLE.find(0x200) == Some(CALLEE);
  }

  lemma HitInside()
    ensures UpdateTracing(EXAMPLE, ENTERED, At(0x111, 10), 0x110) == Some(ENTERED)
    ensures Hit(ENTERED.bps, 0x110, 1) && 1 in ENTERED.tracing
    ensures UpdateTracing(EXAMPLE, ENTERED, At(0x200, 18), 0x200) == Some(ENTERED)
  {
  }

  lemma CallInside()
    ensures HandleTrap(EXAMPLE, ENTERED, LEFTOVER_RUN[3].trap) == Some(INSIDE)
  {
    hide AtCall, UpdateTracing, AfterReturn, AtDeferredFunc, Hit;
    HitInside();
    AtCallInside();
    assert Wrap(At(0x111, 10).pc - 1) == 0x110;
    assert Of(ENTERED, 1).stack == [] && ENTERED.hints[0x110].Call?;
    assert BeforeCall(EXAMPLE, ENTERED, At(0x200, 18), 0x115) == Some(INSIDE);
  }

  lemma NobodyLeft()
    ensures ClearAllFor(INSIDE.bps, 1) == OUTSIDE.bps
  {
    assert multiset{1}[1 := 0] == multiset{};
    assert !Keeps(OnlyFor(multiset{1}), 1);
  }

  lemma ExitInside()
    ensures HandleTrap(EXAMPLE, INSIDE, LEFTOVER_RUN[4].trap) == Some(OUTSIDE)
  {
    hide ClearAllFor;
    NobodyLeft();
    assert multiset{1} - multiset{1} == multiset{};
    assert INSIDE.shadows[1 := OUTSIDE.shadows[1]] == OUTSIDE.shadows;
    assert Leave(INSIDE, 1) == OUTSIDE;
  }

  lemma SecondEntry()
    ensures HandleTrap(EXAMPLE, OUTSIDE, LEFTOVER_RUN[5].trap)
            == Some(OUTSIDE.(shadows := map[1 := Shadow([Frame(CALLEE, 0x115, 18, false)], 1, multiset{0x110})],
                             bps := ENTERED.bps, tracing := multiset{1}))
  {
    assert SetSeq(OUTSIDE.bps, [0x110], 1) == ENTERED.bps;
    assert MarkCalls(OUTSIDE.hints, [0x110]) == OUTSIDE.hints;
    assert CallsAt(EXAMPLE, 0x101) == Some([0x110]);
    assert multiset{} + multiset([0x110]) == multiset{0x110};
    assert multiset{} + multiset{1} == multiset{1};
    var sh := Shadow([Frame(CALLEE, 0x115, 18, false)], 1, multiset{0x110});
    assert OUTSIDE.shadows[1 := sh] == map[1 := sh];
  }

  /** With a leftover frame the plain statement fails: goroutine 1 is traced again, the call to main.g is
      still on its shadow stack, and nothing is patched at the address it returns to. */
  lemma LeftoverFrameIsNotWatched()
    ensures WellFormed(EXAMPLE)
    ensures var w := Run(EXAMPLE, Initial(1), LEFTOVER_RUN);
            && w.Some?
            && 1 in w.value.tracing
            && Of(w.value, 1).stack == [Frame(CALLEE, 0x115, 18, false)]
            && 0x115 !in w.value.bps
  {
    hide HandleTrap;
    var p, w0, steps := EXAMPLE, Initial(1), LEFTOVER_RUN;
    assert steps[..0] == [] && steps[..6] == steps;
    RunStep(p, w0, steps, 0);
    RunStep(p, w0, steps, 1);
    RunStep(p, w0, steps, 2);
    RunStep(p, w0, steps, 3);
    RunStep(p, w0, steps, 4);
    RunStep(p, w0, steps, 5);
    FirstEntry();
    CallInside();
    ExitInside();
    SecondEntry();
  }
}
