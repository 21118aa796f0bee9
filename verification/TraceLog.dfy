/** The trace log is well nested for every goroutine, whatever is dropped silently on the way. */
module TraceLog {
  import opened Base
  import opened BreakpointTable
  import opened TraceModel
  import opened Accounting

  // ----- what a good log is, independently of how it is produced

  /** Line j is the "\" that line k, a "/", closes: same goroutine, depth and function, and everything
      that goroutine printed in between is deeper. */
  ghost predicate Closes(log: seq<Line>, j: nat, k: nat) {
    && j < k < |log|
    && !log[k].entering
    && log[j] == log[k].(entering := true)
    && forall m :: j < m < k && log[m].g == log[k].g ==> log[m].depth > log[k].depth
  }

  ghost predicate WellNested(log: seq<Line>) {
    forall k: nat :: k < |log| && !log[k].entering ==> exists j: nat :: Closes(log, j, k)
  }

  ghost predicate DepthsWithin(log: seq<Line>, level: int) {
    forall k :: 0 <= k < |log| ==> 1 <= log[k].depth <= level
  }

  /** A "\" is closed at most once. */
  lemma ClosedOnce(log: seq<Line>, j: nat, k1: nat, k2: nat)
    requires Closes(log, j, k1) && Closes(log, j, k2)
    ensures k1 == k2
  {
  }

  /** A "/" closes only one "\". */
  lemma ClosesOne(log: seq<Line>, j1: nat, j2: nat, k: nat)
    requires Closes(log, j1, k) && Closes(log, j2, k)
    ensures j1 == j2
  {
  }

  /** Two matching pairs of one goroutine are nested or apart, never crossing. */
  lemma PairsNest(log: seq<Line>, j1: nat, k1: nat, j2: nat, k2: nat)
    requires Closes(log, j1, k1) && Closes(log, j2, k2) && log[k1].g == log[k2].g
    requires j1 < j2
    ensures k1 < j2 || (k2 < k1 && log[k2].depth > log[k1].depth)
  {
    assert j2 < k1 ==> log[j2].depth > log[k1].depth;
  }

  // ----- the invariant

  /** The latest line of g that is not deeper than depth is the "\" of this function at that depth. */
  ghost predicate OpenBy(log: seq<Line>, j: nat, g: Gid, depth: int, name: string) {
    && j < |log|
    && log[j] == Line(g, depth, true, name)
    && forall m :: j < m < |log| && log[m].g == g ==> log[m].depth > depth
  }

  ghost predicate Open(log: seq<Line>, g: Gid, depth: int, name: string) {
    exists j: nat :: OpenBy(log, j, g, depth, name)
  }

  ghost predicate StackOpen(p: Program, level: int, log: seq<Line>, g: Gid, st: seq<Frame>) {
    forall i :: 0 <= i < |st| && i + 1 <= level && p.printable(st[i].func.name) ==>
                  Open(log, g, i + 1, st[i].func.name)
  }

  ghost predicate LogOk(p: Program, w: World, level: int) {
    && w.level == level
    && WellNested(w.log)
    && DepthsWithin(w.log, w.level)
    && forall g :: StackOpen(p, w.level, w.log, g, Of(w, g).stack)
  }

  lemma OpenStays(log: seq<Line>, g: Gid, depth: int, name: string, line: Line)
    requires Open(log, g, depth, name)
    requires line.g != g || line.depth > depth
    ensures Open(log + [line], g, depth, name)
  {
    var j: nat :| OpenBy(log, j, g, depth, name);
    assert OpenBy(log + [line], j, g, depth, name);
  }

  lemma ClosesStays(log: seq<Line>, j: nat, k: nat, line: Line)
    requires Closes(log, j, k)
    ensures Closes(log + [line], j, k)
  {
  }

  /** Appending a "\", or a "/" for a function that is open, keeps the log well nested. */
  lemma NestedStays(log: seq<Line>, line: Line)
    requires WellNested(log)
    requires line.entering || Open(log, line.g, line.depth, line.name)
    ensures WellNested(log + [line])
  {
    var log' := log + [line];
    forall k: nat | k < |log'| && !log'[k].entering
      ensures exists j: nat :: Closes(log', j, k)
    {
      if k < |log| {
        assert log[k] == log'[k];
        var j: nat :| Closes(log, j, k);
        ClosesStays(log, j, k, line);
      } else {
        var j: nat :| OpenBy(log, j, line.g, line.depth, line.name);
        assert Closes(log', j, k);
      }
    }
  }

  lemma StackOpenStays(p: Program, level: int, log: seq<Line>, g: Gid, st: seq<Frame>, line: Line)
    requires StackOpen(p, level, log, g, st)
    requires line.g != g || line.depth > |st|
    ensures StackOpen(p, level, log + [line], g, st)
  {
    forall i | 0 <= i < |st| && i + 1 <= level && p.printable(st[i].func.name)
      ensures Open(log + [line], g, i + 1, st[i].func.name)
    {
      OpenStays(log, g, i + 1, st[i].func.name, line);
    }
  }

  // ----- the building blocks of a trap

  /** Nothing printed, no frame added: whatever is dropped, the log stays right. */
  lemma DropKeeps(p: Program, level: int, w: World, w': World)
    requires LogOk(p, w, level)
    requires w'.log == w.log && w'.level == w.level
    requires forall g :: Of(w', g).stack <= Of(w, g).stack
    ensures LogOk(p, w', level)
  {
    forall g
      ensures StackOpen(p, w'.level, w'.log, g, Of(w', g).stack)
    {
      assert StackOpen(p, w.level, w.log, g, Of(w, g).stack);
    }
  }

  lemma LevelIs(p: Program, level: int, w: World)
    requires LogOk(p, w, level)
    ensures w.level == level
  {
  }

  lemma UnwindLog(p: Program, level: int, w: World, g: Gid, pc: Addr, used: nat)
    requires LogOk(p, w, level) && Unwind(p, w, g, pc, used).Some?
    ensures LogOk(p, Unwind(p, w, g, pc, used).value, level)
  {
    hide ClearFrames, KeepLen, LogOk;
    var w' := Unwind(p, w, g, pc, used).value;
    assert forall h :: h != g ==> Of(w', h) == Of(w, h);
    DropKeeps(p, level, w, w');
  }

  /** A frame is pushed and its "\" printed one deeper than the frames below. */
  lemma CallLog(p: Program, level: int, w: World, g: Gid, fr: Frame)
    requires LogOk(p, w, level) && Push(p, w, g, fr).Some?
    ensures LogOk(p, Print(p, Push(p, w, g, fr).value, g, |Of(w, g).stack| + 1, true, fr.func), level)
  {
    hide FrameAddrs, SetSeq, MarkCalls, WellNested;
    var n := |Of(w, g).stack|;
    var w1 := Push(p, w, g, fr).value;
    var w2 := Print(p, w1, g, n + 1, true, fr.func);
    var line := Line(g, n + 1, true, fr.func.name);
    var printed := n + 1 <= w.level && p.printable(fr.func.name);
    if printed {
      NestedStays(w.log, line);
      assert OpenBy(w.log + [line], |w.log|, g, n + 1, fr.func.name);
    }
    forall h
      ensures StackOpen(p, w2.level, w2.log, h, Of(w2, h).stack)
    {
      assert StackOpen(p, w.level, w.log, h, Of(w, h).stack);
      if printed {
        StackOpenStays(p, w.level, w.log, h, Of(w, h).stack, line);
      }
    }
  }

  lemma AtCallLog(p: Program, level: int, w: World, i: Info, ret: Addr)
    requires LogOk(p, w, level) && AtCall(p, w, i, ret).Some?
    ensures LogOk(p, AtCall(p, w, i, ret).value, level)
  {
    hide LogOk, Unwind, Print, FrameAddrs, SetSeq, MarkCalls;
    UnwindLog(p, level, w, i.id, i.pc, i.used);
    var w1 := Unwind(p, w, i.id, i.pc, i.used).value;
    LevelIs(p, level, w);
    LevelIs(p, level, w1);
    var n := |Of(w1, i.id).stack|;
    CallLog(p, level, w1, i.id, Frame(p.find(i.pc).value, ret, i.used, n + 1 < level));
  }

  lemma EnterStacks(p: Program, w: World, g: Gid, pc: Addr)
    requires Enter(p, w, g, pc).Some?
    ensures var w' := Enter(p, w, g, pc).value;
            (forall h :: Of(w', h).stack == Of(w, h).stack) && w'.log == w.log && w'.level == w.level
  {
  }

  lemma LeaveStacks(w: World, g: Gid)
    ensures var w' := Leave(w, g);
            (forall h :: Of(w', h).stack == Of(w, h).stack) && w'.log == w.log && w'.level == w.level
  {
  }

  lemma UpdateTracingLog(p: Program, level: int, w: World, i: Info, at: Addr)
    requires LogOk(p, w, level) && UpdateTracing(p, w, i, at).Some?
    ensures LogOk(p, UpdateTracing(p, w, i, at).value, level)
  {
    hide LogOk, Enter, Leave;
    var w1 := w;
    if at in w.starts {
      w1 := Enter(p, w, i.id, i.pc).value;
      EnterStacks(p, w, i.id, i.pc);
      DropKeeps(p, level, w, w1);
    }
    if at in w1.ends {
      LeaveStacks(w1, i.id);
      DropKeeps(p, level, w1, Leave(w1, i.id));
    }
  }

  /** Printing "/" for a function that is open one deeper than every frame left. */
  lemma CloseLog(p: Program, level: int, w: World, w': World, g: Gid, name: string)
    requires LogOk(p, w, level)
    requires Open(w.log, g, |Of(w, g).stack| + 1, name) && |Of(w, g).stack| + 1 <= w.level
    requires w'.log == w.log + [Line(g, |Of(w, g).stack| + 1, false, name)] && w'.level == w.level
    requires forall h :: Of(w', h).stack == Of(w, h).stack
    ensures LogOk(p, w', level)
  {
    hide WellNested, StackOpen, Open;
    var line := Line(g, |Of(w, g).stack| + 1, false, name);
    NestedStays(w.log, line);
    forall h
      ensures StackOpen(p, w'.level, w'.log, h, Of(w', h).stack)
    {
      StackOpenStays(p, w.level, w.log, h, Of(w, h).stack, line);
    }
  }

  /** The function that returned is open, so its "/" closes its own "\". */
  lemma AfterReturnLog(p: Program, level: int, w: World, i: Info)
    requires LogOk(p, w, level) && ShadowOk(p, Of(w, i.id)) && AfterReturn(p, w, i).Some?
    ensures LogOk(p, AfterReturn(p, w, i).value, level)
  {
    hide ClearFrames, KeepLen, Cut, LogOk, SetFor, Open;
    LevelIs(p, level, w);
    var before := Of(w, i.id).stack;
    var w1 := Unwind(p, w, i.id, i.pc, i.used).value;
    UnwindLog(p, level, w, i.id, i.pc, i.used);
    var n := |Of(w1, i.id).stack|;
    var w' := AfterReturn(p, w, i).value;
    assert w1.log == w.log && w1.level == w.level;
    assert FrameOk(p, before[n]);
    WatchStacks(w1, i);
    if n + 1 <= level && p.printable(before[n].func.name) {
      ReturnedOpen(p, level, w, i.id, n);
      CloseLog(p, level, w1, w', i.id, before[n].func.name);
    } else {
      DropKeeps(p, level, w1, w');
    }
  }

  lemma WatchStacks(w: World, i: Info)
    ensures forall h :: Of(WatchDeferred(w, i), h).stack == Of(w, h).stack
    ensures WatchDeferred(w, i).log == w.log && WatchDeferred(w, i).level == w.level
  {
  }

  lemma ReturnedOpen(p: Program, level: int, w: World, g: Gid, n: nat)
    requires LogOk(p, w, level) && n < |Of(w, g).stack| && n + 1 <= w.level && p.printable(Of(w, g).stack[n].func.name)
    ensures Open(w.log, g, n + 1, Of(w, g).stack[n].func.name)
  {
    assert StackOpen(p, w.level, w.log, g, Of(w, g).stack);
  }

  lemma AtDeferredFuncLog(p: Program, level: int, w: World, i: Info, ret: Addr)
    requires LogOk(p, w, level) && AtDeferredFunc(p, w, i, ret).Some?
    ensures LogOk(p, AtDeferredFunc(p, w, i, ret).value, level)
  {
    hide LogOk, AtCall, Unwind, ClearFor;
    var w1 := w;
    if i.panicking && i.handler.Some? {
      UnwindLog(p, level, w, i.id, i.pc, i.handler.value);
      w1 := Unwind(p, w, i.id, i.pc, i.handler.value).value;
    }
    AtCallLog(p, level, w1, i, ret);
    DropKeeps(p, level, AtCall(p, w1, i, ret).value, AtDeferredFunc(p, w, i, ret).value);
  }

  lemma HandleTrapLog(p: Program, level: int, w: World, t: Trap)
    requires WellFormed(p) && Inv(p, w, None) && LogOk(p, w, level) && HandleTrap(p, w, t).Some?
    ensures LogOk(p, HandleTrap(p, w, t).value, level)
  {
    hide LogOk, Inv, UpdateTracing, AfterReturn, AtCall, AtDeferredFunc, Hit;
    if t.User? && t.info.id != 0 {
      var i, at := t.info, Wrap(t.info.pc - 1);
      if Hit(w.bps, at, i.id) {
        UpdateTracingLog(p, level, w, i, at);
        UpdateTracingKeeps(p, w, i, at, None);
        var w1 := UpdateTracing(p, w, i, at).value;
        Mine(p, w1, i.id, None);
        if i.id in w1.tracing {
          var w2 := w1;
          if TopSize(Of(w1, i.id).stack) > i.used {
            AfterReturnLog(p, level, w1, i);
            w2 := AfterReturn(p, w1, i).value;
          }
          if at in w2.hints && w2.hints[at].Call? {
            UpdateTracingLog(p, level, w2, t.after, t.after.pc);
            var w3 := UpdateTracing(p, w2, t.after, t.after.pc).value;
            if t.after.id in w3.tracing {
              AtCallLog(p, level, w3, t.after, t.ret);
            }
          } else if at in w2.hints {
            AtDeferredFuncLog(p, level, w2, i, t.ret);
          }
        }
      }
    }
  }

  lemma NextLog(p: Program, level: int, w: World, s: Step)
    requires WellFormed(p) && Inv(p, w, None) && LogOk(p, w, level) && Next(p, w, s).Some?
    ensures LogOk(p, Next(p, w, s).value, level)
  {
    hide LogOk, Inv, HandleTrap;
    match s {
      case Trapped(t) => HandleTrapLog(p, level, w, t);
      case NewStart(a) => DropKeeps(p, level, w, AddStart(w, a));
      case NewEnd(a) => DropKeeps(p, level, w, AddEnd(w, a));
    }
  }

  /** Main result: after every run, each "/" closes a "\" of the same goroutine, depth and function, and
      no line is deeper than the trace level. */
  lemma {:induction false} LogIsNested(p: Program, level: int, steps: seq<Step>)
    requires WellFormed(p) && Run(p, Initial(level), steps).Some?
    ensures LogOk(p, Run(p, Initial(level), steps).value, level)
    ensures WellNested(Run(p, Initial(level), steps).value.log)
    ensures DepthsWithin(Run(p, Initial(level), steps).value.log, level)
  {
    if steps != [] {
      var before := steps[..|steps| - 1];
      var w := Run(p, Initial(level), before).value;
      LogIsNested(p, level, before);
      RunInv(p, level, before, None);
      NextLog(p, level, w, steps[|steps| - 1]);
    } else {
      assert forall g :: Of(Initial(level), g).stack == [];
    }
  }
}
