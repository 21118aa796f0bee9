/** The tracer's controller as a state machine over values: one step per trap or new trace point.
    A step yields None where the controller returns an error because a function is not known.
    Class Controller is proved to compute HandleTrap. */
module TraceModel {
  import opened Base
  import opened BreakpointTable

  datatype Func = Func(name: string, start: Addr, end: Addr)

  /** What is fixed while the tracee runs: the function table, the addresses of a function's call
      instructions in the unpatched code, and which function names are printed. */
  datatype Program = Program(
    find: Addr -> Option<Func>,
    calls: Func -> Option<seq<Addr>>,
    printable: string -> bool)

  /** Looking up the start of a found function finds the same function. */
  ghost predicate WellFormed(p: Program) {
    forall pc: Addr :: p.find(pc).Some? ==> p.find(p.find(pc).value.start) == p.find(pc)
  }

  /** An entry of a shadow call stack. */
  datatype Frame = Frame(func: Func, ret: Addr, size: nat, flagged: bool)

  /** The bookkeeping of one goroutine. `base` and `owed` are history: the frames below `base` were
      left over by an earlier session, and `owed` holds the settings made on entering a trace point
      or for a deferred function that have not been undone. */
  datatype Shadow = Shadow(stack: seq<Frame>, base: nat, owed: multiset<Addr>)

  datatype Hint = Call | DeferredFunc

  /** A line of the trace log: "\" when entering, "/" when leaving. */
  datatype Line = Line(g: Gid, depth: int, entering: bool, name: string)

  datatype World = World(
    level: int,
    shadows: map<Gid, Shadow>,
    bps: Table,
    starts: set<Addr>,
    ends: set<Addr>,
    tracing: multiset<Gid>,
    hints: map<Addr, Hint>,
    log: seq<Line>)

  /** What the goroutine's registers and runtime structures say when a thread is trapped, and how many requests
      it takes to read all that once the goroutine's structure is found. */
  datatype Info = Info(id: Gid, used: nat, pc: Addr, nextDefer: Addr, panicking: bool, handler: Option<nat>, asks: nat)

  /** One trapped thread: a system routine, or a goroutine described at the trap, described again
      after its call instruction was stepped over, and the word on top of its stack at that point. */
  datatype Trap = System | User(info: Info, after: Info, ret: Addr)

  datatype Step = Trapped(trap: Trap) | NewStart(addr: Addr) | NewEnd(addr: Addr)

  function Initial(level: int): World {
    World(level, map[], map[], {}, {}, multiset{}, map[], [])
  }

  function Of(w: World, g: Gid): Shadow {
    if g in w.shadows then w.shadows[g] else Shadow([], 0, multiset{})
  }

  function With(w: World, g: Gid, sh: Shadow): World {
    w.(shadows := w.shadows[g := sh])
  }

  function TopSize(st: seq<Frame>): nat {
    if st == [] then 0 else st[|st| - 1].size
  }

  function CallsAt(p: Program, pc: Addr): Option<seq<Addr>> {
    var f :- p.find(pc);
    p.calls(f)
  }

  function MarkCalls(hints: map<Addr, Hint>, calls: seq<Addr>): map<Addr, Hint> {
    hints + map a | a in calls :: Call
  }

  /** The addresses at which a frame needs its goroutine stopped. */
  function FrameAddrs(p: Program, fr: Frame): Option<seq<Addr>> {
    if fr.flagged then
      var calls :- CallsAt(p, fr.func.start);
      Some([fr.ret] + calls)
    else Some([fr.ret])
  }

  function Needs(p: Program, fr: Frame): multiset<Addr> {
    var addrs := FrameAddrs(p, fr);
    if addrs.Some? then multiset(addrs.value) else multiset{}
  }

  function Due(p: Program, st: seq<Frame>): multiset<Addr> {
    if st == [] then multiset{} else Due(p, st[..|st| - 1]) + Needs(p, st[|st| - 1])
  }

  /** How many frames stay when the goroutine is seen at pc with the given used stack size. */
  function KeepLen(p: Program, st: seq<Frame>, pc: Addr, used: nat): (n: Option<nat>)
    ensures n.Some? ==> n.value <= |st|
  {
    if st == [] then Some(0)
    else
      var top := st[|st| - 1];
      if top.size < used then Some(|st|)
      else if top.size == used then
        var f :- p.find(pc);
        if top.func.name == f.name then Some(|st|) else KeepLen(p, st[..|st| - 1], pc, used)
      else KeepLen(p, st[..|st| - 1], pc, used)
  }

  /** The breakpoint settings of the frames are undone, the top frame first. */
  function ClearFrames(p: Program, b: Table, st: seq<Frame>, g: Gid): Option<Table>
    decreases |st|
  {
    if st == [] then Some(b)
    else
      var addrs :- FrameAddrs(p, st[|st| - 1]);
      ClearFrames(p, ClearSeq(b, addrs, g), st[..|st| - 1], g)
  }

  /** Dropping a leftover frame may take away a setting that is still owed. */
  function Cut(p: Program, sh: Shadow, n: nat): Shadow
    requires n <= |sh.stack|
  {
    if n < sh.base <= |sh.stack| then Shadow(sh.stack[..n], n, sh.owed - Due(p, sh.stack[n..sh.base]))
    else Shadow(sh.stack[..n], sh.base, sh.owed)
  }

  function Unwind(p: Program, w: World, g: Gid, pc: Addr, used: nat): Option<World> {
    var sh := Of(w, g);
    var n :- KeepLen(p, sh.stack, pc, used);
    var bps :- ClearFrames(p, w.bps, sh.stack[n..], g);
    Some(With(w.(bps := bps), g, Cut(p, sh, n)))
  }

  function Push(p: Program, w: World, g: Gid, fr: Frame): Option<World> {
    var addrs :- FrameAddrs(p, fr);
    var sh := Of(w, g);
    Some(With(w, g, sh.(stack := sh.stack + [fr]))
         .(bps := SetSeq(w.bps, addrs, g), hints := MarkCalls(w.hints, addrs[1..])))
  }

  function Print(p: Program, w: World, g: Gid, depth: int, entering: bool, shown: Func): World {
    if depth <= w.level && p.printable(shown.name)
    then w.(log := w.log + [Line(g, depth, entering, shown.name)])
    else w
  }

  // ----- trace points

  function Enter(p: Program, w: World, g: Gid, pc: Addr): Option<World> {
    var calls :- CallsAt(p, pc);
    var sh := Of(w, g);
    Some(With(w, g, sh.(owed := sh.owed + multiset(calls)))
         .(bps := SetSeq(w.bps, calls, g), hints := MarkCalls(w.hints, calls),
           tracing := w.tracing + multiset{g}))
  }

  function Leave(w: World, g: Gid): World {
    var tracing := w.tracing - multiset{g};
    if g in tracing then w.(tracing := tracing)
    else
      var sh := Of(w, g);
      With(w, g, Shadow(sh.stack, |sh.stack|, multiset{}))
      .(bps := ClearAllFor(w.bps, g), tracing := tracing)
  }

  function UpdateTracing(p: Program, w: World, i: Info, at: Addr): Option<World> {
    var w1 :- if at in w.starts then Enter(p, w, i.id, i.pc) else Some(w);
    Some(if at in w1.ends then Leave(w1, i.id) else w1)
  }

  // ----- traps

  function AtCall(p: Program, w: World, i: Info, ret: Addr): Option<World> {
    var f :- p.find(i.pc);
    var w1 :- Unwind(p, w, i.id, i.pc, i.used);
    var depth := |Of(w1, i.id).stack| + 1;
    var w2 :- Push(p, w1, i.id, Frame(f, ret, i.used, depth < w.level));
    Some(Print(p, w2, i.id, depth, true, f))
  }

  function BeforeCall(p: Program, w: World, after: Info, ret: Addr): Option<World> {
    var w1 :- UpdateTracing(p, w, after, after.pc);
    if after.id !in w1.tracing then Some(w1) else AtCall(p, w1, after, ret)
  }

  function AtDeferredFunc(p: Program, w: World, i: Info, ret: Addr): Option<World> {
    var w1 :- if i.panicking && i.handler.Some? then Unwind(p, w, i.id, i.pc, i.handler.value) else Some(w);
    var w2 :- AtCall(p, w1, i, ret);
    var at := Wrap(i.pc - 1);
    var sh := Of(w2, i.id);
    Some(With(w2, i.id, sh.(owed := sh.owed - multiset{at})).(bps := ClearFor(w2.bps, at, i.id)))
  }

  function WatchDeferred(w: World, i: Info): World {
    if i.nextDefer == 0 then w
    else
      var sh := Of(w, i.id);
      With(w, i.id, sh.(owed := sh.owed + multiset{i.nextDefer}))
      .(bps := SetFor(w.bps, i.nextDefer, i.id), hints := w.hints[i.nextDefer := DeferredFunc])
  }

  function AfterReturn(p: Program, w: World, i: Info): Option<World> {
    var before := Of(w, i.id).stack;
    var w1 :- Unwind(p, w, i.id, i.pc, i.used);
    var n := |Of(w1, i.id).stack|;
    if n >= |before| then None
    else
      var f :- p.find(before[n].func.start);
      var w2 := if n + 1 <= w.level && f.name == "runtime.deferproc" then WatchDeferred(w1, i) else w1;
      Some(if n + 1 <= w.level && p.printable(before[n].func.name)
           then w2.(log := w2.log + [Line(i.id, n + 1, false, f.name)]) else w2)
  }

  function HandleTrap(p: Program, w: World, t: Trap): Option<World> {
    if t.System? || t.info.id == 0 then Some(w)
    else
      var i := t.info;
      var at := Wrap(i.pc - 1);
      if !Hit(w.bps, at, i.id) then Some(w)
      else
        var w1 :- UpdateTracing(p, w, i, at);
        if i.id !in w1.tracing then Some(w1)
        else
          var w2 :- if TopSize(Of(w1, i.id).stack) > i.used then AfterReturn(p, w1, i) else Some(w1);
          if at !in w2.hints then Some(w2)
          else if w2.hints[at].Call? then BeforeCall(p, w2, t.after, t.ret)
          else AtDeferredFunc(p, w2, i, t.ret)
  }

  function AddStart(w: World, a: Addr): World {
    if a in w.starts then w else w.(bps := SetAlways(w.bps, a), starts := w.starts + {a})
  }

  function AddEnd(w: World, a: Addr): World {
    if a in w.ends then w else w.(bps := SetAlways(w.bps, a), ends := w.ends + {a})
  }

  function Next(p: Program, w: World, s: Step): Option<World> {
    match s
    case Trapped(t) => HandleTrap(p, w, t)
    case NewStart(a) => Some(AddStart(w, a))
    case NewEnd(a) => Some(AddEnd(w, a))
  }

  /** A run of the main loop without an error. */
  function Run(p: Program, w: World, steps: seq<Step>): Option<World> {
    if steps == [] then Some(w)
    else
      var before :- Run(p, w, steps[..|steps| - 1]);
      Next(p, before, steps[|steps| - 1])
  }
}
