/** The controller class: its methods compute the state machine of module TraceModel. */
module Controller {
  import opened Base
  import opened BreakpointTable
  import opened TraceModel
  import opened Accounting
  import opened TraceeProcess
  import opened Breakpoints
  import opened Stepping
  import opened TracingPoints
  import opened TraceLog
  import opened Unwinding

  /** The call instructions of a function in the original code; unknown without an end address. */
  ghost function CallsOf(decode: Decoder, original: map<Addr, Byte>, f: Func): Option<seq<Addr>> {
    if f.end == 0 || f.end < f.start || !Mapped(original, f.start, f.end - f.start) then None
    else Some(CallAddrs(DecodeAll(decode, Bytes(original, f.start, f.end - f.start)), f.start))
  }

  /** They are listed exactly, and every function is known that lies in memory and has an end. */
  lemma CallsAreListed(decode: Decoder, original: map<Addr, Byte>, f: Func)
    ensures CallsOf(decode, original, f).Some? <==>
              0 != f.end >= f.start && Mapped(original, f.start, f.end - f.start)
    ensures CallsOf(decode, original, f).Some? ==>
              ListsCalls(decode, original, f.start, f.end, CallsOf(decode, original, f).value)
  {
    hide ListsCalls;
    if CallsOf(decode, original, f).Some? {
      CallsListed(decode, original, f.start, f.end);
    }
  }

  lemma {:induction false} ClearFramesBottom(p: Program, b: Table, fr: Frame, rest: seq<Frame>, g: Gid)
    requires ClearFrames(p, b, rest, g).Some?
    ensures ClearFrames(p, b, [fr] + rest, g)
            == if FrameAddrs(p, fr).None? then None
               else Some(ClearSeq(ClearFrames(p, b, rest, g).value, FrameAddrs(p, fr).value, g))
    decreases |rest|
  {
    var all := [fr] + rest;
    if rest == [] {
      assert all == [fr] && all[..0] == [];
    } else {
      var top := rest[|rest| - 1];
      assert all[|all| - 1] == top && all[..|all| - 1] == [fr] + rest[..|rest| - 1];
      ClearFramesBottom(p, ClearSeq(b, FrameAddrs(p, top).value, g), fr, rest[..|rest| - 1], g);
    }
  }

  function Alter(enable: bool, b: Table, addrs: seq<Addr>, g: Gid): Table {
    if enable then SetSeq(b, addrs, g) else ClearSeq(b, addrs, g)
  }

  function AlterHints(enable: bool, hints: map<Addr, Hint>, addrs: seq<Addr>): map<Addr, Hint> {
    if enable then MarkCalls(hints, addrs) else hints
  }

  lemma AlterStep(enable: bool, b: Table, addrs: seq<Addr>, i: nat, g: Gid)
    requires i < |addrs|
    ensures Alter(enable, b, addrs[i..], g)
            == Alter(enable, if enable then SetFor(b, addrs[i], g) else ClearFor(b, addrs[i], g), addrs[i + 1..], g)
  {
    assert addrs[i..][0] == addrs[i] && addrs[i..][1..] == addrs[i + 1..];
  }

  lemma AlterEnd(enable: bool, b: Table, hints: map<Addr, Hint>, addrs: seq<Addr>, g: Gid)
    ensures Alter(enable, b, addrs[|addrs|..], g) == b && addrs[0..] == addrs
    ensures AlterHints(enable, hints, addrs[..0]) == hints && addrs[..|addrs|] == addrs
  {
  }

  lemma HintStep(enable: bool, hints: map<Addr, Hint>, addrs: seq<Addr>, i: nat)
    requires i < |addrs|
    ensures AlterHints(enable, hints, addrs[..i + 1])
            == if enable then AlterHints(enable, hints, addrs[..i])[addrs[i] := Call] else hints
  {
    assert addrs[..i + 1] == addrs[..i] + [addrs[i]];
  }

  lemma AlterSingle(enable: bool, b: Table, a: Addr, g: Gid)
    ensures NoEmpty(b) ==> NoEmpty(if enable then SetFor(b, a, g) else ClearFor(b, a, g))
  {
    SetForEffect(b, a, g);
    ClearForEffect(b, a, g);
  }

  lemma HintSame(enable: bool, hints: map<Addr, Hint>, addrs: seq<Addr>)
    ensures !enable ==> AlterHints(enable, hints, addrs) == hints
  {
  }

  lemma UnwindIs(p: Program, w: World, g: Gid, pc: Addr, used: nat, n: nat, b: Table)
    requires KeepLen(p, Of(w, g).stack, pc, used) == Some(n)
    requires ClearFrames(p, w.bps, Of(w, g).stack[n..], g) == Some(b)
    ensures Unwind(p, w, g, pc, used).Some?
    ensures var w' := Unwind(p, w, g, pc, used).value;
            && w'.bps == b && w'.level == w.level && w'.hints == w.hints && w'.log == w.log
            && w'.starts == w.starts && w'.ends == w.ends && w'.tracing == w.tracing
            && Of(w', g).stack == Of(w, g).stack[..n]
            && (forall h :: h != g ==> Of(w', h) == Of(w, h))
  {
  }

  lemma PushIs(p: Program, w: World, g: Gid, fr: Frame)
    requires FrameAddrs(p, fr).Some?
    ensures Push(p, w, g, fr).Some?
    ensures var w' := Push(p, w, g, fr).value;
            && w'.bps == Alter(true, w.bps, FrameAddrs(p, fr).value, g)
            && w'.hints == AlterHints(true, w.hints, FrameAddrs(p, fr).value[1..])
            && w'.level == w.level && w'.log == w.log
            && w'.starts == w.starts && w'.ends == w.ends && w'.tracing == w.tracing
            && Of(w', g).stack == Of(w, g).stack + [fr]
            && (forall h :: h != g ==> Of(w', h) == Of(w, h))
  {
  }

  lemma CallOrdered(p: Program, w: World, g: Gid, pc: Addr, used: nat, fr: Frame)
    requires WellFormed(p) && ShadowOk(p, Of(w, g)) && Unwind(p, w, g, pc, used).Some?
    requires p.find(pc) == Some(fr.func) && fr.size == used
    ensures Ordered(Of(Unwind(p, w, g, pc, used).value, g).stack + [fr])
    ensures p.find(fr.func.start) == Some(fr.func)
  {
    UnwindFacts(p, w, g, pc, used);
    PushOrdered(p, Of(w, g).stack, pc, used, fr);
  }

  lemma AtCallIs(p: Program, w: World, i: Info, ret: Addr, f: Func, w1: World, w2: World)
    requires p.find(i.pc) == Some(f) && Unwind(p, w, i.id, i.pc, i.used) == Some(w1)
    requires var depth := |Of(w1, i.id).stack| + 1;
             Push(p, w1, i.id, Frame(f, ret, i.used, depth < w.level)) == Some(w2)
    ensures AtCall(p, w, i, ret) == Some(Print(p, w2, i.id, |Of(w1, i.id).stack| + 1, true, f))
  {
  }

  lemma LeaveIs(w: World, g: Gid)
    ensures var w' := Leave(w, g);
            && w'.tracing == w.tracing - multiset{g}
            && w'.bps == (if w.tracing[g] > 1 then w.bps else ClearAllFor(w.bps, g))
            && w'.level == w.level && w'.log == w.log && w'.hints == w.hints
            && w'.starts == w.starts && w'.ends == w.ends
            && (forall h :: Of(w', h).stack == Of(w, h).stack)
  {
  }

  lemma AfterReturnIs(p: Program, w: World, i: Info, w1: World, f: Func)
    requires Unwind(p, w, i.id, i.pc, i.used) == Some(w1)
    requires |Of(w1, i.id).stack| < |Of(w, i.id).stack| && Of(w, i.id).stack[|Of(w1, i.id).stack|].func == f
    requires p.find(f.start) == Some(f)
    ensures var n := |Of(w1, i.id).stack|;
            var w2 := if n + 1 <= w.level && f.name == "runtime.deferproc" then WatchDeferred(w1, i) else w1;
            AfterReturn(p, w, i) == Some(if n + 1 <= w.level && p.printable(f.name)
                                         then w2.(log := w2.log + [Line(i.id, n + 1, false, f.name)]) else w2)
  {
    hide Unwind, WatchDeferred;
  }

  lemma AfterReturnTracing(p: Program, w: World, i: Info)
    requires AfterReturn(p, w, i).Some?
    ensures AfterReturn(p, w, i).value.tracing == w.tracing
  {
  }

  lemma RunAppend(p: Program, w0: World, steps: seq<Step>, s: Step)
    requires Run(p, w0, steps).Some?
    ensures Run(p, w0, steps + [s]) == Next(p, Run(p, w0, steps).value, s)
  {
    assert (steps + [s])[..|steps|] == steps;
  }

  lemma CallFacts(p: Program, w: World, i: Info, ret: Addr)
    requires AtCall(p, w, i, ret).Some?
    ensures AtCall(p, w, i, ret).value.tracing == w.tracing
  {
  }

  // ----- what a step of the state machine needs

  lemma UnwindNeeds(p: Program, w: World, g: Gid, pc: Addr, used: nat)
    requires ShadowOk(p, Of(w, g))
    ensures KeepLen(p, Of(w, g).stack, pc, used).None? ==> Unwind(p, w, g, pc, used).None?
    ensures forall i :: 0 <= i < |Of(w, g).stack| ==> FrameAddrs(p, Of(w, g).stack[i]).Some?
  {
    forall i | 0 <= i < |Of(w, g).stack|
      ensures FrameAddrs(p, Of(w, g).stack[i]).Some?
    {
      assert FrameOk(p, Of(w, g).stack[i]);
    }
  }

  lemma PushNeeds(p: Program, w: World, g: Gid, fr: Frame)
    ensures FrameAddrs(p, fr).None? ==> Push(p, w, g, fr).None?
  {
  }

  lemma EnterNeeds(p: Program, w: World, g: Gid, pc: Addr)
    ensures CallsAt(p, pc).None? ==> Enter(p, w, g, pc).None?
  {
  }

  lemma AtCallNeeds(p: Program, w: World, i: Info, ret: Addr)
    ensures p.find(i.pc).None? || Unwind(p, w, i.id, i.pc, i.used).None? ==> AtCall(p, w, i, ret).None?
    ensures p.find(i.pc).Some? && Unwind(p, w, i.id, i.pc, i.used).Some? ==>
              var w1 := Unwind(p, w, i.id, i.pc, i.used).value;
              var fr := Frame(p.find(i.pc).value, ret, i.used, |Of(w1, i.id).stack| + 1 < w.level);
              Push(p, w1, i.id, fr).None? ==> AtCall(p, w, i, ret).None?
  {
    hide Unwind, Push;
    if Unwind(p, w, i.id, i.pc, i.used).Some? {
      UnwindLevel(p, w, i.id, i.pc, i.used);
    }
  }

  lemma PrintIs(p: Program, w: World, g: Gid, depth: int, f: Func)
    ensures Print(p, w, g, depth, true, f)
            == if depth <= w.level && p.printable(f.name) then w.(log := w.log + [Line(g, depth, true, f.name)]) else w
  {
  }

  lemma UnwindLevel(p: Program, w: World, g: Gid, pc: Addr, used: nat)
    requires Unwind(p, w, g, pc, used).Some?
    ensures Unwind(p, w, g, pc, used).value.level == w.level
  {
  }

  lemma AfterReturnNeeds(p: Program, w: World, i: Info)
    ensures Unwind(p, w, i.id, i.pc, i.used).None? ==> AfterReturn(p, w, i).None?
  {
    hide Unwind;
  }

  class Controller {
    const process: Process
    const breakpoints: Breakpoints
    const points: TracingPoints
    const goRoutines: TracingGoRoutines
    const find: Addr -> Option<Func>
    const printable: string -> bool
    const traceLevel: int

    var statusStore: map<Gid, seq<Frame>>
    var callInstAddrCache: map<Addr, seq<Addr>>
    var hints: map<Addr, Hint>
    var log: seq<Line>

    /** The same state as a value, and the steps that led to it. */
    ghost var w: World
    ghost var history: seq<Step>

    /** The traps of which the goroutine could not be read. */
    ghost var unread: seq<Unread>

    ghost function Prog(): Program {
      Program(find, f => CallsOf(process.decode, process.original, f), printable)
    }

    constructor (process: Process, find: Addr -> Option<Func>, printable: string -> bool, traceLevel: int)
      requires process.Weak() && process.breakpoints == map[]
      ensures this.process == process && this.find == find && this.printable == printable
      ensures this.traceLevel == traceLevel && w == Initial(traceLevel) && history == [] && unread == []
      ensures fresh(breakpoints) && fresh(points) && fresh(goRoutines) && breakpoints.process == process
      ensures WellFormed(Prog()) ==> Reached()
    {
      this.process, this.find, this.printable, this.traceLevel := process, find, printable, traceLevel;
      this.breakpoints := new Breakpoints(process);
      this.points := new TracingPoints();
      this.goRoutines := new TracingGoRoutines();
      this.statusStore, this.callInstAddrCache, this.hints, this.log := map[], map[], map[], [];
      this.w, this.history, this.unread := Initial(traceLevel), [], [];
      new;
      Fresh();
    }

    /** The fields say what the world says. */
    ghost predicate Synced()
      reads this`w, this`statusStore, this`hints, this`log, breakpoints, points, goRoutines
    {
      && w.level == traceLevel
      && w.bps == breakpoints.View()
      && w.starts == Members(points.startAddressList) && w.ends == Members(points.endAddressList)
      && w.tracing == multiset(goRoutines.ids)
      && w.hints == hints
      && w.log == log
      && forall g :: Of(w, g).stack == Status(g)
    }

    function Status(g: Gid): seq<Frame>
      reads this`statusStore
    {
      if g in statusStore then statusStore[g] else []
    }

    static function Members(list: seq<Addr>): set<Addr> {
      set a | a in list
    }

    /** How many requests to the debug API were not granted. An error has such a request as its cause, or the
        state machine has no step. */
    function Refusals(): nat
      reads process.client`wire
    {
      process.client.wire.refusals
    }

    /** Cached call sites are those of the unpatched code. */
    ghost predicate CacheOk()
      reads this`callInstAddrCache
    {
      forall s :: s in callInstAddrCache ==>
                    find(s).Some? && find(s).value.start == s
                    && CallsOf(process.decode, process.original, find(s).value) == Some(callInstAddrCache[s])
    }

    method FindCallInstAddresses(f: Func) returns (addrs: Option<seq<Addr>>)
      requires CacheOk() && process.Weak() && find(f.start) == Some(f)
      modifies this`callInstAddrCache, process.client`wire
      ensures CacheOk() && process.Weak() && process.Holes() == old(process.Holes())
      ensures addrs.Some? ==> addrs == CallsOf(process.decode, process.original, f)
      ensures addrs.Some? ==> ListsCalls(process.decode, process.original, f.start, f.end, addrs.value)
      ensures if addrs.Some? then Refusals() == old(Refusals()) else Refusals() >= old(Refusals())
      ensures addrs.None? ==> Refusals() > old(Refusals()) || CallsOf(process.decode, process.original, f).None?
    {
      hide Process.Weak, Process.Holes, Mapped, DecodeAll, CallAddrs, Bytes, ListsCalls;
      CallsAreListed(process.decode, process.original, f);
      if f.start in callInstAddrCache {
        return Some(callInstAddrCache[f.start]);
      }
      var insts := process.ReadInstructions(f.start, f.end);
      if insts.None? {
        return None;
      }
      var addresses := CallSites(insts.value, f.start);
      callInstAddrCache := callInstAddrCache[f.start := addresses];
      addrs := Some(addresses);
    }

    static predicate SitesUpTo(insts: seq<Inst>, start: int, i: nat, addresses: seq<Addr>, pos: int) {
      i <= |insts| && CallAddrs(insts, start) == addresses + CallAddrs(insts[i..], pos)
    }

    static lemma SitesStart(insts: seq<Inst>, start: int, addresses: seq<Addr>, pos: int)
      ensures SitesUpTo(insts, start, 0, [], start)
      ensures SitesUpTo(insts, start, |insts|, addresses, pos) ==> addresses == CallAddrs(insts, start)
    {
      assert insts[0..] == insts && [] + CallAddrs(insts, start) == CallAddrs(insts, start);
      assert addresses + [] == addresses;
    }

    static lemma SitesStep(insts: seq<Inst>, start: int, i: nat, addresses: seq<Addr>, pos: int)
      requires i < |insts| && SitesUpTo(insts, start, i, addresses, pos)
      ensures SitesUpTo(insts, start, i + 1, addresses + if insts[i].isCall then [Wrap(pos)] else [],
                        pos + insts[i].len)
    {
      var site := if insts[i].isCall then [Wrap(pos)] else [];
      var rest := CallAddrs(insts[i + 1..], pos + insts[i].len);
      assert insts[i..][0] == insts[i] && insts[i..][1..] == insts[i + 1..];
      assert addresses + (site + rest) == addresses + site + rest;
    }

    static method CallSites(insts: seq<Inst>, start: Addr) returns (addresses: seq<Addr>)
      ensures addresses == CallAddrs(insts, start)
    {
      hide SitesUpTo;
      var pos := 0;
      addresses := [];
      SitesStart(insts, start, addresses, pos);
      for i := 0 to |insts|
        invariant 0 <= pos && SitesUpTo(insts, start, i, addresses, start + pos)
      {
        SitesStep(insts, start, i, addresses, start + pos);
        assert addresses + [] == addresses;
        if insts[i].isCall {
          addresses := addresses + [Wrap(start + pos)];
        }
        pos := pos + insts[i].len;
      }
      SitesStart(insts, start, addresses, start + pos);
    }

    /** The physical and the logical breakpoints fit together, also after an error. */
    ghost predicate Physical()
      reads breakpoints, process, process.client`mem, process.client`executed
    {
      breakpoints.process == process && breakpoints.Valid()
    }

    method AlterCallInstBreakpoints(enable: bool, g: Gid, pc: Addr) returns (ok: bool)
      requires WellFormed(Prog()) && CacheOk() && Physical() && NoEmpty(breakpoints.View())
      modifies this`callInstAddrCache, this`hints, breakpoints, process, process.client`mem, process.client`wire
      ensures CacheOk() && Physical()
      ensures ok ==> process.Holes() <= old(process.Holes()) && NoEmpty(breakpoints.View())
      ensures ok ==> var calls := CallsAt(Prog(), pc);
                     && calls.Some?
                     && breakpoints.View() == Alter(enable, old(breakpoints.View()), calls.value, g)
                     && hints == AlterHints(enable, old(hints), calls.value)
      ensures if ok then Refusals() == old(Refusals()) else Refusals() >= old(Refusals())
      ensures !ok ==> Refusals() > old(Refusals()) || CallsAt(Prog(), pc).None?
    {
      hide Process.Weak, Process.Holes, Alter, AlterHints, ViewOf;
      var f := find(pc);
      if f.None? {
        return false;
      }
      assert Prog().find(pc) == f;
      var addrs := FindCallInstAddresses(f.value);
      if addrs.None? {
        return false;
      }
      ok := AlterAll(enable, addrs.value, g);
    }

    method AlterAll(enable: bool, calls: seq<Addr>, g: Gid) returns (ok: bool)
      requires Physical() && NoEmpty(breakpoints.View())
      modifies this`hints, breakpoints, process, process.client`mem, process.client`wire
      ensures Physical()
      ensures ok ==> process.Holes() <= old(process.Holes()) && NoEmpty(breakpoints.View())
      ensures ok ==> && breakpoints.View() == Alter(enable, old(breakpoints.View()), calls, g)
                     && hints == AlterHints(enable, old(hints), calls)
      ensures Refusals() == old(Refusals()) + if ok then 0 else 1
    {
      hide Process.Weak, Process.Holes, Alter, AlterHints, ViewOf, SetFor, ClearFor, NoEmpty;
      var i := 0;
      AlterEnd(enable, breakpoints.View(), hints, calls, g);
      while i < |calls|
        invariant 0 <= i <= |calls|
        invariant Physical() && process.Holes() <= old(process.Holes()) && NoEmpty(breakpoints.View())
        invariant Refusals() == old(Refusals())
        invariant Alter(enable, breakpoints.View(), calls[i..], g) == Alter(enable, old(breakpoints.View()), calls, g)
        invariant hints == AlterHints(enable, old(hints), calls[..i])
      {
        AlterStep(enable, breakpoints.View(), calls, i, g);
        HintStep(enable, old(hints), calls, i);
        HintSame(enable, old(hints), calls[..i]);
        var done := AlterOne(enable, calls[i], g);
        if !done {
          return false;
        }
        i := i + 1;
      }
      AlterEnd(enable, breakpoints.View(), hints, calls, g);
      ok := true;
    }

    method AlterOne(enable: bool, addr: Addr, g: Gid) returns (ok: bool)
      requires Physical() && NoEmpty(breakpoints.View())
      modifies this`hints, breakpoints, process, process.client`mem, process.client`wire
      ensures Physical()
      ensures ok ==> process.Holes() <= old(process.Holes()) && NoEmpty(breakpoints.View())
      ensures ok ==> breakpoints.View() == (if enable then SetFor(old(breakpoints.View()), addr, g)
                                            else ClearFor(old(breakpoints.View()), addr, g))
      ensures hints == if enable then old(hints)[addr := Call] else old(hints)
      ensures Refusals() == old(Refusals()) + if ok then 0 else 1
    {
      hide Process.Weak, Process.Holes;
      if enable {
        SetForEffect(breakpoints.View(), addr, g);
        ok := breakpoints.SetConditional(addr, g);
        hints := hints[addr := Call];
      } else {
        ClearForEffect(breakpoints.View(), addr, g);
        ok := breakpoints.ClearConditional(addr, g);
      }
    }

    /** What holds between the steps of a trap as long as no error is returned. */
    ghost predicate Good()
      reads this`w, this`statusStore, this`hints, this`log, this`callInstAddrCache
      reads breakpoints, points, goRoutines, process, process.client`mem, process.client`executed
    {
      && WellFormed(Prog())
      && Synced()
      && CacheOk()
      && Physical()
      && Inv(Prog(), w, None)
    }

    lemma GoodFacts(g: Gid)
      requires Good()
      ensures NoEmpty(breakpoints.View()) && w.bps == breakpoints.View()
      ensures ShadowOk(Prog(), Of(w, g)) && Of(w, g).stack == Status(g)
      ensures w.hints == hints && w.level == traceLevel && w.log == log
    {
      Mine(Prog(), w, g, None);
    }

    /** The fields have been brought to the world w2. */
    ghost method Become(w2: World)
      requires WellFormed(Prog()) && CacheOk() && Physical() && Inv(Prog(), w2, None)
      requires w2.level == traceLevel && w2.bps == breakpoints.View() && w2.hints == hints && w2.log == log
      requires w2.starts == Members(points.startAddressList) && w2.ends == Members(points.endAddressList)
      requires w2.tracing == multiset(goRoutines.ids)
      requires forall g :: Of(w2, g).stack == Status(g)
      modifies this`w
      ensures Good() && w == w2
    {
      w := w2;
    }

    lemma Fields()
      requires Good()
      ensures WellFormed(Prog()) && CacheOk() && Physical() && Inv(Prog(), w, None)
      ensures w.level == traceLevel && w.bps == breakpoints.View() && w.hints == hints && w.log == log
      ensures w.starts == Members(points.startAddressList) && w.ends == Members(points.endAddressList)
      ensures w.tracing == multiset(goRoutines.ids)
      ensures forall g :: Of(w, g).stack == Status(g)
    {
    }

    /** The settings of one frame are made or undone: its return address, then its call instructions. */
    method AlterFrame(enable: bool, fr: Frame, g: Gid) returns (ok: bool)
      requires WellFormed(Prog()) && CacheOk() && Physical() && NoEmpty(breakpoints.View())
      modifies this`callInstAddrCache, this`hints, breakpoints, process, process.client`mem, process.client`wire
      ensures CacheOk() && Physical()
      ensures ok ==> process.Holes() <= old(process.Holes()) && NoEmpty(breakpoints.View())
      ensures ok ==> var addrs := FrameAddrs(Prog(), fr);
                     && addrs.Some?
                     && breakpoints.View() == Alter(enable, old(breakpoints.View()), addrs.value, g)
                     && hints == AlterHints(enable, old(hints), addrs.value[1..])
      ensures if ok then Refusals() == old(Refusals()) else Refusals() >= old(Refusals())
      ensures !ok ==> Refusals() > old(Refusals()) || FrameAddrs(Prog(), fr).None?
    {
      hide Process.Weak, Process.Holes, ViewOf, AlterHints, Alter, CallsAt, NoEmpty;
      ghost var b0 := breakpoints.View();
      if enable {
        ok := breakpoints.SetConditional(fr.ret, g);
      } else {
        ok := breakpoints.ClearConditional(fr.ret, g);
      }
      if !ok {
        return;
      }
      ghost var b1 := breakpoints.View();
      AlterSingle(enable, b0, fr.ret, g);
      if fr.flagged {
        ok := AlterCallInstBreakpoints(enable, g, fr.func.start);
        if ok {
          FrameAlter(enable, b0, b1, fr, CallsAt(Prog(), fr.func.start).value, g);
        }
      } else {
        FrameAlter(enable, b0, b1, fr, [], g);
        AlterEnd(enable, b1, hints, [], g);
      }
    }

    lemma FrameAlter(enable: bool, b0: Table, b1: Table, fr: Frame, calls: seq<Addr>, g: Gid)
      requires b1 == if enable then SetFor(b0, fr.ret, g) else ClearFor(b0, fr.ret, g)
      requires if fr.flagged then CallsAt(Prog(), fr.func.start) == Some(calls) else calls == []
      ensures FrameAddrs(Prog(), fr) == Some([fr.ret] + calls) && ([fr.ret] + calls)[1..] == calls
      ensures Alter(enable, b0, [fr.ret] + calls, g) == Alter(enable, b1, calls, g)
      ensures Alter(enable, b1, [], g) == b1
    {
      assert [fr.ret] + [] == [fr.ret];
    }

    /** The frames from the top down are dropped and their settings undone, until one stays. */
    method DoUnwindFunctions(g: Gid, pc: Addr, used: nat) returns (ok: bool, n: nat)
      requires WellFormed(Prog()) && CacheOk() && Physical() && NoEmpty(breakpoints.View())
      modifies this`callInstAddrCache, this`hints, breakpoints, process, process.client`mem, process.client`wire
      ensures CacheOk() && Physical()
      ensures ok ==> process.Holes() <= old(process.Holes()) && hints == old(hints)
      ensures ok ==> n <= |Status(g)| && KeepLen(Prog(), Status(g), pc, used) == Some(n)
                     && ClearFrames(Prog(), old(breakpoints.View()), Status(g)[n..], g) == Some(breakpoints.View())
      ensures if ok then Refusals() == old(Refusals()) else Refusals() >= old(Refusals())
      ensures !ok ==> Refusals() > old(Refusals()) || KeepLen(Prog(), Status(g), pc, used).None?
                      || exists i :: 0 <= i < |Status(g)| && FrameAddrs(Prog(), Status(g)[i]).None?
    {
      hide Process.Weak, Process.Holes, ViewOf, Alter, NoEmpty, ClearFrames, KeepLen, FrameAddrs;
      var funcs := Status(g);
      n := |funcs|;
      ClearNone(breakpoints.View(), funcs, g);
      while n > 0
        invariant 0 <= n <= |funcs| && hints == old(hints)
        invariant CacheOk() && Physical() && NoEmpty(breakpoints.View())
        invariant process.Holes() <= old(process.Holes()) && Refusals() == old(Refusals())
        invariant KeepLen(Prog(), funcs, pc, used) == KeepLen(Prog(), funcs[..n], pc, used)
        invariant ClearFrames(Prog(), old(breakpoints.View()), funcs[n..], g) == Some(breakpoints.View())
      {
        var fr := funcs[n - 1];
        KeepStep(funcs, n, pc, used);
        if fr.size < used {
          return true, n;
        } else if fr.size == used {
          var f := find(pc);
          if f.None? {
            return false, n;
          }
          if fr.func.name == f.value.name {
            return true, n;
          }
        }
        ghost var b := breakpoints.View();
        var cleared := AlterFrame(false, fr, g);
        if !cleared {
          return false, n;
        }
        ClearStep(old(breakpoints.View()), b, funcs, n, g);
        n := n - 1;
      }
      KeepNone(pc, used);
      assert funcs[..n] == [];
      ok := true;
    }

    lemma ClearNone(b: Table, st: seq<Frame>, g: Gid)
      ensures ClearFrames(Prog(), b, st[|st|..], g) == Some(b) && st[..|st|] == st
    {
    }

    lemma KeepNone(pc: Addr, used: nat)
      ensures KeepLen(Prog(), [], pc, used) == Some(0)
    {
    }

    lemma KeepStep(st: seq<Frame>, n: nat, pc: Addr, used: nat)
      requires 0 < n <= |st|
      ensures var here := KeepLen(Prog(), st[..n], pc, used);
              if st[n - 1].size < used then here == Some(n)
              else if st[n - 1].size == used && find(pc).Some? && st[n - 1].func.name == find(pc).value.name
              then here == Some(n)
              else if st[n - 1].size == used && find(pc).None? then here == None
              else here == KeepLen(Prog(), st[..n - 1], pc, used)
    {
      assert st[..n][..n - 1] == st[..n - 1];
    }

    lemma ClearStep(b0: Table, b: Table, st: seq<Frame>, n: nat, g: Gid)
      requires 0 < n <= |st|
      requires ClearFrames(Prog(), b0, st[n..], g) == Some(b)
      requires FrameAddrs(Prog(), st[n - 1]).Some?
      ensures ClearFrames(Prog(), b0, st[n - 1..], g)
              == Some(Alter(false, b, FrameAddrs(Prog(), st[n - 1]).value, g))
      ensures AlterHints(false, hints, FrameAddrs(Prog(), st[n - 1]).value[1..]) == hints
    {
      assert st[n - 1..] == [st[n - 1]] + st[n..];
      ClearFramesBottom(Prog(), b0, st[n - 1], st[n..], g);
    }

    /** The fields other than the breakpoints and hints are as the world says, with st for g's stack and other
        goroutines traced. */
    ghost predicate Rest(g: Gid, st: seq<Frame>, tracing: multiset<Gid>)
      reads this`w, this`log, this`statusStore, points, goRoutines
    {
      && w.level == traceLevel && w.log == log
      && w.starts == Members(points.startAddressList) && w.ends == Members(points.endAddressList)
      && tracing == multiset(goRoutines.ids)
      && forall h :: Status(h) == if h == g then st else Of(w, h).stack
    }

    lemma GoodRest(g: Gid)
      requires Good()
      ensures Rest(g, Of(w, g).stack, w.tracing) && Status(g) == Of(w, g).stack && WellFormed(Prog()) && CacheOk()
      ensures Physical() && Inv(Prog(), w, None)
      ensures w.bps == breakpoints.View() && w.hints == hints && NoEmpty(breakpoints.View())
    {
    }

    method FinishUnwind(g: Gid, pc: Addr, used: nat, n: nat)
      requires Rest(g, Of(w, g).stack, w.tracing) && WellFormed(Prog()) && CacheOk() && Physical()
      requires Inv(Prog(), w, None)
      requires g in w.tracing
      requires n <= |Status(g)| && w.hints == hints && KeepLen(Prog(), Status(g), pc, used) == Some(n)
      requires ClearFrames(Prog(), w.bps, Status(g)[n..], g) == Some(breakpoints.View())
      modifies this
      ensures Good() && history == old(history) && unread == old(unread)
      ensures Unwind(Prog(), old(w), g, pc, used) == Some(w)
      ensures Of(w, g).stack == old(Status(g)[..n])
    {
      hide Process.Weak, ViewOf, NoEmpty, ClearFrames, KeepLen, Inv, WellFormed, Good;
      hide Members, Physical, CacheOk, Unwind;
      UnwindIs(Prog(), w, g, pc, used, n, breakpoints.View());
      UnwindKeeps(Prog(), w, g, pc, used, None);
      statusStore := statusStore[g := Status(g)[..n]];
      Become(Unwind(Prog(), w, g, pc, used).value);
    }

    method UnwindFunctions(g: Gid, pc: Addr, used: nat)
      returns (ok: bool, remaining: seq<Frame>, unwinded: seq<Frame>)
      requires Good() && g in w.tracing
      modifies this, breakpoints, process, process.client`mem, process.client`wire
      ensures Physical()
      ensures history == old(history) && unread == old(unread)
      ensures ok ==> Good() && process.Holes() <= old(process.Holes())
      ensures ok ==> Unwind(Prog(), old(w), g, pc, used) == Some(w)
      ensures ok ==> remaining == Of(w, g).stack && remaining + unwinded == Of(old(w), g).stack
      ensures if ok then Refusals() == old(Refusals()) else Refusals() >= old(Refusals())
      ensures !ok ==> Refusals() > old(Refusals()) || Unwind(Prog(), old(w), g, pc, used).None?
    {
      hide *;
      GoodRest(g);
      GoodFacts(g);
      var n;
      var funcs := Status(g);
      UnwindNeeds(Prog(), w, g, pc, used);
      ok, n := DoUnwindFunctions(g, pc, used);
      if !ok {
        return false, [], [];
      }
      remaining, unwinded := funcs[..n], funcs[n..];
      FinishUnwind(g, pc, used, n);
      GoodRest(g);
    }

    ghost method FinishPush(fr: Frame, g: Gid)
      requires Rest(g, Of(w, g).stack + [fr], w.tracing) && WellFormed(Prog()) && CacheOk() && Physical()
      requires Inv(Prog(), w, None)
      requires g in w.tracing
      requires find(fr.func.start) == Some(fr.func) && Ordered(Status(g)) && FrameAddrs(Prog(), fr).Some?
      requires breakpoints.View() == Alter(true, w.bps, FrameAddrs(Prog(), fr).value, g)
      requires hints == AlterHints(true, w.hints, FrameAddrs(Prog(), fr).value[1..])
      modifies this`w
      ensures Good()
      ensures Push(Prog(), old(w), g, fr) == Some(w)
    {
      hide Process.Weak, ViewOf, NoEmpty, Inv, WellFormed, Good, Members, Physical, CacheOk, Push, Ordered;
      PushIs(Prog(), w, g, fr);
      PushKeeps(Prog(), w, g, fr, None);
      Become(Push(Prog(), w, g, fr).value);
    }

    method SetStatus(g: Gid, st: seq<Frame>)
      requires Rest(g, Of(w, g).stack, w.tracing)
      modifies this`statusStore
      ensures Rest(g, st, w.tracing) && Status(g) == st
    {
      statusStore := statusStore[g := st];
    }

    method AddFunction(fr: Frame, g: Gid) returns (ok: bool)
      requires Good() && g in w.tracing
      requires find(fr.func.start) == Some(fr.func) && Ordered(Status(g) + [fr])
      modifies this, breakpoints, process, process.client`mem, process.client`wire
      ensures Physical()
      ensures history == old(history) && unread == old(unread)
      ensures ok ==> Good() && process.Holes() <= old(process.Holes())
      ensures ok ==> Push(Prog(), old(w), g, fr) == Some(w)
      ensures if ok then Refusals() == old(Refusals()) else Refusals() >= old(Refusals())
      ensures !ok ==> Refusals() > old(Refusals()) || Push(Prog(), old(w), g, fr).None?
    {
      hide *;
      GoodRest(g);
      PushNeeds(Prog(), w, g, fr);
      SetStatus(g, Status(g) + [fr]);
      ok := AlterFrame(true, fr, g);
      if ok {
        FinishPush(fr, g);
        GoodRest(g);
      }
    }

    method PrintLine(g: Gid, depth: int, entering: bool, name: string)
      requires Good()
      modifies this
      ensures Good() && history == old(history) && unread == old(unread) && statusStore == old(statusStore)
      ensures w == old(w).(log := old(w).log + [Line(g, depth, entering, name)])
    {
      hide Process.Weak, ViewOf, Inv, WellFormed, Good, Members, Physical, CacheOk;
      Fields();
      log := log + [Line(g, depth, entering, name)];
      ghost var w2 := w.(log := log);
      PrintKeeps(Prog(), w, w2, None);
      assert forall h :: Of(w2, h) == Of(w, h);
      Become(w2);
    }

    method StepOver(thread: ThreadId, addr: Addr) returns (ok: bool)
      requires Good()
      modifies process.client
      ensures Good()
      ensures ok ==> process.Holes() <= old(process.Holes())
      ensures ok ==> process.Stepped(thread, addr)
      ensures ok ==> Made(process.client.executed, |old(process.client.executed)|, thread, addr)
      ensures old(process.client.executed) <= process.client.executed
      ensures Did(old(process.Holes()), old(process.client.executed), old(Refusals()), ok,
                  StepRun(process.breakpoints.Keys, thread, addr, old(process.client.wire.script)))
      ensures Refusals() == old(Refusals()) + if ok then 0 else 1
    {
      hide Process.Weak, Process.Holes, ViewOf, Inv, WellFormed, Members, CacheOk, StepRun;
      ok := process.SingleStep(thread, addr);
    }

    method StackFrameAt(pc: Addr) returns (f: Option<Func>)
      requires Good()
      modifies process.client`wire
      ensures Good() && process.Holes() == old(process.Holes())
      ensures f.Some? ==> find(pc) == f
      ensures if f.Some? then Refusals() == old(Refusals()) else Refusals() >= old(Refusals())
      ensures f.None? ==> Refusals() > old(Refusals()) || find(pc).None?
    {
      hide Process.Weak, Process.Holes, ViewOf, Inv, WellFormed, Members, CacheOk;
      f := find(pc);
      if f.Some? {
        var r := process.client.Ask();
        if r.None? {
          f := None;
        }
      }
    }

    /** The stack is unwound to the caller and the frame of the function pushed. */
    method UnwindAndPush(f: Func, i: Info, ret: Addr) returns (ok: bool, depth: nat)
      requires Good() && i.id in w.tracing && find(i.pc) == Some(f)
      modifies this, breakpoints, process, process.client`mem, process.client`wire
      ensures Physical()
      ensures history == old(history) && unread == old(unread)
      ensures ok ==> Good() && process.Holes() <= old(process.Holes())
      ensures ok ==> AtCall(Prog(), old(w), i, ret) == Some(Print(Prog(), w, i.id, depth, true, f))
      ensures if ok then Refusals() == old(Refusals()) else Refusals() >= old(Refusals())
      ensures !ok ==> Refusals() > old(Refusals()) || AtCall(Prog(), old(w), i, ret).None?
    {
      hide *;
      GoodFacts(i.id);
      GoodRest(i.id);
      AtCallNeeds(Prog(), w, i, ret);
      FoundIs(i.pc);
      depth := 0;
      var unwound, remaining, unwinded := UnwindFunctions(i.id, i.pc, i.used);
      if !unwound {
        return false, depth;
      }
      ghost var w1 := w;
      GoodFacts(i.id);
      depth := |remaining| + 1;
      var fr := Frame(f, ret, i.used, depth < traceLevel);
      CallOrdered(Prog(), old(w), i.id, i.pc, i.used, fr);
      UnwindFacts(Prog(), old(w), i.id, i.pc, i.used);
      FoundIs(f.start);
      ok := AddFunction(fr, i.id);
      if ok {
        AtCallIs(Prog(), old(w), i, ret, f, w1, w);
      }
    }

    lemma FoundIs(pc: Addr)
      ensures Prog().find(pc) == find(pc) && forall name :: Prog().printable(name) == printable(name)
    {
    }

    /** A function was called: its frame is pushed, and perhaps its line printed. */
    method HandleTrapAtFunctionCall(thread: ThreadId, addr: Addr, i: Info, ret: Addr) returns (ok: bool)
      requires Good() && i.id in w.tracing
      modifies this, breakpoints, process, process.client
      ensures Physical()
      ensures history == old(history) && unread == old(unread)
      ensures ok ==> Good() && process.Holes() <= old(process.Holes())
      ensures ok ==> process.Stepped(thread, addr)
      ensures old(process.client.executed) <= process.client.executed
      ensures ok ==> Made(process.client.executed, |old(process.client.executed)|, thread, addr)
      ensures ok ==> AtCall(Prog(), old(w), i, ret) == Some(w)
      ensures if ok then Refusals() == old(Refusals()) else Refusals() >= old(Refusals())
      ensures !ok ==> Refusals() > old(Refusals()) || AtCall(Prog(), old(w), i, ret).None?
    {
      hide *;
      AtCallNeeds(Prog(), w, i, ret);
      FoundIs(i.pc);
      var f := StackFrameAt(i.pc);
      GoodPhysical();
      if f.None? {
        return false;
      }
      var pushed, depth := UnwindAndPush(f.value, i, ret);
      if !pushed {
        return false;
      }
      PrintIs(Prog(), w, i.id, depth, f.value);
      FoundIs(i.pc);
      GoodFacts(i.id);
      if depth <= traceLevel && printable(f.value.name) {
        PrintLine(i.id, depth, true, f.value.name);
      }
      ok := StepOver(thread, addr);
      GoodPhysical();
    }

    lemma GoodPhysical()
      requires Good()
      ensures Physical()
    {
    }

    ghost method FinishEnter(g: Gid, pc: Addr)
      requires Rest(g, Of(w, g).stack, w.tracing + multiset{g}) && WellFormed(Prog()) && CacheOk() && Physical()
      requires Inv(Prog(), w, None)
      requires CallsAt(Prog(), pc).Some?
      requires breakpoints.View() == Alter(true, w.bps, CallsAt(Prog(), pc).value, g)
      requires hints == AlterHints(true, w.hints, CallsAt(Prog(), pc).value)
      modifies this`w
      ensures Good() && Enter(Prog(), old(w), g, pc) == Some(w)
    {
      hide Process.Weak, ViewOf, NoEmpty, Inv, WellFormed, Good, Members, Physical, CacheOk, CallsAt;
      EnterKeeps(Prog(), w, g, pc, None);
      Become(Enter(Prog(), w, g, pc).value);
    }

    method AddTracing(g: Gid)
      requires Rest(g, Of(w, g).stack, w.tracing)
      modifies goRoutines
      ensures Rest(g, Of(w, g).stack, w.tracing + multiset{g})
    {
      goRoutines.Add(g);
    }

    method RemoveTracing(g: Gid) returns (tracing: bool)
      requires Rest(g, Of(w, g).stack, w.tracing)
      modifies goRoutines
      ensures Rest(g, Of(w, g).stack, w.tracing - multiset{g})
      ensures tracing <==> w.tracing[g] > 1
    {
      goRoutines.Remove(g);
      tracing := goRoutines.Tracing(g);
    }

    method EnterTracepoint(i: Info) returns (ok: bool)
      requires Good()
      modifies this, breakpoints, process, process.client`mem, process.client`wire, goRoutines
      ensures Physical() && history == old(history) && unread == old(unread)
      ensures ok ==> Good() && process.Holes() <= old(process.Holes())
      ensures ok ==> Enter(Prog(), old(w), i.id, i.pc) == Some(w)
      ensures if ok then Refusals() == old(Refusals()) else Refusals() >= old(Refusals())
      ensures !ok ==> Refusals() > old(Refusals()) || Enter(Prog(), old(w), i.id, i.pc).None?
    {
      hide *;
      EnterNeeds(Prog(), w, i.id, i.pc);
      GoodRest(i.id);
      ok := AlterCallInstBreakpoints(true, i.id, i.pc);
      if ok {
        AddTracing(i.id);
        FinishEnter(i.id, i.pc);
        GoodPhysical();
      }
    }

    ghost method FinishLeave(g: Gid)
      requires Rest(g, Of(w, g).stack, w.tracing - multiset{g}) && WellFormed(Prog()) && CacheOk() && Physical()
      requires Inv(Prog(), w, None) && hints == w.hints
      requires breakpoints.View() == if w.tracing[g] > 1 then w.bps else ClearAllFor(w.bps, g)
      modifies this`w
      ensures Good() && Leave(old(w), g) == w
    {
      hide Process.Weak, ViewOf, NoEmpty, Inv, WellFormed, Good, Members, Physical, CacheOk, Leave, ClearAllFor;
      LeaveKeeps(Prog(), w, g, None);
      LeaveIs(w, g);
      Become(Leave(w, g));
    }

    method ExitTracepoint(g: Gid) returns (ok: bool)
      requires Good()
      modifies this, breakpoints, process, process.client`mem, process.client`wire, goRoutines
      ensures Physical() && history == old(history) && unread == old(unread)
      ensures ok ==> Good() && process.Holes() <= old(process.Holes())
      ensures ok ==> Leave(old(w), g) == w
      ensures Refusals() == old(Refusals()) + if ok then 0 else 1
    {
      hide *;
      GoodRest(g);
      var tracing := RemoveTracing(g);
      ok := true;
      if !tracing {
        ok := ClearAll(g);
      }
      if ok {
        FinishLeave(g);
        GoodPhysical();
      }
    }

    method ClearAll(g: Gid) returns (ok: bool)
      requires Physical()
      modifies breakpoints, process, process.client`mem, process.client`wire
      ensures Physical()
      ensures ok ==> breakpoints.View() == ClearAllFor(old(breakpoints.View()), g)
      ensures ok ==> process.Holes() <= old(process.Holes())
      ensures Refusals() == old(Refusals()) + if ok then 0 else 1
    {
      ok := breakpoints.ClearAllByGoRoutineID(g);
    }

    method UpdateTracingStatus(i: Info, addr: Addr) returns (ok: bool)
      requires Good()
      modifies this, breakpoints, process, process.client`mem, process.client`wire, goRoutines
      ensures Physical() && history == old(history) && unread == old(unread)
      ensures ok ==> Good() && process.Holes() <= old(process.Holes())
      ensures ok ==> UpdateTracing(Prog(), old(w), i, addr) == Some(w)
      ensures if ok then Refusals() == old(Refusals()) else Refusals() >= old(Refusals())
      ensures !ok ==> Refusals() > old(Refusals()) || UpdateTracing(Prog(), old(w), i, addr).None?
    {
      hide Process.Weak, Process.Holes, ViewOf, NoEmpty, Inv, WellFormed, Physical, CacheOk, Enter, Leave;
      var starting := points.IsStartAddress(addr);
      if starting {
        var entered := EnterTracepoint(i);
        if !entered {
          return false;
        }
      }
      var ending := points.IsEndAddress(addr);
      if ending {
        ok := ExitTracepoint(i.id);
        return;
      }
      ok := true;
    }

    ghost method FinishWatch(i: Info)
      requires Rest(i.id, Of(w, i.id).stack, w.tracing) && WellFormed(Prog()) && CacheOk() && Physical()
      requires Inv(Prog(), w, None) && i.id in w.tracing && i.nextDefer != 0
      requires breakpoints.View() == SetFor(w.bps, i.nextDefer, i.id)
      requires hints == w.hints[i.nextDefer := DeferredFunc]
      modifies this`w
      ensures Good() && WatchDeferred(old(w), i) == w
    {
      hide Process.Weak, ViewOf, NoEmpty, Inv, WellFormed, Good, Members, Physical, CacheOk, SetFor;
      WatchKeeps(Prog(), w, i, None);
      Become(WatchDeferred(w, i));
    }

    method SetBreakpointToDeferredFunc(i: Info) returns (ok: bool)
      requires Good() && i.id in w.tracing
      modifies this, breakpoints, process, process.client`mem, process.client`wire
      ensures Physical() && history == old(history) && unread == old(unread)
      ensures ok ==> Good() && process.Holes() <= old(process.Holes())
      ensures ok ==> WatchDeferred(old(w), i) == w
      ensures Refusals() == old(Refusals()) + if ok then 0 else 1
    {
      hide Process.Weak, Process.Holes, ViewOf, NoEmpty, Inv, WellFormed, Good, Rest, CacheOk, SetFor;
      GoodRest(i.id);
      if i.nextDefer == 0 {
        return true;
      }
      ok := breakpoints.SetConditional(i.nextDefer, i.id);
      if ok {
        hints := hints[i.nextDefer := DeferredFunc];
        FinishWatch(i);
        GoodPhysical();
      }
    }

    lemma Returned(i: Info, before: World, remaining: seq<Frame>, unwinded: seq<Frame>)
      requires Good() && ShadowOk(Prog(), Of(before, i.id))
      requires TopSize(Of(before, i.id).stack) > i.used && Unwind(Prog(), before, i.id, i.pc, i.used) == Some(w)
      requires remaining == Of(w, i.id).stack && remaining + unwinded == Of(before, i.id).stack
      ensures unwinded != [] && Of(before, i.id).stack[|remaining|] == unwinded[0]
      ensures find(unwinded[0].func.start) == Some(unwinded[0].func)
    {
      hide Good, ClearFrames, KeepLen;
      ReturnDropsAFrame(Prog(), before, i.id, i.pc, i.used);
      assert FrameOk(Prog(), Of(before, i.id).stack[|remaining|]);
    }

    /** Frames above the stack pointer are gone; the lowest of them is the function that returned. */
    method HandleTrapAfterFunctionReturn(thread: ThreadId, i: Info) returns (ok: bool)
      requires Good() && i.id in w.tracing && TopSize(Status(i.id)) > i.used
      modifies this, breakpoints, process, process.client`mem, process.client`wire
      ensures Physical() && history == old(history) && unread == old(unread)
      ensures ok ==> Good() && process.Holes() <= old(process.Holes())
      ensures ok ==> AfterReturn(Prog(), old(w), i) == Some(w)
      ensures if ok then Refusals() == old(Refusals()) else Refusals() >= old(Refusals())
      ensures !ok ==> Refusals() > old(Refusals()) || AfterReturn(Prog(), old(w), i).None?
    {
      hide Process.Weak, Process.Holes, ViewOf, NoEmpty, Inv, WellFormed, Good, Rest, Physical, CacheOk;
      hide Unwind, KeepLen, AfterReturn, ShadowOk, WatchDeferred;
      GoodFacts(i.id);
      AfterReturnNeeds(Prog(), w, i);
      var unwound, remaining, unwinded := UnwindFunctions(i.id, i.pc, i.used);
      if !unwound {
        return false;
      }
      ghost var w1 := w;
      Returned(i, old(w), remaining, unwinded);
      GoodFacts(i.id);
      UnwindFacts(Prog(), old(w), i.id, i.pc, i.used);
      var returnedFunc := unwinded[0].func;
      var depth := |remaining| + 1;
      var prev := StackFrameAt(returnedFunc.start);
      GoodPhysical();
      if prev.None? {
        return false;
      }
      if depth <= traceLevel && prev.value.name == "runtime.deferproc" {
        var set' := SetBreakpointToDeferredFunc(i);
        if !set' {
          return false;
        }
      }
      if depth <= traceLevel && printable(returnedFunc.name) {
        PrintLine(i.id, depth, false, prev.value.name);
      }
      AfterReturnIs(Prog(), old(w), i, w1, returnedFunc);
      GoodPhysical();
      ok := true;
    }

    /** The thread is stepped over the call instruction, and then its goroutine is described again. */
    method HandleTrapBeforeFunctionCall(thread: ThreadId, i: Info, after: Info, ret: Addr) returns (ok: bool)
      requires Good()
      modifies this, breakpoints, process, process.client, goRoutines
      ensures Physical() && history == old(history) && unread == old(unread)
      ensures ok ==> Good() && process.Holes() <= old(process.Holes())
      ensures ok ==> process.Stepped(thread, after.pc)
      ensures old(process.client.executed) <= process.client.executed
      ensures ok ==> && |old(process.client.executed)| < |process.client.executed|
                     && Made(process.client.executed[..|process.client.executed| - 1], |old(process.client.executed)|,
                             thread, Wrap(i.pc - 1))
      ensures ok ==> BeforeCall(Prog(), old(w), after, ret) == Some(w)
      ensures if ok then Refusals() == old(Refusals()) else Refusals() >= old(Refusals())
      ensures !ok ==> Refusals() > old(Refusals()) || BeforeCall(Prog(), old(w), after, ret).None?
    {
      hide Process.Weak, Process.Holes, ViewOf, NoEmpty, Inv, WellFormed, Good;
      hide Physical, CacheOk, UpdateTracing, AtCall;
      hide Made, Process.Stepped, InfoRun, StepRun, Process.Did;
      var stepped := StepOver(thread, Wrap(i.pc - 1));
      GoodPhysical();
      if !stepped {
        return false;
      }
      ghost var made := process.client.executed;
      var seen := Describe(thread, after);
      GoodPhysical();
      if !seen {
        return false;
      }
      var updated := UpdateTracingStatus(after, after.pc);
      if !updated {
        return false;
      }
      GoodTracing();
      ghost var m := |process.client.executed|;
      var tracing := goRoutines.Tracing(after.id);
      if !tracing {
        ok := StepOver(thread, after.pc);
        GoodPhysical();
      } else {
        ok := HandleTrapAtFunctionCall(thread, after.pc, after, ret);
      }
      if ok {
        MadeEarlier(process.client.executed, |made|, m, thread, after.pc);
        MadeBefore(made, process.client.executed, |old(process.client.executed)|, thread, Wrap(i.pc - 1), after.pc);
      }
    }

    lemma MadeBefore(s: seq<Executed>, t: seq<Executed>, n: nat, thread: ThreadId, addr: Addr, next: Addr)
      requires s <= t && Made(s, n, thread, addr) && Made(t, |s|, thread, next)
      ensures |t| > |s| && Made(t[..|t| - 1], n, thread, addr)
    {
      MadeStays(s, t[..|t| - 1], n, thread, addr);
    }

    lemma GoodTracing()
      requires Good()
      ensures w.tracing == multiset(goRoutines.ids)
    {
    }

    /** Whether the goroutine can be read is a matter of the replies. */
    method Describe(thread: ThreadId, i: Info) returns (seen: bool)
      requires Good()
      modifies process.client
      ensures Good()
      ensures seen ==> process.Holes() <= old(process.Holes())
      ensures Refusals() == old(Refusals()) + if seen then 0 else 1
      ensures old(process.client.executed) <= process.client.executed
      ensures Did(old(process.Holes()), old(process.client.executed), old(Refusals()), seen,
                  InfoRun(process.breakpoints.Keys, thread, i.asks, old(process.client.wire.script)))
    {
      hide Process.Weak, Process.Holes, ViewOf, Inv, WellFormed, Members, CacheOk, InfoRun;
      var r := process.CurrentGoRoutineInfo(thread, i, i.asks);
      seen := r.Some?;
    }

    /** What a call did to the holes and the replies is what the outcome says. */
    ghost predicate Did(holes: set<Addr>, executed: seq<Executed>, refusals: nat, ok: bool, o: Outcome)
      reads process, process.client
    {
      process.Did(holes, executed, refusals, ok, o)
    }

    ghost method FinishDeferred(i: Info)
      requires Rest(i.id, Of(w, i.id).stack, w.tracing) && WellFormed(Prog()) && CacheOk() && Physical()
      requires Inv(Prog(), w, None) && i.id in w.tracing && hints == w.hints
      requires breakpoints.View() == ClearFor(w.bps, Wrap(i.pc - 1), i.id)
      modifies this`w
      ensures Good()
      ensures var sh := Of(old(w), i.id);
              w == With(old(w), i.id, sh.(owed := sh.owed - multiset{Wrap(i.pc - 1)})).(bps := breakpoints.View())
    {
      hide Process.Weak, ViewOf, NoEmpty, Inv, WellFormed, Good, Members, Physical, CacheOk, ClearFor;
      var at, sh := Wrap(i.pc - 1), Of(w, i.id);
      DeferredDone(Prog(), w, i.id, at, None);
      Become(With(w, i.id, sh.(owed := sh.owed - multiset{at})).(bps := ClearFor(w.bps, at, i.id)));
    }

    method HandleTrapAtDeferredFuncCall(thread: ThreadId, i: Info, ret: Addr) returns (ok: bool)
      requires Good() && i.id in w.tracing
      modifies this, breakpoints, process, process.client
      ensures Physical() && history == old(history) && unread == old(unread)
      ensures ok ==> Good() && process.Holes() <= old(process.Holes())
      ensures ok ==> process.Stepped(thread, Wrap(i.pc - 1))
      ensures old(process.client.executed) <= process.client.executed
      ensures ok ==> Made(process.client.executed, |old(process.client.executed)|, thread, Wrap(i.pc - 1))
      ensures ok ==> AtDeferredFunc(Prog(), old(w), i, ret) == Some(w)
      ensures if ok then Refusals() == old(Refusals()) else Refusals() >= old(Refusals())
      ensures !ok ==> Refusals() > old(Refusals()) || AtDeferredFunc(Prog(), old(w), i, ret).None?
    {
      hide Process.Weak, Process.Holes, ViewOf, NoEmpty, Inv, WellFormed, Good, Rest, CacheOk, Unwind, AtCall, ClearFor;
      hide Made, Process.Stepped;
      if i.panicking && i.handler.Some? {
        var unwound, remaining, unwinded := UnwindFunctions(i.id, i.pc, i.handler.value);
        if !unwound {
          return false;
        }
        UnwindFacts(Prog(), old(w), i.id, i.pc, i.handler.value);
      }
      ghost var w1 := w;
      var called := HandleTrapAtFunctionCall(thread, Wrap(i.pc - 1), i, ret);
      if !called {
        return false;
      }
      CallFacts(Prog(), w1, i, ret);
      GoodRest(i.id);
      ok := breakpoints.ClearConditional(Wrap(i.pc - 1), i.id);
      if ok {
        FinishDeferred(i);
        GoodPhysical();
      }
    }

    // ----- the main loop

    /** The state is the one a run of the state machine reaches by the steps done so far. A breakpoint that is
        missing from memory was lost at a trap that was treated as one of a system routine because its
        goroutine could not be read. */
    ghost predicate Reached()
      reads this, breakpoints, points, goRoutines, process, process.client`mem, process.client`executed
    {
      && Good()
      && Run(Prog(), Initial(traceLevel), history) == Some(w)
      && (forall a :: a in process.Holes() ==> Missed(unread, a))
      && |unread| == Systems(history)
    }

    lemma Fresh()
      requires Synced() && CacheOk() && Physical() && process.Holes() == {} && history == [] && unread == []
      requires w == Initial(traceLevel)
      ensures WellFormed(Prog()) ==> Reached()
    {
      if WellFormed(Prog()) {
        InitialInv(Prog(), traceLevel, None);
      }
    }

    /** What every state between two rounds of the main loop satisfies, said of the fields themselves: the
        log is well nested, a patched address is a trace point or some traced goroutine waits there, memory
        is the original code with a trap at each of them, except where one was lost at a trap whose goroutine
        could not be read, and every instruction that a thread was made to step was original code. */
    lemma ReachedFacts(addr: Addr)
      requires Reached()
      ensures WellNested(log) && DepthsWithin(log, traceLevel)
      ensures addr in process.breakpoints ==>
                || addr in points.startAddressList + points.endAddressList
                || exists g :: && g in goRoutines.ids && addr in breakpoints.current
                               && g in breakpoints.current[addr].associations
      ensures process.breakpoints.Keys == breakpoints.current.Keys
      ensures !Missed(unread, addr) ==>
                Fetch(process.client.mem, addr) == Fetch(Patched(process.original, breakpoints.current.Keys), addr)
      ensures (forall a :: !Missed(unread, a)) ==>
                process.client.mem == Patched(process.original, breakpoints.current.Keys)
      ensures Trapped(System) !in history ==> forall a :: !Missed(unread, a)
      ensures forall e :: e in process.client.executed ==> e.byte == Fetch(process.original, e.addr)
    {
      hide Run, Inv, StackOpen;
      LogIsNested(Prog(), traceLevel, history);
      NoLeakedBreakpoint(Prog(), traceLevel, history, addr);
      if addr in process.breakpoints && addr !in w.starts + w.ends {
        var g :| g in w.tracing && Assoc(w.bps, addr, g) > 0;
        assert g in goRoutines.ids && g in breakpoints.current[addr].associations;
      }
      NoSystems(history);
      if forall a :: !Missed(unread, a) {
        assert process.Holes() == {};
        process.StrictMemory();
      }
    }

    method HandleTrappedSystemRoutine(thread: ThreadId) returns (ok: bool)
      requires Good()
      modifies process.client
      ensures Good()
      ensures ok ==> process.Holes() <= old(process.Holes())
      ensures ok ==> var r := Head(old(process.client.wire.script));
                     r.Done? && process.Stepped(thread, Wrap(r.value as int - 1))
      ensures Did(old(process.Holes()), old(process.client.executed), old(Refusals()), ok,
                  SystemRun(process.breakpoints.Keys, thread, old(process.client.wire.script)))
      ensures Refusals() == old(Refusals()) + if ok then 0 else 1
    {
      hide Process.Weak, Process.Holes, ViewOf, Inv, WellFormed, Members, CacheOk, StepRun;
      var threadInfo := process.client.Ask();
      if threadInfo.None? {
        return false;
      }
      ok := StepOver(thread, Wrap(threadInfo.value as int - 1));
    }

    /** The trap of the thread, when its goroutine cannot be read. */
    ghost function Unseen(thread: ThreadId, asks: nat): Unread
      reads process, process.client`wire
    {
      Unread(process.breakpoints, thread, asks, process.client.wire.script)
    }

    /** One trapped thread. When the goroutine cannot be read, which is a matter of the replies, the trap is
        treated like one of a system routine. A handled trap makes a hole exactly where a breakpoint is left
        lifted on the way to that. */
    method HandleTrapEventOfThread(thread: ThreadId, t: Trap) returns (ok: bool, seen: bool)
      requires Good() && t.User?
      modifies this, breakpoints, process, process.client, goRoutines
      ensures Physical() && history == old(history)
      ensures ok ==> Good() && HandleTrap(Prog(), old(w), if seen then t else System) == Some(w)
      ensures seen == InfoRun(old(process.breakpoints).Keys, thread, t.info.asks, old(process.client.wire.script)).ok
      ensures !seen ==>
                ok == UnseenRun(old(process.breakpoints).Keys, thread, t.info.asks, old(process.client.wire.script)).ok
      ensures ok ==> unread == old(unread) + if seen then [] else [old(Unseen(thread, t.info.asks))]
      ensures ok ==> forall a :: a !in old(process.Holes()) ==>
                                   (a in process.Holes() <==> old(Unseen(thread, t.info.asks)).Loses(a))
      ensures ok && seen ==> process.Holes() <= old(process.Holes())
      ensures ok ==> exists addr :: process.Stepped(thread, addr)
      ensures ok && seen && t.info.id != 0 ==>
                && (process.Stepped(thread, Wrap(t.info.pc - 1)) || process.Stepped(thread, t.after.pc))
                && Made(process.client.executed, |old(process.client.executed)|, thread, Wrap(t.info.pc - 1))
      ensures if ok then Refusals() == old(Refusals()) + (if seen then 0 else 1) else Refusals() >= old(Refusals())
      ensures !ok ==> Refusals() > old(Refusals()) || HandleTrap(Prog(), old(w), t).None?
    {
      hide Process.Weak, Process.Holes, Process.Stepped, ViewOf, NoEmpty, Inv, WellFormed, Good, Physical, CacheOk;
      hide InfoRun, UnseenRun, SystemRun, After, Swallowed, HandleTrap;
      ghost var script, asks := process.client.wire.script, t.info.asks;
      ghost var holes, saved := process.Holes(), process.breakpoints;
      UnseenAfter(holes, saved, thread, asks, script);
      forall a
        ensures InfoRun(saved.Keys, thread, asks, script).ok ==> !Swallowed(saved.Keys, thread, asks, script, a)
        ensures var o := UnseenRun(saved.Keys, thread, asks, script);
                !InfoRun(saved.Keys, thread, asks, script).ok && o.ok && a !in holes ==>
                  (a in After(holes, o.acts, saved) <==> Unread(saved, thread, asks, script).Loses(a))
      {
        LostExactly(holes, saved, thread, asks, script, a);
      }
      seen := Describe(thread, t.info);
      if seen {
        ok := Seen(thread, t);
      } else {
        ghost var trap, regs := old(Unseen(thread, asks)), Head(process.client.wire.script);
        SystemIsIdle(w);
        ok := HandleTrappedSystemRoutine(thread);
        GoodPhysical();
        unread := unread + if ok then [trap] else [];
        assert ok ==> process.Stepped(thread, Wrap(regs.value as int - 1));
      }
    }

    lemma SystemIsIdle(v: World)
      ensures HandleTrap(Prog(), v, System) == Some(v)
    {
    }

    /** A trapped thread whose goroutine could be read. */
    method Seen(thread: ThreadId, t: Trap) returns (ok: bool)
      requires Good() && t.User?
      modifies this, breakpoints, process, process.client, goRoutines
      ensures Physical() && history == old(history) && unread == old(unread)
      ensures ok ==> Good() && HandleTrap(Prog(), old(w), t) == Some(w) && process.Holes() <= old(process.Holes())
      ensures ok ==> exists addr :: process.Stepped(thread, addr)
      ensures ok && t.info.id != 0 ==>
                && (process.Stepped(thread, Wrap(t.info.pc - 1)) || process.Stepped(thread, t.after.pc))
                && Made(process.client.executed, |old(process.client.executed)|, thread, Wrap(t.info.pc - 1))
      ensures if ok then Refusals() == old(Refusals()) else Refusals() >= old(Refusals())
      ensures !ok ==> Refusals() > old(Refusals()) || HandleTrap(Prog(), old(w), t).None?
    {
      hide *;
      var i := t.info;
      HandleTrapIs(w, t);
      if i.id == 0 {
        ok := HandleTrappedSystemRoutine(thread);
        GoodPhysical();
        return;
      }
      GoodFacts(i.id);
      var breakpointAddr := Wrap(i.pc - 1);
      var hit := breakpoints.Hit(breakpointAddr, i.id);
      if !hit {
        ok := StepOver(thread, breakpointAddr);
        GoodPhysical();
        return;
      }
      ok := HandleHit(thread, breakpointAddr, t);
    }

    /** What is left of a step of the state machine when the breakpoint is the goroutine's. */
    ghost function AtHit(before: World, t: Trap): Option<World>
      requires t.User?
    {
      var i, at := t.info, Wrap(t.info.pc - 1);
      var w1 :- UpdateTracing(Prog(), before, i, at);
      if i.id !in w1.tracing then Some(w1)
      else
        var w2 :- if TopSize(Of(w1, i.id).stack) > i.used then AfterReturn(Prog(), w1, i) else Some(w1);
        AtHint(w2, t)
    }

    ghost function AtHint(before: World, t: Trap): Option<World>
      requires t.User?
    {
      var at := Wrap(t.info.pc - 1);
      if at !in before.hints then Some(before)
      else if before.hints[at].Call? then BeforeCall(Prog(), before, t.after, t.ret)
      else AtDeferredFunc(Prog(), before, t.info, t.ret)
    }

    lemma HandleTrapIs(v: World, t: Trap)
      requires t.User?
      ensures HandleTrap(Prog(), v, t)
              == if t.info.id == 0 || !BreakpointTable.Hit(v.bps, Wrap(t.info.pc - 1), t.info.id) then Some(v)
                 else AtHit(v, t)
    {
      hide UpdateTracing, AfterReturn, BeforeCall, AtDeferredFunc;
    }

    method HandleHit(thread: ThreadId, addr: Addr, t: Trap) returns (ok: bool)
      requires Good() && t.User? && addr == Wrap(t.info.pc - 1)
      modifies this, breakpoints, process, process.client, goRoutines
      ensures Physical() && history == old(history) && unread == old(unread)
      ensures ok ==> Good() && process.Holes() <= old(process.Holes()) && AtHit(old(w), t) == Some(w)
      ensures ok ==> process.Stepped(thread, addr) || process.Stepped(thread, t.after.pc)
      ensures ok ==> Made(process.client.executed, |old(process.client.executed)|, thread, addr)
      ensures if ok then Refusals() == old(Refusals()) else Refusals() >= old(Refusals())
      ensures !ok ==> Refusals() > old(Refusals()) || AtHit(old(w), t).None?
    {
      hide Process.Weak, Process.Holes, Process.Stepped, ViewOf, NoEmpty, Inv, WellFormed, Good, Physical, CacheOk;
      hide UpdateTracing, AfterReturn, AtHint, StepRun, After;
      var i := t.info;
      var updated := UpdateTracingStatus(i, addr);
      if !updated {
        return false;
      }
      GoodTracing();
      var tracing := goRoutines.Tracing(i.id);
      if !tracing {
        ok := StepOver(thread, addr);
        GoodPhysical();
        return;
      }
      GoodFacts(i.id);
      ghost var w1 := w;
      if TopSize(Status(i.id)) > i.used {
        var returned := HandleTrapAfterFunctionReturn(thread, i);
        if !returned {
          return false;
        }
        AfterReturnTracing(Prog(), w1, i);
      }
      ok := Dispatch(thread, addr, t);
    }

    method Dispatch(thread: ThreadId, addr: Addr, t: Trap) returns (ok: bool)
      requires Good() && t.User? && addr == Wrap(t.info.pc - 1) && t.info.id in w.tracing
      modifies this, breakpoints, process, process.client, goRoutines
      ensures Physical() && history == old(history) && unread == old(unread)
      ensures ok ==> Good() && process.Holes() <= old(process.Holes()) && AtHint(old(w), t) == Some(w)
      ensures ok ==> process.Stepped(thread, addr) || process.Stepped(thread, t.after.pc)
      ensures ok ==> Made(process.client.executed, |old(process.client.executed)|, thread, addr)
      ensures if ok then Refusals() == old(Refusals()) else Refusals() >= old(Refusals())
      ensures !ok ==> Refusals() > old(Refusals()) || AtHint(old(w), t).None?
    {
      hide Process.Weak, Process.Holes, Process.Stepped, ViewOf, NoEmpty, Inv, WellFormed, Good, Physical, CacheOk;
      hide BeforeCall, AtDeferredFunc, StepRun, After;
      GoodFacts(t.info.id);
      if addr in hints {
        match hints[addr] {
          case Call => ok := HandleTrapBeforeFunctionCall(thread, t.info, t.after, t.ret);
          case DeferredFunc => ok := HandleTrapAtDeferredFuncCall(thread, t.info, t.ret);
        }
      } else {
        ok := StepOver(thread, addr);
        GoodPhysical();
      }
    }

    ghost method FinishPoint(addr: Addr, isStart: bool)
      requires PointAdded(addr, isStart) && WellFormed(Prog()) && CacheOk() && Physical() && Inv(Prog(), w, None)
      requires breakpoints.View() == SetAlways(w.bps, addr) && hints == w.hints
      requires addr !in if isStart then w.starts else w.ends
      modifies this`w
      ensures Good() && w == if isStart then AddStart(old(w), addr) else AddEnd(old(w), addr)
    {
      hide Process.Weak, ViewOf, NoEmpty, Inv, WellFormed, Good, Physical, CacheOk, SetAlways;
      var w2 := if isStart then AddStart(w, addr) else AddEnd(w, addr);
      AddPointKeeps(Prog(), w, addr, w2, None);
      assert forall g :: Of(w2, g) == Of(w, g);
      Become(w2);
    }

    /** The fields with one trace point more than the world has. */
    ghost predicate PointAdded(addr: Addr, isStart: bool)
      reads this`w, this`log, this`statusStore, points, goRoutines
    {
      && w.level == traceLevel && w.log == log
      && Members(points.startAddressList) == w.starts + (if isStart then {addr} else {})
      && Members(points.endAddressList) == w.ends + (if isStart then {} else {addr})
      && w.tracing == multiset(goRoutines.ids)
      && forall g :: Of(w, g).stack == Status(g)
    }

    method AddPoint(addr: Addr, isStart: bool) returns (ok: bool)
      requires Good()
      modifies this, breakpoints, process, process.client`mem, process.client`wire, points
      ensures Physical() && history == old(history) && unread == old(unread)
      ensures ok ==> Good() && process.Holes() <= old(process.Holes())
      ensures ok ==> w == if isStart then AddStart(old(w), addr) else AddEnd(old(w), addr)
      ensures Refusals() == old(Refusals()) + if ok then 0 else 1
    {
      hide *;
      GoodPhysical();
      var known;
      if isStart {
        known := points.IsStartAddress(addr);
      } else {
        known := points.IsEndAddress(addr);
      }
      if known {
        KnownPoint(addr, isStart);
        return true;
      }
      NewPoint(addr, isStart);
      ok := SetUnconditional(addr);
      if ok {
        Append(addr, isStart);
        FinishPoint(addr, isStart);
        GoodPhysical();
      }
    }

    lemma KnownPoint(addr: Addr, isStart: bool)
      requires Good() && addr in if isStart then points.startAddressList else points.endAddressList
      ensures w == if isStart then AddStart(w, addr) else AddEnd(w, addr)
    {
    }

    lemma NewPoint(addr: Addr, isStart: bool)
      requires Good() && addr !in if isStart then points.startAddressList else points.endAddressList
      ensures addr !in if isStart then w.starts else w.ends
      ensures w.bps == breakpoints.View() && w.hints == hints && PointsSynced()
      ensures WellFormed(Prog()) && CacheOk() && Physical() && Inv(Prog(), w, None)
    {
    }

    ghost predicate PointsSynced()
      reads this`w, this`log, this`statusStore, points, goRoutines
    {
      && w.level == traceLevel && w.log == log
      && Members(points.startAddressList) == w.starts
      && Members(points.endAddressList) == w.ends
      && w.tracing == multiset(goRoutines.ids)
      && forall g :: Of(w, g).stack == Status(g)
    }

    method SetUnconditional(addr: Addr) returns (ok: bool)
      requires Physical()
      modifies breakpoints, process, process.client`mem, process.client`wire
      ensures Physical() && process.Holes() == old(process.Holes())
      ensures ok ==> breakpoints.View() == SetAlways(old(breakpoints.View()), addr)
      ensures Refusals() == old(Refusals()) + if ok then 0 else 1
    {
      ok := breakpoints.Set(addr);
    }

    method Append(addr: Addr, isStart: bool)
      requires PointsSynced()
      modifies points
      ensures PointAdded(addr, isStart)
    {
      if isStart {
        points.startAddressList := points.startAddressList + [addr];
      } else {
        points.endAddressList := points.endAddressList + [addr];
      }
    }

    lemma ReachedPhysical()
      requires Reached()
      ensures Physical() && Run(Prog(), Initial(traceLevel), history).Some?
    {
      hide Run;
      GoodPhysical();
    }

    /** Both queues are drained, each in its order; which of two waiting requests is served first is not
        determined. */
    method SetPendingTracePoints(pendingStarts: seq<Addr>, pendingEnds: seq<Addr>)
      returns (ok: bool, ghost added: seq<Step>)
      requires Reached()
      modifies this, breakpoints, process, process.client`mem, process.client`wire, points
      ensures Physical() && Run(Prog(), Initial(traceLevel), history).Some?
      ensures history == old(history) + added
      ensures ok ==> Reached() && process.Holes() <= old(process.Holes())
      ensures ok ==> Interleaved(added, pendingStarts, pendingEnds)
      ensures ok ==> w.starts == old(w).starts + Members(pendingStarts) && w.ends == old(w).ends + Members(pendingEnds)
      ensures unread == old(unread) && Systems(added) == 0
      ensures Refusals() == old(Refusals()) + if ok then 0 else 1
    {
      hide *;
      var i, j := 0, 0;
      added := [];
      SystemsNone();
      Drained(pendingStarts, pendingEnds);
      while i < |pendingStarts| || j < |pendingEnds|
        invariant 0 <= i <= |pendingStarts| && 0 <= j <= |pendingEnds|
        invariant Reached() && process.Holes() <= old(process.Holes()) && Refusals() == old(Refusals())
        invariant history == old(history) + added && unread == old(unread) && Systems(added) == 0
        invariant Interleaved(added, pendingStarts[..i], pendingEnds[..j])
        invariant w.starts == old(w).starts + Members(pendingStarts[..i])
        invariant w.ends == old(w).ends + Members(pendingEnds[..j])
        decreases |pendingStarts| - i + |pendingEnds| - j
      {
        ReachedPhysical();
        if {
          case i < |pendingStarts| =>
            var done := ServePoint(pendingStarts[i], true);
            if !done {
              return false, added;
            }
            OneMore(added, pendingStarts, i, pendingEnds, j);
            SystemsOne(added, NewStart(pendingStarts[i]));
            added := added + [NewStart(pendingStarts[i])];
            i := i + 1;
          case j < |pendingEnds| =>
            var done := ServePoint(pendingEnds[j], false);
            if !done {
              return false, added;
            }
            OneMore(added, pendingStarts, i, pendingEnds, j);
            SystemsOne(added, NewEnd(pendingEnds[j]));
            added := added + [NewEnd(pendingEnds[j])];
            j := j + 1;
        }
      }
      ReachedPhysical();
      ok := true;
    }

    lemma Drained(starts: seq<Addr>, ends: seq<Addr>)
      ensures starts[..|starts|] == starts && ends[..|ends|] == ends
      ensures starts[..0] == [] && ends[..0] == [] && Interleaved([], [], []) && Members([]) == {}
    {
    }

    lemma OneMore(added: seq<Step>, starts: seq<Addr>, i: nat, ends: seq<Addr>, j: nat)
      requires i <= |starts| && j <= |ends| && Interleaved(added, starts[..i], ends[..j])
      ensures i < |starts| ==> Interleaved(added + [NewStart(starts[i])], starts[..i + 1], ends[..j])
                               && Members(starts[..i + 1]) == Members(starts[..i]) + {starts[i]}
      ensures j < |ends| ==> Interleaved(added + [NewEnd(ends[j])], starts[..i], ends[..j + 1])
                             && Members(ends[..j + 1]) == Members(ends[..j]) + {ends[j]}
    {
      if i < |starts| {
        assert starts[..i + 1][..i] == starts[..i] && (added + [NewStart(starts[i])])[..|added|] == added;
        assert starts[..i + 1] == starts[..i] + [starts[i]];
      }
      if j < |ends| {
        assert ends[..j + 1][..j] == ends[..j] && (added + [NewEnd(ends[j])])[..|added|] == added;
        assert ends[..j + 1] == ends[..j] + [ends[j]];
      }
    }

    /** One request is a step of the state machine, also when the point is known already. */
    method ServePoint(addr: Addr, isStart: bool) returns (ok: bool)
      requires Reached()
      modifies this, breakpoints, process, process.client`mem, process.client`wire, points
      ensures Physical() && Run(Prog(), Initial(traceLevel), history).Some?
      ensures history == if ok then old(history) + [if isStart then NewStart(addr) else NewEnd(addr)] else old(history)
      ensures unread == old(unread)
      ensures ok ==> Reached() && process.Holes() <= old(process.Holes())
      ensures ok ==> w.starts == old(w).starts + (if isStart then {addr} else {})
      ensures ok ==> w.ends == old(w).ends + (if isStart then {} else {addr})
      ensures Refusals() == old(Refusals()) + if ok then 0 else 1
    {
      hide Process.Weak, Process.Holes, ViewOf, NoEmpty, Inv, WellFormed, Good, Physical, CacheOk, Run;
      ok := AddPoint(addr, isStart);
      if ok {
        ghost var step := if isStart then NewStart(addr) else NewEnd(addr);
        RunAppend(Prog(), Initial(traceLevel), history, step);
        SystemsOne(history, step);
        history := history + [step];
        GoodPhysical();
      }
    }

    /** The trapped threads are handled one after the other; an error ends the loop. */
    method HandleTrapEvent(threads: seq<ThreadId>, traps: seq<Trap>) returns (ok: bool, ghost added: seq<Step>)
      requires Reached() && |traps| == |threads| && forall k :: 0 <= k < |traps| ==> traps[k].User?
      modifies this, breakpoints, process, process.client, goRoutines
      ensures Physical() && Run(Prog(), Initial(traceLevel), history).Some?
      ensures history == old(history) + added
      ensures ok ==> Reached() && Handled(added, traps)
      ensures ok && Trapped(System) !in added ==> process.Holes() <= old(process.Holes()) && unread == old(unread)
      ensures if ok then Refusals() == old(Refusals()) + Systems(added)
              else Refusals() >= old(Refusals()) + Systems(added)
      ensures !ok ==> && HandledPart(added, traps)
                      && (Refusals() > old(Refusals()) + Systems(added) || StuckAt(traps[|added|]))
    {
      hide Process.Weak, Process.Holes, ViewOf, NoEmpty, Inv, WellFormed, Good, Physical, CacheOk;
      hide Run, HandleTrap, Unread.Loses, InfoRun, UnseenRun;
      hide Systems, Missed;
      added := [];
      SystemsNone();
      for k := 0 to |threads|
        invariant Reached() && history == old(history) + added && |added| == k
        invariant Refusals() == old(Refusals()) + Systems(added)
        invariant forall j :: 0 <= j < k ==> AsHandled(added[j], traps[j])
        invariant Trapped(System) !in added ==> process.Holes() <= old(process.Holes()) && unread == old(unread)
      {
        ghost var before, refusals, missed := w, Refusals(), unread;
        ghost var holes, trap := process.Holes(), Unseen(threads[k], traps[k].info.asks);
        var handled, seen := HandleTrapEventOfThread(threads[k], traps[k]);
        if !handled {
          assert Refusals() > refusals || HandleTrap(Prog(), before, traps[k]).None?;
          return false, added;
        }
        ghost var step := Trapped(if seen then traps[k] else System);
        SystemsOne(history, step);
        SystemsOne(added, step);
        assert missed + [] == missed;
        StillMissed(holes, process.Holes(), missed, unread, trap);
        RunAppend(Prog(), Initial(traceLevel), history, step);
        history := history + [step];
        added := added + [step];
      }
      GoodPhysical();
      ok := true;
    }

    lemma StillMissed(holes: set<Addr>, now: set<Addr>, missed: seq<Unread>, more: seq<Unread>, trap: Unread)
      requires forall a :: a in holes ==> Missed(missed, a)
      requires || (more == missed && now <= holes)
               || (more == missed + [trap] && forall a :: a in now ==> a in holes || trap.Loses(a))
      ensures forall a :: a in now ==> Missed(more, a)
    {
      hide Missed, Unread.Loses;
      forall a | a in now
        ensures Missed(more, a)
      {
        MissedOneMore(missed, trap, a);
      }
    }

    /** The trap has no step in the state that was reached, because a function is not known. */
    ghost predicate StuckAt(t: Trap)
      reads this`history
    {
      var reached := Run(Prog(), Initial(traceLevel), history);
      reached.Some? && HandleTrap(Prog(), reached.value, t).None?
    }

    /** The main loop over a finite script of what happens, and the detaching at its end. */
    method MainLoop(turns: seq<Turn>) returns (end: LoopEnd, ghost added: seq<Step>)
      requires Reached() && forall k :: 0 <= k < |turns| ==> TurnOk(turns[k])
      modifies this, breakpoints, process, process.client, goRoutines, points
      ensures Run(Prog(), Initial(traceLevel), history).Some? && history == old(history) + added
      ensures end.Interrupted? ==> InterruptedAfter(added, turns)
      ensures end.Finished? ==> EventAfter(added, turns, Exited)
      ensures process.Weak()
      ensures exists n: nat, asked :: && ClearedFrom(process.client.wire.requests, n, asked, process.breakpoints.Keys)
                                 && (AllGranted(process.client.wire.requests, n) ==>
                                       process.breakpoints == map[] && process.client.mem == process.original)
                                 && var before := Refusals() - Denied(process.client.wire.requests[n..]);
                                    EndedAfter(end, added, turns, before - old(Refusals()))
    {
      hide Process.Weak, Process.Holes, ClearedFrom, Run, InterruptedAfter, EventAfter, Rounds, StuckAt, StuckAfter;
      end, added := Loop(turns);
      PhysicalWeak();
      ghost var n, asked := |process.client.wire.requests|, process.breakpoints.Keys;
      var detached := process.Detach();
      assert ClearedFrom(process.client.wire.requests, n, asked, process.breakpoints.Keys);
      NothingLeft(process.client.wire.requests, n, asked, process.breakpoints.Keys);
      process.Restored();
    }

    lemma PhysicalWeak()
      requires Physical()
      ensures process.Weak()
    {
    }

    /** Why the loop ended after these steps, when so many requests were refused on the way. Each trap that was
        treated as one of a system routine had one request refused, and that is all without an error. With an
        error there is one refused request more, or a trap without a step, or a fatal event, or the script of
        what happens is used up. */
    ghost predicate EndedAfter(end: LoopEnd, added: seq<Step>, turns: seq<Turn>, refused: int)
      reads this`history
    {
      && refused >= Systems(added)
      && (refused > Systems(added) ==> end.Failed?)
      && (end.Failed? ==>
            || refused > Systems(added) || StuckAfter(added, turns) || EventAfter(added, turns, Killed)
            || Rounds(added, turns))
    }

    /** Whole rounds, the requests of the next one, and those of its traps that came before one without a step. */
    ghost predicate StuckAfter(added: seq<Step>, turns: seq<Turn>)
      reads this`history
    {
      exists k, n, p :: 0 <= k < |turns| && 0 <= n <= p <= |added| && turns[k].event.Stopped?
                        && Rounds(added[..n], turns[..k]) && Interleaved(added[n..p], turns[k].starts, turns[k].ends)
                        && HandledPart(added[p..], turns[k].event.traps) && StuckAt(turns[k].event.traps[|added| - p])
    }

    lemma StuckThere(rounds: seq<Step>, pointSteps: seq<Step>, trapSteps: seq<Step>, turns: seq<Turn>, k: nat)
      requires k < |turns| && turns[k].event.Stopped? && Rounds(rounds, turns[..k])
      requires Interleaved(pointSteps, turns[k].starts, turns[k].ends)
      requires HandledPart(trapSteps, turns[k].event.traps) && StuckAt(turns[k].event.traps[|trapSteps|])
      ensures StuckAfter(rounds + pointSteps + trapSteps, turns)
    {
      hide Rounds, Interleaved, StuckAt, HandledPart;
      var added, n, p := rounds + pointSteps + trapSteps, |rounds|, |rounds| + |pointSteps|;
      assert added[..n] == rounds && added[n..p] == pointSteps && added[p..] == trapSteps;
    }

    /** Without an error every state between two rounds is one that a run of the state machine reaches, by
        the requests and traps of the rounds so far. */
    method Loop(turns: seq<Turn>) returns (end: LoopEnd, ghost added: seq<Step>)
      requires Reached() && forall k :: 0 <= k < |turns| ==> TurnOk(turns[k])
      modifies this, breakpoints, process, process.client, goRoutines, points
      ensures Physical() && Run(Prog(), Initial(traceLevel), history).Some?
      ensures history == old(history) + added
      ensures !end.Failed? ==> Reached()
      ensures end.Interrupted? ==> InterruptedAfter(added, turns)
      ensures end.Finished? ==> EventAfter(added, turns, Exited)
      ensures EndedAfter(end, added, turns, Refusals() - old(Refusals()))
    {
      hide Process.Weak, Process.Holes, ViewOf, NoEmpty, Inv, WellFormed, Good, Physical, CacheOk, Run, StuckAt;
      hide Rounds, Interleaved, Handled, EventAfter, StuckAfter, Systems, Missed;
      GoodPhysical();
      added := [];
      SystemsNone();
      NoRounds(turns);
      for k := 0 to |turns|
        invariant Reached() && Physical() && Refusals() == old(Refusals()) + Systems(added)
        invariant history == old(history) + added && Rounds(added, turns[..k])
      {
        var turn := turns[k];
        if turn.interrupted {
          return Interrupted, added;
        }
        ghost var rounds := added;
        ghost var pointSteps, trapSteps;
        var set';
        set', pointSteps := SetPendingTracePoints(turn.starts, turn.ends);
        SystemsConcat(added, pointSteps);
        added := added + pointSteps;
        if !set' {
          return Failed, added;
        }
        GoodPhysical();
        AtTheEvent(rounds, pointSteps, turns, k);
        match turn.event {
          case Exited => return Finished, added;
          case Killed => return Failed, added;
          case Stopped(threads, traps) =>
            assert TurnOk(turn);
            var handled;
            handled, trapSteps := HandleTrapEvent(threads, traps);
            SystemsConcat(added, trapSteps);
            added := added + trapSteps;
            if !handled {
              if StuckAt(turn.event.traps[|trapSteps|]) {
                StuckThere(rounds, pointSteps, trapSteps, turns, k);
              }
              return Failed, added;
            }
            GoodPhysical();
            OneMoreRound(rounds, pointSteps, trapSteps, turns, k);
        }
      }
      assert turns[..|turns|] == turns;
      end := Failed;
    }
  }

  // ----- what happens round by round

  /** What stopped the tracee. */
  datatype Event = Exited | Killed | Stopped(threads: seq<ThreadId>, traps: seq<Trap>)

  /** One round of the main loop: the requests waiting in the channels, and the event waited for. */
  datatype Turn = Turn(interrupted: bool, starts: seq<Addr>, ends: seq<Addr>, event: Event)

  datatype LoopEnd = Finished | Interrupted | Failed

  ghost predicate TurnOk(t: Turn) {
    t.event.Stopped? ==>
      |t.event.traps| == |t.event.threads| && forall k :: 0 <= k < |t.event.traps| ==> t.event.traps[k].User?
  }

  /** The steps serve all requests of the two queues, each queue in its order. */
  predicate Interleaved(steps: seq<Step>, starts: seq<Addr>, ends: seq<Addr>)
    decreases |steps|
  {
    if steps == [] then starts == [] && ends == []
    else
      var init, last := steps[..|steps| - 1], steps[|steps| - 1];
      || (starts != [] && last == NewStart(starts[|starts| - 1]) && Interleaved(init, starts[..|starts| - 1], ends))
      || (ends != [] && last == NewEnd(ends[|ends| - 1]) && Interleaved(init, starts, ends[..|ends| - 1]))
  }

  /** A trap is handled as it is, or as one of a system routine. */
  predicate AsHandled(s: Step, t: Trap) {
    s == Trapped(t) || s == Trapped(System)
  }

  predicate Handled(steps: seq<Step>, traps: seq<Trap>) {
    |steps| == |traps| && forall k :: 0 <= k < |steps| ==> AsHandled(steps[k], traps[k])
  }

  /** Some of the traps are handled, but not all. */
  predicate HandledPart(steps: seq<Step>, traps: seq<Trap>) {
    |steps| < |traps| && forall k :: 0 <= k < |steps| ==> AsHandled(steps[k], traps[k])
  }

  /** How many traps were treated as one of a system routine. */
  function Systems(steps: seq<Step>): nat {
    if steps == [] then 0
    else Systems(steps[..|steps| - 1]) + if steps[|steps| - 1] == Trapped(System) then 1 else 0
  }

  lemma SystemsNone()
    ensures Systems([]) == 0
  {
  }

  lemma SystemsOne(steps: seq<Step>, s: Step)
    ensures Systems(steps + [s]) == Systems(steps) + if s == Trapped(System) then 1 else 0
  {
    assert (steps + [s])[..|steps|] == steps;
  }

  lemma {:induction false} SystemsConcat(s: seq<Step>, t: seq<Step>)
    ensures Systems(s + t) == Systems(s) + Systems(t)
    decreases |t|
  {
    if t == [] {
      assert s + t == s;
    } else {
      assert (s + t)[..|s + t| - 1] == s + t[..|t| - 1];
      SystemsConcat(s, t[..|t| - 1]);
    }
  }

  lemma {:induction false} NoSystems(steps: seq<Step>)
    ensures Trapped(System) !in steps ==> Systems(steps) == 0
  {
    if steps != [] {
      NoSystems(steps[..|steps| - 1]);
    }
  }

  /** The steps are those of whole rounds, none of which ends the loop. */
  ghost predicate Rounds(steps: seq<Step>, turns: seq<Turn>)
    decreases |turns|
  {
    if turns == [] then steps == []
    else
      var last := turns[|turns| - 1];
      && !last.interrupted && last.event.Stopped?
      && exists n, p :: 0 <= n <= p <= |steps| && RoundAt(steps, n, p, last) && Rounds(steps[..n], turns[..|turns| - 1])
  }

  ghost predicate RoundAt(steps: seq<Step>, n: nat, p: nat, turn: Turn) {
    && n <= p <= |steps| && turn.event.Stopped?
    && Interleaved(steps[n..p], turn.starts, turn.ends) && Handled(steps[p..], turn.event.traps)
  }

  ghost predicate InterruptedAfter(steps: seq<Step>, turns: seq<Turn>) {
    exists k :: 0 <= k < |turns| && turns[k].interrupted && Rounds(steps, turns[..k])
  }

  /** Whole rounds, then the requests of the round whose event ends the loop. */
  ghost predicate EventAfter(steps: seq<Step>, turns: seq<Turn>, event: Event) {
    exists k, n :: 0 <= k < |turns| && 0 <= n <= |steps| && !turns[k].interrupted && turns[k].event == event
                   && Rounds(steps[..n], turns[..k]) && Interleaved(steps[n..], turns[k].starts, turns[k].ends)
  }

  lemma NoRounds(turns: seq<Turn>)
    ensures turns[..0] == [] && Rounds([], turns[..0])
  {
  }

  lemma AtTheEvent(rounds: seq<Step>, pointSteps: seq<Step>, turns: seq<Turn>, k: nat)
    requires k < |turns| && !turns[k].interrupted && Rounds(rounds, turns[..k])
    requires Interleaved(pointSteps, turns[k].starts, turns[k].ends)
    ensures EventAfter(rounds + pointSteps, turns, turns[k].event)
  {
    hide Rounds, Interleaved;
    var steps := rounds + pointSteps;
    assert steps[..|rounds|] == rounds && steps[|rounds|..] == pointSteps;
  }

  lemma OneMoreRound(rounds: seq<Step>, pointSteps: seq<Step>, trapSteps: seq<Step>, turns: seq<Turn>, k: nat)
    requires k < |turns| && !turns[k].interrupted && turns[k].event.Stopped? && Rounds(rounds, turns[..k])
    requires Interleaved(pointSteps, turns[k].starts, turns[k].ends) && Handled(trapSteps, turns[k].event.traps)
    ensures Rounds(rounds + pointSteps + trapSteps, turns[..k + 1])
  {
    hide Interleaved, Handled;
    var steps, n, p := rounds + pointSteps + trapSteps, |rounds|, |rounds| + |pointSteps|;
    assert steps[..n] == rounds && steps[n..p] == pointSteps && steps[p..] == trapSteps;
    assert turns[..k + 1][..k] == turns[..k];
    assert RoundAt(steps, n, p, turns[k]);
  }
}
