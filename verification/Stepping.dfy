/** What becomes of a single step that other threads may interrupt, as a function of the replies: whether it
    succeeds, which replies it uses up, and which breakpoints are lifted and put back on the way. */
module Stepping {
  import opened Base

  const BREAKPOINT_INST: Byte := 0xcc

  type ThreadId = int

  /** The answer to one request to the debug API: done, perhaps with a register value, refused, or
      stopped because threads were trapped that nobody asked for. */
  datatype Reply = Done(value: Addr) | Refused | Unspecified(threads: seq<ThreadId>)

  /** The reply to the next request. When the script is used up every request is refused. */
  function Head(script: seq<Reply>): Reply {
    if script == [] then Refused else script[0]
  }

  function Rest(script: seq<Reply>): (rest: seq<Reply>)
    ensures |rest| <= |script|
    ensures !Head(script).Refused? ==> |rest| < |script|
  {
    if script == [] then [] else script[1..]
  }

  /** The original byte was put in the place of a trap, or the trap back, or a thread made a step. */
  datatype Act = Lifted(addr: Addr) | PutBack(addr: Addr) | Executes(addr: Addr, thread: ThreadId)

  datatype Outcome = Outcome(ok: bool, rest: seq<Reply>, acts: seq<Act>)

  /** An outcome with what was done before it. */
  function Prefixed(acts: seq<Act>, o: Outcome): Outcome {
    o.(acts := acts + o.acts)
  }

  /** The thread is stepped over addr: its program counter is set with two requests, the breakpoint is
      lifted if there is one, the thread steps, and the breakpoint is put back. */
  function StepRun(bps: set<Addr>, thread: ThreadId, addr: Addr, script: seq<Reply>): (o: Outcome)
    ensures |o.rest| <= |script|
    ensures o.ok ==> |o.rest| < |script|
    decreases |script|, 0
  {
    var s1, s2 := Rest(script), Rest(Rest(script));
    if !Head(script).Done? then Outcome(false, s1, [])
    else if !Head(s1).Done? then Outcome(false, s2, [])
    else if addr !in bps then LiftedRun(bps, thread, addr, s2)
    else if !Head(s2).Done? then Outcome(false, Rest(s2), [])
    else Prefixed([Lifted(addr)], LiftedRun(bps, thread, addr, Rest(s2)))
  }

  /** The part after the breakpoint was lifted. When other threads were stopped as well they are stepped first,
      and then all is done again, although the thread has made its step if it is one of those named. */
  function LiftedRun(bps: set<Addr>, thread: ThreadId, addr: Addr, script: seq<Reply>): (o: Outcome)
    ensures |o.rest| <= |script|
    ensures o.ok ==> |o.rest| < |script|
    decreases |script|, 0
  {
    var rest := Rest(script);
    match Head(script)
    case Refused => Outcome(false, rest, [])
    case Done(_) =>
      if addr !in bps then Outcome(true, rest, [Executes(addr, thread)])
      else if Head(rest).Done? then Outcome(true, Rest(rest), [Executes(addr, thread), PutBack(addr)])
      else Outcome(false, Rest(rest), [Executes(addr, thread)])
    case Unspecified(others) => Prefixed(Already(thread, addr, others), AgainRun(bps, thread, addr, others, rest))
  }

  /** The other threads first, and then the step from its beginning. */
  function AgainRun(bps: set<Addr>, thread: ThreadId, addr: Addr, others: seq<ThreadId>,
                    script: seq<Reply>): (o: Outcome)
    ensures |o.rest| <= |script|
    ensures o.ok ==> |o.rest| < |script|
    decreases |script|, |others| + 1
  {
    var o := OthersRun(bps, thread, others, script);
    if !o.ok then o else Prefixed(o.acts, StepRun(bps, thread, addr, o.rest))
  }

  /** The thread that was to make a step has made it when it is among the threads that were stopped. */
  function Already(thread: ThreadId, addr: Addr, stopped: seq<ThreadId>): seq<Act> {
    if thread in stopped then [Executes(addr, thread)] else []
  }

  /** Every other thread is stepped over the address before its program counter. */
  function OthersRun(bps: set<Addr>, thread: ThreadId, others: seq<ThreadId>, script: seq<Reply>): (o: Outcome)
    ensures |o.rest| <= |script|
    decreases |script|, |others|
  {
    if others == [] then Outcome(true, script, [])
    else if others[0] == thread then OthersRun(bps, thread, others[1..], script)
    else if !Head(script).Done? then Outcome(false, Rest(script), [])
    else
      var s := StepRun(bps, others[0], Wrap(Head(script).value as int - 1), Rest(script));
      if !s.ok then s else Prefixed(s.acts, OthersRun(bps, thread, others[1..], s.rest))
  }

  /** A number of requests that must all be granted. */
  function ReadsRun(asks: nat, script: seq<Reply>): (o: Outcome)
    ensures |o.rest| <= |script| && o.acts == []
  {
    if asks == 0 then Outcome(true, script, [])
    else if !Head(script).Done? then Outcome(false, Rest(script), [])
    else ReadsRun(asks - 1, Rest(script))
  }

  /** Reading the goroutine of a trapped thread: where its structure is, which other threads may interrupt as
      well, and what the structure says. */
  function InfoRun(bps: set<Addr>, thread: ThreadId, asks: nat, script: seq<Reply>): (o: Outcome)
    ensures |o.rest| <= |script|
    decreases |script|
  {
    match Head(script)
    case Refused => Outcome(false, Rest(script), [])
    case Done(_) => ReadsRun(asks, Rest(script))
    case Unspecified(others) =>
      var o := OthersRun(bps, thread, others, Rest(script));
      if !o.ok then o else Prefixed(o.acts, InfoRun(bps, thread, asks, o.rest))
  }

  /** A thread of which no goroutine is known is stepped over the address before its program counter. */
  function SystemRun(bps: set<Addr>, thread: ThreadId, script: seq<Reply>): (o: Outcome)
    ensures |o.rest| <= |script|
  {
    if !Head(script).Done? then Outcome(false, Rest(script), [])
    else StepRun(bps, thread, Wrap(Head(script).value as int - 1), Rest(script))
  }

  // ----- which breakpoints are missing afterwards

  /** A lifted breakpoint leaves a hole, unless the original byte is itself a trap. */
  function After(holes: set<Addr>, acts: seq<Act>, saved: map<Addr, Byte>): set<Addr> {
    if acts == [] then holes
    else
      var before := After(holes, acts[..|acts| - 1], saved);
      match acts[|acts| - 1]
      case Executes(_, _) => before
      case Lifted(a) => if a in saved && saved[a] != BREAKPOINT_INST then before + {a} else before - {a}
      case PutBack(a) => before - {a}
  }

  lemma AfterPrefixed(holes: set<Addr>, p: seq<Act>, o: Outcome, saved: map<Addr, Byte>)
    ensures After(holes, Prefixed(p, o).acts, saved) == After(After(holes, p, saved), o.acts, saved)
  {
    AfterConcat(holes, p, o.acts, saved);
  }

  lemma {:induction false} AfterConcat(holes: set<Addr>, p: seq<Act>, q: seq<Act>, saved: map<Addr, Byte>)
    ensures After(holes, p + q, saved) == After(After(holes, p, saved), q, saved)
    decreases |q|
  {
    if q == [] {
      assert p + q == p;
    } else {
      assert (p + q)[..|p + q| - 1] == p + q[..|q| - 1];
      AfterConcat(holes, p, q[..|q| - 1], saved);
    }
  }

  lemma AfterOne(holes: set<Addr>, p: Act, saved: map<Addr, Byte>)
    ensures After(holes, [p], saved)
            == if p.Executes? then holes
               else if p.Lifted? && p.addr in saved && saved[p.addr] != BREAKPOINT_INST then holes + {p.addr}
               else holes - {p.addr}
  {
    assert [p][..0] == [];
  }

  predicate Patches(act: Act, a: Addr) {
    !act.Executes? && act.addr == a
  }

  predicate LastAt(acts: seq<Act>, k: nat, a: Addr) {
    k < |acts| && Patches(acts[k], a) && forall j :: k < j < |acts| ==> !Patches(acts[j], a)
  }

  /** The breakpoint at a was lifted and not put back after that. */
  ghost predicate LeftLifted(acts: seq<Act>, a: Addr) {
    exists k: nat :: LastAt(acts, k, a) && acts[k].Lifted?
  }

  ghost predicate Untouched(acts: seq<Act>, a: Addr) {
    forall k :: 0 <= k < |acts| ==> !Patches(acts[k], a)
  }

  lemma LeftLiftedStep(acts: seq<Act>, a: Addr)
    requires acts != []
    ensures var n := |acts| - 1;
            && (Patches(acts[n], a) ==> (LeftLifted(acts, a) <==> acts[n].Lifted?) && !Untouched(acts, a))
            && (!Patches(acts[n], a) ==> (LeftLifted(acts, a) <==> LeftLifted(acts[..n], a))
                                         && (Untouched(acts, a) <==> Untouched(acts[..n], a)))
  {
    var n := |acts| - 1;
    var init := acts[..n];
    if Patches(acts[n], a) {
      assert LastAt(acts, n, a);
    } else {
      forall k: nat
        ensures LastAt(init, k, a) <==> LastAt(acts, k, a)
      {
      }
      assert forall k :: 0 <= k < n ==> init[k] == acts[k];
    }
  }

  /** A hole is there afterwards exactly when the breakpoint was left lifted, or was missing before and
      nobody touched it. */
  lemma {:induction false} HoleExactly(holes: set<Addr>, acts: seq<Act>, saved: map<Addr, Byte>, a: Addr)
    ensures a in After(holes, acts, saved) <==>
              || (LeftLifted(acts, a) && a in saved && saved[a] != BREAKPOINT_INST)
              || (Untouched(acts, a) && a in holes)
  {
    hide LeftLifted, Untouched;
    if acts != [] {
      HoleExactly(holes, acts[..|acts| - 1], saved, a);
      LeftLiftedStep(acts, a);
    } else {
      NothingPatched(a);
    }
  }

  lemma NothingPatched(a: Addr)
    ensures !LeftLifted([], a) && Untouched([], a)
  {
  }

  // ----- failures that are not reported

  /** The goroutine of the thread cannot be read, and the thread is stepped like one of a system routine. */
  function UnseenRun(bps: set<Addr>, thread: ThreadId, asks: nat, script: seq<Reply>): Outcome {
    var info := InfoRun(bps, thread, asks, script);
    Prefixed(info.acts, SystemRun(bps, thread, info.rest))
  }

  /** Reading the goroutine fails, stepping the thread works, and the breakpoint at a stays lifted. */
  ghost predicate Swallowed(bps: set<Addr>, thread: ThreadId, asks: nat, script: seq<Reply>, a: Addr) {
    var o := UnseenRun(bps, thread, asks, script);
    !InfoRun(bps, thread, asks, script).ok && o.ok && LeftLifted(o.acts, a)
  }

  /** A trap of which the goroutine could not be read: the breakpoints and their bytes, the thread, how many
      requests it takes to read the goroutine, and the replies. */
  datatype Unread = Unread(saved: map<Addr, Byte>, thread: ThreadId, asks: nat, script: seq<Reply>) {
    /** The breakpoint at a is missing from memory after it. */
    ghost predicate Loses(a: Addr) {
      Swallowed(saved.Keys, thread, asks, script, a) && a in saved && saved[a] != BREAKPOINT_INST
    }
  }

  /** The breakpoint at a was lost at one of the traps. */
  ghost predicate Missed(traps: seq<Unread>, a: Addr) {
    exists k :: 0 <= k < |traps| && traps[k].Loses(a)
  }

  lemma MissedOneMore(traps: seq<Unread>, u: Unread, a: Addr)
    ensures Missed(traps + [u], a) <==> Missed(traps, a) || u.Loses(a)
  {
    hide Unread.Loses;
    var more := traps + [u];
    assert more[|traps|] == u;
    assert forall k :: 0 <= k < |traps| ==> more[k] == traps[k];
  }

  /** With a goroutine that could be read nothing is lost; otherwise, without an error, exactly the
      breakpoints left lifted are missing, of those that were in memory. */
  lemma LostExactly(holes: set<Addr>, saved: map<Addr, Byte>, thread: ThreadId, asks: nat, script: seq<Reply>, a: Addr)
    ensures InfoRun(saved.Keys, thread, asks, script).ok ==> !Swallowed(saved.Keys, thread, asks, script, a)
    ensures var o := UnseenRun(saved.Keys, thread, asks, script);
            !InfoRun(saved.Keys, thread, asks, script).ok && o.ok && a !in holes ==>
              (a in After(holes, o.acts, saved) <==> Unread(saved, thread, asks, script).Loses(a))
  {
    hide LeftLifted, After, InfoRun, UnseenRun;
    HoleExactly(holes, UnseenRun(saved.Keys, thread, asks, script).acts, saved, a);
  }

  lemma UnseenAfter(holes: set<Addr>, saved: map<Addr, Byte>, thread: ThreadId, asks: nat, script: seq<Reply>)
    ensures var info, o := InfoRun(saved.Keys, thread, asks, script), UnseenRun(saved.Keys, thread, asks, script);
            var sys := SystemRun(saved.Keys, thread, info.rest);
            && o.ok == sys.ok
            && After(holes, o.acts, saved) == After(After(holes, info.acts, saved), sys.acts, saved)
  {
    hide InfoRun, SystemRun, After;
    var info := InfoRun(saved.Keys, thread, asks, script);
    AfterPrefixed(holes, info.acts, SystemRun(saved.Keys, thread, info.rest), saved);
  }

  /** The step of another thread is refused after its breakpoint was lifted. */
  function StepRefused(thread: ThreadId, a: Addr, elsewhere: Addr): seq<Reply> {
    [Unspecified([thread + 1]), Done(Wrap(a + 1)), Done(0), Done(0), Done(0), Refused] + SystemReplies(elsewhere)
  }

  /** The other thread steps, and putting its breakpoint back is refused. */
  function PutBackRefused(thread: ThreadId, a: Addr, elsewhere: Addr): seq<Reply> {
    [Unspecified([thread + 1]), Done(Wrap(a + 1)), Done(0), Done(0), Done(0), Done(0), Refused]
    + SystemReplies(elsewhere)
  }

  /** Nothing has been lifted when reading the goroutine is refused. */
  function ReadRefused(elsewhere: Addr): seq<Reply> {
    [Refused] + SystemReplies(elsewhere)
  }

  function SystemReplies(elsewhere: Addr): seq<Reply> {
    [Done(Wrap(elsewhere + 1)), Done(0), Done(0), Done(0)]
  }

  lemma SystemWorks(bps: set<Addr>, thread: ThreadId, elsewhere: Addr)
    requires elsewhere !in bps
    ensures SystemRun(bps, thread, SystemReplies(elsewhere)) == Outcome(true, [], [Executes(elsewhere, thread)])
  {
    var s := SystemReplies(elsewhere);
    assert Wrap(Wrap(elsewhere + 1) - 1) == elsewhere;
    assert Rest(s) == [Done(0), Done(0), Done(0)] && Rest(Rest(s)) == [Done(0), Done(0)];
    assert Rest(Rest(Rest(s))) == [Done(0)] && Rest([Done(0)]) == [];
    assert LiftedRun(bps, thread, elsewhere, [Done(0)]) == Outcome(true, [], [Executes(elsewhere, thread)]);
  }

  lemma OneOther(bps: set<Addr>, thread: ThreadId, asks: nat, a: Addr, script: seq<Reply>)
    requires script != [] && script[0] == Unspecified([thread + 1])
    requires script[1..] != [] && script[1] == Done(Wrap(a + 1))
    requires !StepRun(bps, thread + 1, a, script[2..]).ok
    ensures InfoRun(bps, thread, asks, script) == StepRun(bps, thread + 1, a, script[2..])
  {
    var rest := Rest(script);
    assert rest == script[1..] && Rest(rest) == script[2..];
    assert Wrap(Wrap(a + 1) - 1) == a;
    assert [thread + 1][0] == thread + 1;
  }

  /** Two ways to lose the breakpoint at a without an error, and one failure that does no harm. */
  lemma WaysToFail(bps: set<Addr>, thread: ThreadId, asks: nat, a: Addr, elsewhere: Addr)
    requires a in bps && elsewhere !in bps
    ensures Swallowed(bps, thread, asks, StepRefused(thread, a, elsewhere), a)
    ensures Swallowed(bps, thread, asks, PutBackRefused(thread, a, elsewhere), a)
    ensures !InfoRun(bps, thread, asks, ReadRefused(elsewhere)).ok
    ensures !Swallowed(bps, thread, asks, ReadRefused(elsewhere), a)
  {
    hide SystemRun, Swallowed, InfoRun;
    StepIsRefused(bps, thread, asks, a, elsewhere);
    PutBackIsRefused(bps, thread, asks, a, elsewhere);
    ReadIsRefused(bps, thread, asks, a, elsewhere);
  }

  lemma FourDone(a: Addr, script: seq<Reply>, bps: set<Addr>, thread: ThreadId, tail: seq<Reply>)
    requires a in bps && script == [Done(0), Done(0), Done(0)] + tail
    ensures StepRun(bps, thread, a, script) == Prefixed([Lifted(a)], LiftedRun(bps, thread, a, tail))
  {
    assert Rest(script) == [Done(0), Done(0)] + tail && Rest(Rest(script)) == [Done(0)] + tail;
    assert Rest(Rest(Rest(script))) == tail;
  }

  lemma StepIsRefused(bps: set<Addr>, thread: ThreadId, asks: nat, a: Addr, elsewhere: Addr)
    requires a in bps && elsewhere !in bps
    ensures Swallowed(bps, thread, asks, StepRefused(thread, a, elsewhere), a)
  {
    hide SystemRun, InfoRun, StepRun;
    var sys, s := SystemReplies(elsewhere), StepRefused(thread, a, elsewhere);
    var tail := [Refused] + sys;
    assert s[2..] == [Done(0), Done(0), Done(0)] + tail && Rest(tail) == sys;
    FourDone(a, s[2..], bps, thread + 1, tail);
    LeftOpen(bps, thread, asks, s, a, elsewhere, []);
  }

  lemma PutBackIsRefused(bps: set<Addr>, thread: ThreadId, asks: nat, a: Addr, elsewhere: Addr)
    requires a in bps && elsewhere !in bps
    ensures Swallowed(bps, thread, asks, PutBackRefused(thread, a, elsewhere), a)
  {
    hide SystemRun, InfoRun, StepRun;
    var sys, s := SystemReplies(elsewhere), PutBackRefused(thread, a, elsewhere);
    var tail := [Done(0), Refused] + sys;
    assert s[2..] == [Done(0), Done(0), Done(0)] + tail && Rest(tail) == [Refused] + sys && Rest(Rest(tail)) == sys;
    FourDone(a, s[2..], bps, thread + 1, tail);
    LeftOpen(bps, thread, asks, s, a, elsewhere, [Executes(a, thread + 1)]);
  }

  lemma LeftOpen(bps: set<Addr>, thread: ThreadId, asks: nat, s: seq<Reply>, a: Addr, elsewhere: Addr, steps: seq<Act>)
    requires forall k :: 0 <= k < |steps| ==> steps[k].Executes?
    requires elsewhere !in bps && |s| > 2 && s[0] == Unspecified([thread + 1]) && s[1] == Done(Wrap(a + 1))
    requires StepRun(bps, thread + 1, a, s[2..])
             == Prefixed([Lifted(a)], Outcome(false, SystemReplies(elsewhere), steps))
    ensures Swallowed(bps, thread, asks, s, a)
  {
    hide SystemRun, InfoRun, StepRun;
    OneOther(bps, thread, asks, a, s);
    SystemWorks(bps, thread, elsewhere);
    assert LastAt([Lifted(a)] + steps + [Executes(elsewhere, thread)], 0, a);
  }

  lemma ReadIsRefused(bps: set<Addr>, thread: ThreadId, asks: nat, a: Addr, elsewhere: Addr)
    requires elsewhere !in bps
    ensures InfoRun(bps, thread, asks, ReadRefused(elsewhere)) == Outcome(false, SystemReplies(elsewhere), [])
    ensures !Swallowed(bps, thread, asks, ReadRefused(elsewhere), a)
  {
    assert Rest(ReadRefused(elsewhere)) == SystemReplies(elsewhere);
    SystemWorks(bps, thread, elsewhere);
  }

  // ----- how often the instruction is executed

  function Count(acts: seq<Act>, thread: ThreadId): nat {
    if acts == [] then 0
    else
      var last := acts[|acts| - 1];
      Count(acts[..|acts| - 1], thread) + if last.Executes? && last.thread == thread then 1 else 0
  }

  /** One of the replies before the last `left` says that the thread was among those that were stopped. */
  predicate Named(script: seq<Reply>, left: nat, thread: ThreadId)
    decreases |script|
  {
    |script| > left && ((script[0].Unspecified? && thread in script[0].threads) || Named(script[1..], left, thread))
  }

  predicate Suffix(rest: seq<Reply>, script: seq<Reply>) {
    |rest| <= |script| && rest == script[|script| - |rest|..]
  }

  lemma {:induction false} CountConcat(p: seq<Act>, q: seq<Act>, t: ThreadId)
    ensures Count(p + q, t) == Count(p, t) + Count(q, t)
    decreases |q|
  {
    if q == [] {
      assert p + q == p;
    } else {
      assert (p + q)[..|p + q| - 1] == p + q[..|q| - 1];
      CountConcat(p, q[..|q| - 1], t);
    }
  }

  lemma CountOne(a: Act, t: ThreadId)
    ensures Count([a], t) == if a.Executes? && a.thread == t then 1 else 0
  {
    assert [a][..0] == [];
  }

  lemma CountPrefixed(p: seq<Act>, o: Outcome, t: ThreadId)
    ensures Count(Prefixed(p, o).acts, t) == Count(p, t) + Count(o.acts, t)
  {
    CountConcat(p, o.acts, t);
  }

  lemma {:induction false} NamedThen(script: seq<Reply>, middle: seq<Reply>, rest: seq<Reply>, t: ThreadId)
    requires Suffix(middle, script) && Suffix(rest, middle)
    ensures Suffix(rest, script)
    ensures Named(script, |rest|, t) <==> Named(script, |middle|, t) || Named(middle, |rest|, t)
    decreases |script|
  {
    if |script| > |middle| {
      assert script[1..][|script| - 1 - |middle|..] == script[|script| - |middle|..];
      NamedThen(script[1..], middle, rest, t);
      assert script[1..][|script| - 1 - |rest|..] == script[|script| - |rest|..];
    }
  }

  lemma NamedHead(script: seq<Reply>, t: ThreadId)
    requires script != []
    ensures Suffix(Rest(script), script)
    ensures Named(script, |Rest(script)|, t) <==> script[0].Unspecified? && t in script[0].threads
  {
  }

  /** The replies used up, and how often the thread made a step: `own` times, and more often if and only if one
      of these replies names it. */
  predicate StepsAs(script: seq<Reply>, o: Outcome, t: ThreadId, own: nat) {
    && Suffix(o.rest, script) && Count(o.acts, t) >= own
    && (Count(o.acts, t) == own <==> !Named(script, |o.rest|, t))
  }

  /** A reply that names nobody comes first. */
  lemma AfterDone(script: seq<Reply>, o: Outcome, t: ThreadId, own: nat)
    requires Head(script).Done? && StepsAs(Rest(script), o, t, own)
    ensures StepsAs(script, o, t, own)
  {
    hide Count;
    NamedHead(script, t);
    NamedThen(script, Rest(script), o.rest, t);
  }

  /** A step without an error is made once, unless a reply on the way says that the thread was stopped together
      with others: then it is made again. */
  lemma {:induction false} OnceUnlessNamed(bps: set<Addr>, x: ThreadId, addr: Addr, script: seq<Reply>, t: ThreadId)
    requires StepRun(bps, x, addr, script).ok
    ensures StepsAs(script, StepRun(bps, x, addr, script), t, if t == x then 1 else 0)
    decreases |script|, 0
  {
    hide Count, Named, StepsAs, LiftedRun, OthersRun;
    var own: nat := if t == x then 1 else 0;
    var s1, s2 := Rest(script), Rest(Rest(script));
    var o := StepRun(bps, x, addr, script);
    if addr !in bps {
      LiftedOnce(bps, x, addr, s2, t);
    } else {
      var l := LiftedRun(bps, x, addr, Rest(s2));
      LiftedOnce(bps, x, addr, Rest(s2), t);
      LiftFirst(Rest(s2), addr, l, t, own);
      AfterDone(s2, o, t, own);
    }
    AfterDone(s1, o, t, own);
    AfterDone(script, o, t, own);
  }

  lemma LiftFirst(script: seq<Reply>, addr: Addr, l: Outcome, t: ThreadId, own: nat)
    requires StepsAs(script, l, t, own)
    ensures StepsAs(script, Prefixed([Lifted(addr)], l), t, own)
  {
    CountPrefixed([Lifted(addr)], l, t);
    CountOne(Lifted(addr), t);
  }

  lemma {:induction false} LiftedOnce(bps: set<Addr>, x: ThreadId, addr: Addr, script: seq<Reply>, t: ThreadId)
    requires LiftedRun(bps, x, addr, script).ok
    ensures StepsAs(script, LiftedRun(bps, x, addr, script), t, if t == x then 1 else 0)
    decreases |script|, 0
  {
    hide StepRun, OthersRun;
    match Head(script)
    case Done(_) => JustDone(bps, x, addr, script, t);
    case Unspecified(others) =>
      var rest := Rest(script);
      var others' := OthersRun(bps, x, others, rest);
      OthersOnce(bps, x, others, rest, t);
      OnceUnlessNamed(bps, x, addr, others'.rest, t);
      var s := StepRun(bps, x, addr, others'.rest);
      CountPrefixed(others'.acts, s, t);
      CountPrefixed(Already(x, addr, others), AgainRun(bps, x, addr, others, rest), t);
      AlreadyCounts(x, addr, others, t);
      NamedHead(script, t);
      NamedThen(rest, others'.rest, s.rest, t);
      NamedThen(script, rest, s.rest, t);
  }

  lemma AlreadyCounts(x: ThreadId, addr: Addr, others: seq<ThreadId>, t: ThreadId)
    ensures Count(Already(x, addr, others), t) == if t == x && x in others then 1 else 0
  {
    CountOne(Executes(addr, x), t);
  }

  lemma JustDone(bps: set<Addr>, x: ThreadId, addr: Addr, script: seq<Reply>, t: ThreadId)
    requires Head(script).Done? && LiftedRun(bps, x, addr, script).ok
    ensures StepsAs(script, LiftedRun(bps, x, addr, script), t, if t == x then 1 else 0)
  {
    var own: nat := if t == x then 1 else 0;
    var o := LiftedRun(bps, x, addr, script);
    CountOne(Executes(addr, x), t);
    CountOne(PutBack(addr), t);
    CountConcat([Executes(addr, x)], [PutBack(addr)], t);
    assert [Executes(addr, x)] + [PutBack(addr)] == [Executes(addr, x), PutBack(addr)];
    assert StepsAs(o.rest, o, t, own);
    if addr in bps {
      AfterDone(Rest(script), o, t, own);
    }
    AfterDone(script, o, t, own);
  }

  lemma {:induction false} OthersOnce(bps: set<Addr>, x: ThreadId, others: seq<ThreadId>, script: seq<Reply>,
                                      t: ThreadId)
    requires OthersRun(bps, x, others, script).ok
    ensures var o := OthersRun(bps, x, others, script);
            && Suffix(o.rest, script)
            && (Count(o.acts, t) == 0 <==> (t !in others || t == x) && !Named(script, |o.rest|, t))
    decreases |script|, |others|
  {
    hide StepRun, Count, Named;
    if others == [] {
      NothingDone(script, t);
    } else if others[0] == x {
      OthersOnce(bps, x, others[1..], script, t);
    } else {
      var rest := Rest(script);
      var at := Wrap(Head(script).value as int - 1);
      var s := StepRun(bps, others[0], at, rest);
      var more := OthersRun(bps, x, others[1..], s.rest);
      OnceUnlessNamed(bps, others[0], at, rest, t);
      OthersOnce(bps, x, others[1..], s.rest, t);
      CountPrefixed(s.acts, more, t);
      NamedHead(script, t);
      NamedThen(rest, s.rest, more.rest, t);
      NamedThen(script, rest, more.rest, t);
    }
  }

  lemma NothingDone(script: seq<Reply>, t: ThreadId)
    ensures Count([], t) == 0 && !Named(script, |script|, t) && Suffix(script, script)
  {
  }

  // ----- what is asked for, request by request

  /** The first n requests are granted, and the next one, if there is one, is refused. */
  predicate GrantedUpTo(script: seq<Reply>, n: nat) {
    && n <= |script| && (forall i :: 0 <= i < n ==> script[i].Done?)
    && (n < |script| ==> script[n].Refused?)
  }

  /** What a step does to memory and the thread, from beginning to end. */
  function WholeStep(bps: set<Addr>, thread: ThreadId, addr: Addr): seq<Act> {
    if addr in bps then [Lifted(addr), Executes(addr, thread), PutBack(addr)] else [Executes(addr, thread)]
  }

  /** What is left of the replies when the first n requests were granted and no more than `needed` are made. */
  function LeftOver(script: seq<Reply>, n: nat, needed: nat): seq<Reply>
    requires n <= |script|
  {
    if n >= needed then script[needed..] else if n < |script| then script[n + 1..] else []
  }

  lemma OneGranted(script: seq<Reply>, n: nat, needed: nat)
    requires GrantedUpTo(script, n)
    ensures Head(script).Done? <==> n > 0
    ensures n == 0 ==> Head(script).Refused? && (needed > 0 ==> Rest(script) == LeftOver(script, n, needed))
    ensures n > 0 ==> GrantedUpTo(Rest(script), n - 1)
    ensures n > 0 && needed > 0 ==> LeftOver(script, n, needed) == LeftOver(Rest(script), n - 1, needed - 1)
  {
    if n > 0 {
      assert forall i :: 0 <= i < |script| - 1 ==> script[1..][i] == script[i + 1];
    }
  }

  lemma LiftedAsks(bps: set<Addr>, thread: ThreadId, addr: Addr, script: seq<Reply>, n: nat)
    requires GrantedUpTo(script, n)
    ensures var o, whole := LiftedRun(bps, thread, addr, script), WholeStep(bps, thread, addr);
            var steps := if addr in bps then whole[1..] else whole;
            && (o.ok <==> n >= |steps|)
            && o.acts == (if n >= |steps| then steps else steps[..n])
            && o.rest == LeftOver(script, n, |steps|)
  {
    hide StepRun, AgainRun, GrantedUpTo;
    var needed: nat := if addr in bps then 2 else 1;
    OneGranted(script, n, needed);
    if n > 0 {
      OneGranted(Rest(script), n - 1, needed - 1);
    }
  }

  /** A step that nobody interrupts takes two requests for the program counter and one for everything it does, and
      goes as far as these are granted. */
  lemma StepAsks(bps: set<Addr>, thread: ThreadId, addr: Addr, script: seq<Reply>, n: nat)
    requires GrantedUpTo(script, n)
    ensures var o, whole := StepRun(bps, thread, addr, script), WholeStep(bps, thread, addr);
            && (o.ok <==> n >= 2 + |whole|)
            && o.acts == (if n < 2 then [] else if n >= 2 + |whole| then whole else whole[..n - 2])
            && o.rest == LeftOver(script, n, 2 + |whole|)
  {
    hide LiftedRun, GrantedUpTo, LeftOver;
    var needed := 2 + |WholeStep(bps, thread, addr)|;
    var s1, s2 := Rest(script), Rest(Rest(script));
    OneGranted(script, n, needed);
    if n > 0 {
      OneGranted(s1, n - 1, needed - 1);
      if n > 1 {
        OneGranted(s2, n - 2, needed - 2);
        if addr !in bps {
          LiftedAsks(bps, thread, addr, s2, n - 2);
        } else if n > 2 {
          LiftedAsks(bps, thread, addr, Rest(s2), n - 3);
        }
      }
    }
  }

  /** Reading takes the given number of requests, all of which have to be granted. */
  lemma {:induction false} ReadsAsk(asks: nat, script: seq<Reply>)
    ensures var o := ReadsRun(asks, script);
            && (o.ok <==> asks <= |script| && forall i :: 0 <= i < asks ==> script[i].Done?)
            && (o.ok ==> o.rest == script[asks..])
  {
    if asks > 0 && script != [] && script[0].Done? {
      ReadsAsk(asks - 1, script[1..]);
      assert forall i :: 0 < i < asks && i < |script| ==> script[i] == script[1..][i - 1];
      assert forall i :: 0 <= i < asks - 1 && i < |script| - 1 ==> script[1..][i] == script[i + 1];
    }
  }

  /** The last n replies before the rest are grants. */
  predicate EndsGranted(script: seq<Reply>, rest: seq<Reply>, n: nat) {
    && Suffix(rest, script) && n <= |script| - |rest|
    && forall i :: |script| - |rest| - n <= i < |script| - |rest| ==> script[i].Done?
  }

  lemma EndsLater(script: seq<Reply>, later: seq<Reply>, rest: seq<Reply>, n: nat)
    requires Suffix(later, script) && EndsGranted(later, rest, n)
    ensures EndsGranted(script, rest, n)
  {
    var k := |script| - |later|;
    assert forall i :: k <= i < |script| ==> script[i] == later[i - k];
  }

  /** Reading the goroutine succeeds only with an answer about where its structure is, followed by as many as there
      are reads, however often it was interrupted before; and of the other threads exactly those that were named
      on the way have made a step. */
  lemma {:induction false} InfoAsks(bps: set<Addr>, thread: ThreadId, asks: nat, script: seq<Reply>, t: ThreadId)
    requires InfoRun(bps, thread, asks, script).ok
    ensures var o := InfoRun(bps, thread, asks, script);
            && EndsGranted(script, o.rest, asks + 1)
            && (t != thread ==> (Count(o.acts, t) == 0 <==> !Named(script, |o.rest|, t)))
    decreases |script|
  {
    hide OthersRun, Count, Named, ReadsRun;
    var o, rest := InfoRun(bps, thread, asks, script), Rest(script);
    NamedHead(script, t);
    if Head(script).Done? {
      ReadsAsk(asks, rest);
      NobodyNamed(rest, asks, t);
      NothingDone(script, t);
      NamedThen(script, rest, o.rest, t);
      assert o.rest == script[asks + 1..];
    } else {
      var others := Head(script).threads;
      var o1 := OthersRun(bps, thread, others, rest);
      OthersOnce(bps, thread, others, rest, t);
      InfoAsks(bps, thread, asks, o1.rest, t);
      var more := InfoRun(bps, thread, asks, o1.rest);
      CountPrefixed(o1.acts, more, t);
      NamedThen(rest, o1.rest, o.rest, t);
      NamedThen(script, rest, o.rest, t);
      EndsLater(rest, o1.rest, o.rest, asks + 1);
      EndsLater(script, rest, o.rest, asks + 1);
    }
  }

  lemma {:induction false} NobodyNamed(script: seq<Reply>, n: nat, t: ThreadId)
    requires n <= |script| && forall i :: 0 <= i < n ==> script[i].Done?
    ensures !Named(script, |script| - n, t) && Suffix(script[n..], script)
  {
    if n > 0 {
      NobodyNamed(script[1..], n - 1, t);
    }
  }

  lemma PlainStep(bps: set<Addr>, x: ThreadId, addr: Addr, tail: seq<Reply>)
    requires addr !in bps
    ensures StepRun(bps, x, addr, [Done(0), Done(0), Done(0)] + tail) == Outcome(true, tail, [Executes(addr, x)])
  {
    var script := [Done(0), Done(0), Done(0)] + tail;
    assert Rest(script) == [Done(0), Done(0)] + tail && Rest(Rest(script)) == [Done(0)] + tail;
    assert Rest([Done(0)] + tail) == tail;
    assert LiftedRun(bps, x, addr, [Done(0)] + tail) == Outcome(true, tail, [Executes(addr, x)]);
  }

  /** The thread is stopped together with the next one, which is stepped, and then the thread once more. */
  function BothStopped(thread: ThreadId, elsewhere: Addr): seq<Reply> {
    [Unspecified([thread, thread + 1]), Done(Wrap(elsewhere + 1))]
    + ([Done(0), Done(0), Done(0)] + [Done(0), Done(0), Done(0)])
  }

  lemma OtherStepped(bps: set<Addr>, thread: ThreadId, elsewhere: Addr)
    requires elsewhere !in bps
    ensures var three := [Done(0), Done(0), Done(0)];
            OthersRun(bps, thread, [thread, thread + 1], Rest(BothStopped(thread, elsewhere)))
            == Outcome(true, three, [Executes(elsewhere, thread + 1)])
  {
    hide StepRun;
    var three := [Done(0), Done(0), Done(0)];
    var rest := Rest(BothStopped(thread, elsewhere));
    assert rest == [Done(Wrap(elsewhere + 1))] + (three + three) && Rest(rest) == three + three;
    assert Wrap(Wrap(elsewhere + 1) - 1) == elsewhere;
    PlainStep(bps, thread + 1, elsewhere, three);
    assert [thread, thread + 1][1..] == [thread + 1] && [thread + 1][1..] == [];
    assert OthersRun(bps, thread, [], three) == Outcome(true, three, []);
    assert [Executes(elsewhere, thread + 1)] + [] == [Executes(elsewhere, thread + 1)];
    assert OthersRun(bps, thread, [thread + 1], rest) == Outcome(true, three, [Executes(elsewhere, thread + 1)]);
  }

  /** Replies on which a thread executes its instruction twice without an error. */
  lemma MadeTwice(bps: set<Addr>, thread: ThreadId, addr: Addr, elsewhere: Addr)
    requires addr !in bps && elsewhere !in bps
    ensures StepRun(bps, thread, addr, [Done(0), Done(0)] + BothStopped(thread, elsewhere))
            == Outcome(true, [], [Executes(addr, thread), Executes(elsewhere, thread + 1), Executes(addr, thread)])
  {
    var both := BothStopped(thread, elsewhere);
    var script := [Done(0), Done(0)] + both;
    assert Rest(script) == [Done(0)] + both && Rest(Rest(script)) == both;
    OtherStepped(bps, thread, elsewhere);
    PlainStep(bps, thread, addr, []);
    assert [Done(0), Done(0), Done(0)] + [] == [Done(0), Done(0), Done(0)];
    var more := [Executes(elsewhere, thread + 1)] + [Executes(addr, thread)];
    assert [Executes(addr, thread)] + more
        == [Executes(addr, thread), Executes(elsewhere, thread + 1), Executes(addr, thread)];
    BothRun(bps, thread, addr, elsewhere);
  }

  lemma BothRun(bps: set<Addr>, thread: ThreadId, addr: Addr, elsewhere: Addr)
    requires var three := [Done(0), Done(0), Done(0)];
             && OthersRun(bps, thread, [thread, thread + 1], Rest(BothStopped(thread, elsewhere)))
                == Outcome(true, three, [Executes(elsewhere, thread + 1)])
             && StepRun(bps, thread, addr, three) == Outcome(true, [], [Executes(addr, thread)])
    ensures LiftedRun(bps, thread, addr, BothStopped(thread, elsewhere))
            == Outcome(true, [],
                       [Executes(addr, thread)] + ([Executes(elsewhere, thread + 1)] + [Executes(addr, thread)]))
  {
    hide StepRun, OthersRun;
    assert Head(BothStopped(thread, elsewhere)) == Unspecified([thread, thread + 1]);
  }
}
