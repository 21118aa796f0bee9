/** Which threads are stopped, as the ptrace client keeps count of them. */
module LinuxThreads {
  import opened Base

  type ThreadId = int

  const SIGTRAP: int := 5

  /** A thread runs, is stopped and was reported, or was just cloned and has not been waited for. */
  datatype State = Running | Halted | Fresh

  /** What wait4 reports of a thread. A clone event is a trap that names the new thread. */
  datatype Status =
    | Stopped(signal: int, cloned: Option<ThreadId>)
    | Exited(code: int)
    | CoreDump
    | Signaled(number: int)
    | Continued

  datatype Report = Report(thread: ThreadId, status: Status) | Ready | Error

  datatype Event = Trapped(thread: ThreadId) | ExitedWith(code: int) | Dumped | Terminated(signal: int) | NoEvent

  /** A stopped thread was set running and given a signal, or none, which is zero. */
  datatype Resumption = Resumption(thread: ThreadId, signal: int)

  /** The kernel. It chooses freely what to report next, which is `script`, but it reports only threads that
      run, and a cloned thread only after the clone event. For the threads in `refused` requests fail. What
      failed is counted. */
  class Kernel {
    var threads: map<ThreadId, State>
    var messages: map<ThreadId, ThreadId>
    var script: seq<Report>
    var resumed: seq<Resumption>
    ghost var failures: nat
    const refused: set<ThreadId>

    constructor (threads: map<ThreadId, State>, script: seq<Report>, refused: set<ThreadId>)
      ensures this.threads == threads && this.script == script && this.refused == refused && resumed == []
    {
      this.threads, this.messages, this.script, this.refused, this.resumed := threads, map[], script, refused, [];
      this.failures := 0;
    }

    predicate Is(t: ThreadId, s: State)
      reads this`threads
    {
      t in threads && threads[t] == s
    }

    method Resume(t: ThreadId, signal: int) returns (ok: bool)
      modifies this`threads, this`resumed, this`failures
      ensures ok <==> old(Is(t, Halted)) && t !in refused
      ensures failures == old(failures) + if ok then 0 else 1
      ensures threads == if ok then old(threads)[t := Running] else old(threads)
      ensures resumed == old(resumed) + if ok then [Resumption(t, signal)] else []
    {
      ok := Is(t, Halted) && t !in refused;
      if ok {
        threads := threads[t := Running];
        resumed := resumed + [Resumption(t, signal)];
      } else {
        failures := failures + 1;
      }
    }

    method Take() returns (r: Report)
      modifies this`script
      ensures old(script) == [] ==> r == Error && script == []
      ensures old(script) != [] ==> r == old(script)[0] && script == old(script)[1..]
    {
      if script == [] {
        r := Error;
      } else {
        r, script := script[0], script[1..];
      }
    }

    /** The next report of any thread, or of the given one. */
    method Wait(which: Option<ThreadId>) returns (r: Option<(ThreadId, Status)>)
      modifies this`threads, this`messages, this`script, this`failures
      ensures old(script) != [] ==> script == old(script)[1..]
      ensures r.Some? ==> old(script) != [] && old(script)[0] == Report(r.value.0, r.value.1)
      ensures r.None? ==> threads == old(threads)
      ensures r.Some? <==> Reportable(old(threads), which, old(script))
      ensures failures == old(failures) + if r.Some? then 0 else 1
      ensures r.Some? ==>
                var (t, status) := r.value;
                && old(Is(t, Running)) && (which.Some? ==> t == which.value)
                && match status
                   case Stopped(signal, None) => threads == old(threads)[t := Halted]
                   case Stopped(signal, Some(child)) =>
                     && signal == SIGTRAP && child !in old(threads)
                     && threads == old(threads)[t := Halted][child := Fresh]
                     && t in messages && messages[t] == child
                   case Continued => threads == old(threads)
                   case _ => threads == old(threads) - {t}
    {
      var report := Take();
      if !report.Report? || !Is(report.thread, Running) || (which.Some? && report.thread != which.value) {
        failures := failures + 1;
        return None;
      }
      var t := report.thread;
      match report.status {
        case Stopped(signal, None) => threads := threads[t := Halted];
        case Stopped(signal, Some(child)) =>
          if signal != SIGTRAP || child in threads {
            failures := failures + 1;
            return None;
          }
          threads := threads[t := Halted][child := Fresh];
          messages := messages[t := child];
        case Continued =>
        case _ => threads := threads - {t};
      }
      r := Some((t, report.status));
    }

    /** Waiting for a thread that was cloned, or that is attached, to stop for the first time. */
    method WaitNew(t: ThreadId) returns (ok: bool)
      modifies this`threads, this`script, this`failures
      ensures ok <==> old(Is(t, Fresh) && script != [] && script[0].Ready?)
      ensures failures == old(failures) + if ok then 0 else 1
      ensures threads == if ok then old(threads)[t := Halted] else old(threads)
      ensures script == if old(script) == [] then [] else old(script)[1..]
    {
      var report := Take();
      ok := report.Ready? && Is(t, Fresh);
      if ok {
        threads := threads[t := Halted];
      } else {
        failures := failures + 1;
      }
    }
  }

  // ----- which event is reported in the end, as a function of the threads and the reports

  /** The next report is of a running thread that is waited for; a cloned thread was not there before. */
  predicate Reportable(threads: map<ThreadId, State>, which: Option<ThreadId>, script: seq<Report>) {
    && script != [] && script[0].Report?
    && script[0].thread in threads && threads[script[0].thread] == Running
    && (which.Some? ==> script[0].thread == which.value)
    && match script[0].status
       case Stopped(signal, Some(child)) => signal == SIGTRAP && child !in threads
       case _ => true
  }

  function Released(threads: map<ThreadId, State>): map<ThreadId, State> {
    map t | t in threads :: if threads[t] == Halted then Running else threads[t]
  }

  /** All stopped threads are resumed and the next report is waited for. */
  ghost function NextEvent(threads: map<ThreadId, State>, refused: set<ThreadId>, script: seq<Report>): Option<Event>
    decreases |script|, 1
  {
    if exists t :: t in threads && threads[t] == Halted && t in refused then None
    else ReportedEvent(Released(threads), None, refused, script)
  }

  /** A trap, or the end of a thread, is the event. After any other report all are resumed again, after a clone
      event when the new thread was set running. */
  ghost function ReportedEvent(threads: map<ThreadId, State>, which: Option<ThreadId>, refused: set<ThreadId>,
                               script: seq<Report>): Option<Event>
    decreases |script|, 0
  {
    if !Reportable(threads, which, script) then None
    else HandledEvent(threads, script[0].thread, script[0].status, refused, script[1..])
  }

  ghost function HandledEvent(threads: map<ThreadId, State>, thread: ThreadId, status: Status, refused: set<ThreadId>,
                              script: seq<Report>): Option<Event>
    decreases |script|, 2
  {
    match status
    case Stopped(signal, None) =>
      if signal == SIGTRAP then Some(Trapped(thread)) else NextEvent(threads[thread := Halted], refused, script)
    case Stopped(_, Some(child)) =>
      if script == [] || !script[0].Ready? || child in refused then None
      else NextEvent(threads[thread := Halted][child := Running], refused, script[1..])
    case Exited(code) => Some(ExitedWith(code))
    case CoreDump => Some(Dumped)
    case Signaled(number) => Some(Terminated(number))
    case Continued => Some(NoEvent)
  }

  // ----- the event is what the first report says that ends the waiting

  /** The event that is made of a report: of a trap without a clone, and of the end of a thread. */
  predicate Says(report: Report, event: Event) {
    report.Report? &&
    match event
    case Trapped(t) => report.thread == t && report.status == Stopped(5, None)
    case ExitedWith(code) => report.status == Exited(code)
    case Dumped => report.status == CoreDump
    case Terminated(signal) => report.status == Signaled(signal)
    case NoEvent => report.status == Continued
  }

  /** A first stop, a stop by a signal that is no trap, or a clone event. */
  predicate PassedOver(report: Report) {
    || report.Ready?
    || (report.Report? && report.status.Stopped? && (report.status.signal != 5 || report.status.cloned.Some?))
  }

  ghost predicate FirstSays(script: seq<Report>, event: Event) {
    exists n :: 0 <= n < |script| && Says(script[n], event) && forall j :: 0 <= j < n ==> PassedOver(script[j])
  }

  lemma OneMorePassed(script: seq<Report>, event: Event)
    requires script != [] && PassedOver(script[0]) && FirstSays(script[1..], event)
    ensures FirstSays(script, event)
  {
    var rest := script[1..];
    var n :| 0 <= n < |rest| && Says(rest[n], event) && forall j :: 0 <= j < n ==> PassedOver(rest[j]);
    assert script[n + 1] == rest[n];
    forall j | 0 <= j < n + 1
      ensures PassedOver(script[j])
    {
      assert j > 0 ==> script[j] == rest[j - 1];
    }
  }

  lemma FirstAtOnce(report: Report, script: seq<Report>, event: Event)
    requires Says(report, event)
    ensures FirstSays([report] + script, event)
  {
    assert ([report] + script)[0] == report;
  }

  /** A report that cannot be passed over says which event it is, and no report says two. */
  lemma SaysOne(report: Report, e1: Event, e2: Event)
    ensures Says(report, e1) && Says(report, e2) ==> e1 == e2
    ensures Says(report, e1) ==> !PassedOver(report)
  {
  }

  lemma {:induction false} NextSays(threads: map<ThreadId, State>, refused: set<ThreadId>, script: seq<Report>)
    ensures var event := NextEvent(threads, refused, script); event.Some? ==> FirstSays(script, event.value)
    decreases |script|, 1
  {
    hide FirstSays, Released, ReportedEvent;
    ReportedSays(Released(threads), None, refused, script);
  }

  lemma {:induction false} ReportedSays(threads: map<ThreadId, State>, which: Option<ThreadId>, refused: set<ThreadId>,
                                        script: seq<Report>)
    ensures var event := ReportedEvent(threads, which, refused, script); event.Some? ==> FirstSays(script, event.value)
    decreases |script|, 0
  {
    hide FirstSays, HandledEvent;
    if Reportable(threads, which, script) {
      HandledSays(threads, script[0].thread, script[0].status, refused, script[1..]);
      assert [script[0]] + script[1..] == script && script[0] == Report(script[0].thread, script[0].status);
    }
  }

  lemma {:induction false} HandledSays(threads: map<ThreadId, State>, thread: ThreadId, status: Status,
                                       refused: set<ThreadId>, script: seq<Report>)
    ensures var event := HandledEvent(threads, thread, status, refused, script);
            event.Some? ==> FirstSays([Report(thread, status)] + script, event.value)
    decreases |script|, 2
  {
    hide FirstSays, NextEvent;
    var result := HandledEvent(threads, thread, status, refused, script);
    if result.Some? {
      var event, all := result.value, [Report(thread, status)] + script;
      assert all[1..] == script;
      match status
      case Stopped(signal, None) =>
        if signal == SIGTRAP {
          FirstAtOnce(Report(thread, status), script, event);
        } else {
          NextSays(threads[thread := Halted], refused, script);
          OneMorePassed(all, event);
        }
      case Stopped(signal, Some(child)) =>
        NextSays(threads[thread := Halted][child := Running], refused, script[1..]);
        OneMorePassed(script, event);
        OneMorePassed(all, event);
      case _ => FirstAtOnce(Report(thread, status), script, event);
    }
  }

  ghost predicate AllRun(threads: map<ThreadId, State>, refused: set<ThreadId>) {
    forall t :: t in threads ==> threads[t] == Running && t !in refused
  }

  /** Signals that stop threads, and clone events each followed by the first stop of the new thread. */
  ghost predicate Passing(threads: map<ThreadId, State>, refused: set<ThreadId>, reports: seq<Report>)
    decreases |reports|
  {
    reports == [] ||
    (reports[0].Report? && reports[0].thread in threads && reports[0].status.Stopped? &&
     match reports[0].status.cloned
     case None => reports[0].status.signal != SIGTRAP && Passing(threads, refused, reports[1..])
     case Some(child) =>
       && reports[0].status.signal == SIGTRAP && child !in threads && child !in refused
       && |reports| >= 2 && reports[1].Ready? && Passing(threads[child := Running], refused, reports[2..]))
  }

  function WithClones(threads: map<ThreadId, State>, reports: seq<Report>): map<ThreadId, State>
    decreases |reports|
  {
    if reports == [] then threads
    else if reports[0].Report? && reports[0].status.Stopped? && reports[0].status.cloned.Some? then
      WithClones(threads[reports[0].status.cloned.value := Running], reports[1..])
    else WithClones(threads, reports[1..])
  }

  lemma BackToRunning(threads: map<ThreadId, State>, refused: set<ThreadId>, t: ThreadId, script: seq<Report>)
    requires AllRun(threads, refused) && t in threads
    ensures NextEvent(threads[t := Halted], refused, script) == ReportedEvent(threads, None, refused, script)
  {
    hide ReportedEvent;
    var halted := threads[t := Halted];
    forall k | k in threads
      ensures Released(halted)[k] == threads[k] && k !in refused
    {
      assert threads[k] == Running;
    }
    assert Released(halted) == threads;
  }

  /** However many signals and clone events there are, what is reported in the end is the event that comes
      after them, and the new threads count. */
  lemma {:induction false} Passed(threads: map<ThreadId, State>, refused: set<ThreadId>, reports: seq<Report>,
                                  rest: seq<Report>)
    requires AllRun(threads, refused) && Passing(threads, refused, reports)
    ensures ReportedEvent(threads, None, refused, reports + rest)
            == ReportedEvent(WithClones(threads, reports), None, refused, rest)
    decreases |reports|
  {
    if reports == [] {
      assert reports + rest == rest;
    } else {
      hide NextEvent, Released;
      var all, t := reports + rest, reports[0].thread;
      assert all[0] == reports[0] && all[1..] == reports[1..] + rest;
      if reports[0].status.cloned.None? {
        BackToRunning(threads, refused, t, all[1..]);
        Passed(threads, refused, reports[1..], rest);
      } else {
        var child := reports[0].status.cloned.value;
        var more := threads[child := Running];
        assert all[1] == reports[1] && all[1..][1..] == reports[2..] + rest;
        assert reports[1..][1..] == reports[2..];
        assert threads[t := Halted][child := Running] == more[t := Halted];
        BackToRunning(more, refused, t, reports[2..] + rest);
        Passed(more, refused, reports[2..], rest);
      }
    }
  }

  /** And that event is reported: waiting for all threads fails for no other reason than the ones excluded here. */
  lemma EventComes(threads: map<ThreadId, State>, refused: set<ThreadId>, reports: seq<Report>, last: Report,
                   rest: seq<Report>, event: Event)
    requires AllRun(threads, refused) && Passing(threads, refused, reports)
    requires Says(last, event) && last.thread in WithClones(threads, reports)
    requires WithClones(threads, reports)[last.thread] == Running
    ensures ReportedEvent(threads, None, refused, reports + [last] + rest) == Some(event)
  {
    hide Passing, WithClones, AllRun;
    Passed(threads, refused, reports, [last] + rest);
    assert reports + [last] + rest == reports + ([last] + rest);
    assert ([last] + rest)[0] == last;
  }

  /** What a report says of the threads does not matter any more when it is handled. */
  lemma HandledSame(threads: map<ThreadId, State>, now: map<ThreadId, State>, thread: ThreadId, status: Status,
                    refused: set<ThreadId>, script: seq<Report>)
    requires status.Stopped? ==>
               || now == threads[thread := Halted]
               || (status.cloned.Some? && now == threads[thread := Halted][status.cloned.value := Fresh])
    requires status.Stopped? && status.cloned.Some? ==> status.cloned.value != thread
    ensures HandledEvent(threads, thread, status, refused, script) == HandledEvent(now, thread, status, refused, script)
  {
    hide NextEvent;
    if status.Stopped? {
      assert threads[thread := Halted][thread := Halted] == threads[thread := Halted];
      if status.cloned.Some? {
        var child := status.cloned.value;
        assert now[thread := Halted][child := Running] == threads[thread := Halted][child := Running];
      } else {
        assert now[thread := Halted] == threads[thread := Halted];
      }
    }
  }

  predicate Distinct(s: seq<ThreadId>) {
    forall i, j :: 0 <= i < j < |s| ==> s[i] != s[j]
  }

  function Without(s: seq<ThreadId>, t: ThreadId): (r: seq<ThreadId>)
  {
    if s == [] then [] else (if s[0] == t then [] else [s[0]]) + Without(s[1..], t)
  }

  lemma {:induction false} WithoutMembers(s: seq<ThreadId>, t: ThreadId)
    ensures forall x :: x in Without(s, t) <==> x in s && x != t
    ensures t !in s ==> Without(s, t) == s
  {
    if s != [] {
      WithoutMembers(s[1..], t);
      assert s == [s[0]] + s[1..];
    }
  }

  lemma {:induction false} WithoutDistinct(s: seq<ThreadId>, t: ThreadId)
    requires Distinct(s)
    ensures Distinct(Without(s, t))
  {
    if s != [] {
      WithoutDistinct(s[1..], t);
      WithoutMembers(s[1..], t);
      assert s[0] !in s[1..];
    }
  }

  lemma {:induction false} WithoutCut(s: seq<ThreadId>, k: nat, t: ThreadId)
    requires Distinct(s) && k < |s| && s[k] == t
    ensures Without(s, t) == s[..k] + s[k + 1..]
  {
    if k == 0 {
      WithoutMembers(s[1..], t);
    } else {
      WithoutCut(s[1..], k - 1, t);
      var rest := s[1..];
      assert rest[..k - 1] == s[1..k] && rest[k..] == s[k + 1..] && s[..k] == [s[0]] + s[1..k];
      assert [s[0]] + (s[1..k] + s[k + 1..]) == [s[0]] + s[1..k] + s[k + 1..];
    }
  }

  /** The thread is cut out of the list while a loop runs over the same memory, for as many rounds as the
      list had elements before; the elements behind it move down by one under the loop's feet. When the
      elements are distinct that does no harm. */
  method Remove(ids: array<ThreadId>, thread: ThreadId) returns (n: nat)
    requires Distinct(ids[..])
    modifies ids
    ensures n <= ids.Length && ids[..n] == Without(old(ids[..]), thread)
  {
    hide Distinct, Without, Moving, Shifted;
    n := ids.Length;
    ghost var was := ids[..];
    for i := 0 to ids.Length
      invariant Round(was, ids[..], n, i, thread)
    {
      var candidate := ids[i];
      if candidate == thread {
        NotThere(was, ids[..], n, i, thread);
        MoveNone(was, i);
        var j := i;
        while j + 1 < n
          invariant i <= j < n == ids.Length
          invariant Moving(was, ids[..], i, j)
        {
          MoveOne(was, ids[..], i, j);
          ids[j] := ids[j + 1];
          j := j + 1;
        }
        n := n - 1;
        MovedDown(was, ids[..], i, thread);
      }
    }
    Removed(was, ids[..], n, thread);
  }

  /** The elements behind place i were moved down by one as far as place j. */
  predicate Moving(was: seq<ThreadId>, now: seq<ThreadId>, i: nat, j: nat) {
    && i <= j < |was| == |now|
    && (forall k :: 0 <= k < i ==> now[k] == was[k])
    && (forall k :: i <= k < j ==> now[k] == was[k + 1])
    && (forall k :: j <= k < |was| ==> now[k] == was[k])
  }

  lemma MoveNone(was: seq<ThreadId>, i: nat)
    requires i < |was|
    ensures Moving(was, was, i, i)
  {
  }

  lemma MoveOne(was: seq<ThreadId>, now: seq<ThreadId>, i: nat, j: nat)
    requires Moving(was, now, i, j) && j + 1 < |was|
    ensures Moving(was, now[j := now[j + 1]], i, j + 1)
  {
  }

  lemma MovedDown(was: seq<ThreadId>, now: seq<ThreadId>, i: nat, thread: ThreadId)
    requires i < |was| && was[i] == thread && Moving(was, now, i, |was| - 1)
    ensures Shifted(was, now, i, thread)
  {
    assert was[..i] + was[i + 1..] == now[..|was| - 1];
  }

  /** The k-th element was cut out, and the last place holds what it held before. */
  predicate Shifted(was: seq<ThreadId>, now: seq<ThreadId>, k: nat, thread: ThreadId) {
    && k < |was| == |now| && was[k] == thread
    && now[..|was| - 1] == was[..k] + was[k + 1..] && now[|was| - 1] == was[|was| - 1]
  }

  /** After i rounds: nothing was found yet, or one element was cut out. */
  ghost predicate Round(was: seq<ThreadId>, now: seq<ThreadId>, n: nat, i: nat, thread: ThreadId) {
    && i <= |was| == |now|
    && if n == |was| then now == was && thread !in was[..i]
       else n + 1 == |was| && exists k :: 0 <= k < i && Shifted(was, now, k, thread)
  }

  lemma NotThere(was: seq<ThreadId>, now: seq<ThreadId>, n: nat, i: nat, thread: ThreadId)
    requires Distinct(was) && Round(was, now, n, i, thread) && i < |was|
    ensures n < |was| ==> now[i] != thread
  {
    if n < |was| {
      var k :| 0 <= k < i && Shifted(was, now, k, thread);
      if i < |was| - 1 {
        assert now[i] == now[..|was| - 1][i] == was[i + 1];
      }
    }
  }

  lemma Removed(was: seq<ThreadId>, now: seq<ThreadId>, n: nat, thread: ThreadId)
    requires Distinct(was) && Round(was, now, n, |was|, thread)
    ensures n <= |now| && now[..n] == Without(was, thread)
  {
    if n == |was| {
      assert was[..|was|] == was;
      WithoutMembers(was, thread);
    } else {
      var k :| 0 <= k < |was| && Shifted(was, now, k, thread);
      WithoutCut(was, k, thread);
    }
  }

  lemma Head(ids: seq<ThreadId>, i: nat)
    requires Distinct(ids) && i < |ids|
    ensures ids[i] !in ids[i + 1..]
    ensures forall t :: t in ids[i..] <==> t == ids[i] || t in ids[i + 1..]
  {
    assert ids[i..] == [ids[i]] + ids[i + 1..];
  }

  // ----- the client

  function Sent(ids: seq<ThreadId>, signal: int): seq<Resumption> {
    seq(|ids|, i requires 0 <= i < |ids| => Resumption(ids[i], signal))
  }

  class Client {
    const kernel: Kernel
    var tracingThreadIDs: seq<ThreadId>
    var trappedThreadIDs: seq<ThreadId>

    constructor (kernel: Kernel)
      requires forall t :: t in kernel.threads ==> kernel.threads[t] == Fresh
      ensures this.kernel == kernel && Accounted() && trappedThreadIDs == []
    {
      this.kernel, this.tracingThreadIDs, this.trappedThreadIDs := kernel, [], [];
    }

    /** The list names every thread that is stopped and was reported, once, and every thread that can be
        reported is traced. */
    ghost predicate Accounted()
      reads this, kernel
    {
      && Distinct(trappedThreadIDs)
      && (forall t :: t in trappedThreadIDs <==> kernel.Is(t, Halted))
      && (forall t :: t in kernel.threads && kernel.threads[t] != Fresh ==> t in tracingThreadIDs)
    }

    method WaitAndInitialize(thread: ThreadId) returns (ok: bool)
      requires Accounted()
      modifies this, kernel
      ensures Accounted()
      ensures ok <==> old(kernel.Is(thread, Fresh) && kernel.script != [] && kernel.script[0].Ready?)
      ensures ok ==> kernel.threads == old(kernel.threads)[thread := Halted] && kernel.resumed == old(kernel.resumed)
      ensures kernel.script == if old(kernel.script) == [] then [] else old(kernel.script)[1..]
      ensures ok ==> trappedThreadIDs == old(trappedThreadIDs) + [thread]
      ensures ok ==> tracingThreadIDs == old(tracingThreadIDs) + [thread]
    {
      assert kernel.Is(thread, Fresh) ==> thread !in trappedThreadIDs;
      ok := kernel.WaitNew(thread);
      if ok {
        tracingThreadIDs := tracingThreadIDs + [thread];
        trappedThreadIDs := trappedThreadIDs + [thread];
      }
    }

    ghost predicate NoneRefused(ids: seq<ThreadId>) {
      forall t :: t in ids ==> t !in kernel.refused
    }

    /** Every stopped thread is resumed with the signal. After an error some may run that are still listed. */
    method ResumeAll(sig: int) returns (ok: bool)
      requires Accounted()
      modifies this`trappedThreadIDs, kernel`threads, kernel`resumed, kernel`failures
      ensures ok ==> Accounted() && trappedThreadIDs == []
      ensures ok <==> NoneRefused(old(trappedThreadIDs))
      ensures kernel.failures == old(kernel.failures) + if ok then 0 else 1
      ensures ok ==> kernel.threads == Released(old(kernel.threads))
      ensures ok ==> kernel.resumed == old(kernel.resumed) + Sent(old(trappedThreadIDs), sig)
      ensures kernel.threads.Keys == old(kernel.threads.Keys)
      ensures forall t :: t in kernel.threads ==> (kernel.threads[t] == Fresh <==> old(kernel.threads)[t] == Fresh)
    {
      var ids := trappedThreadIDs;
      for i := 0 to |ids|
        invariant trappedThreadIDs == ids
        invariant kernel.threads.Keys == old(kernel.threads.Keys)
        invariant forall t :: t in kernel.threads ==> (kernel.threads[t] == Fresh <==> old(kernel.threads)[t] == Fresh)
        invariant forall t :: kernel.Is(t, Halted) <==> t in ids[i..]
        invariant kernel.resumed == old(kernel.resumed) + Sent(ids[..i], sig)
        invariant NoneRefused(ids[..i]) && kernel.failures == old(kernel.failures)
        invariant forall t :: t in kernel.threads ==>
                                kernel.threads[t] == if t in ids[..i] then Running else old(kernel.threads)[t]
      {
        Head(ids, i);
        ghost var before := kernel.threads;
        assert forall t :: t in before && before[t] == Halted <==> t in ids[i..] by {
          assert forall t :: kernel.Is(t, Halted) <==> t in before && before[t] == Halted;
        }
        assert Sent(ids[..i + 1], sig) == Sent(ids[..i], sig) + [Resumption(ids[i], sig)];
        ok := kernel.Resume(ids[i], sig);
        if !ok {
          assert ids[i] in ids;
          return;
        }
        assert ids[..i + 1] == ids[..i] + [ids[i]];
        forall t
          ensures kernel.Is(t, Halted) <==> t in ids[i + 1..]
        {
          assert t in ids[i..] <==> t == ids[i] || t in ids[i + 1..];
        }
      }
      assert ids[..|ids|] == ids;
      assert forall t :: t in ids ==> t in kernel.threads && !kernel.Is(t, Halted);
      AllReleased(old(kernel.threads), kernel.threads, ids);
      trappedThreadIDs := [];
      ok := true;
    }

    lemma AllReleased(threads: map<ThreadId, State>, now: map<ThreadId, State>, ids: seq<ThreadId>)
      requires threads.Keys == now.Keys && forall t :: t in ids <==> t in threads && threads[t] == Halted
      requires forall t :: t in now ==> now[t] == if t in ids then Running else threads[t]
      ensures now == Released(threads)
    {
      forall t | t in now
        ensures now[t] == if threads[t] == Halted then Running else threads[t]
      {
        assert t in ids <==> threads[t] == Halted;
      }
    }

    /** Resuming fails for a listed thread, or the next report decides. */
    lemma NextIs()
      requires Accounted()
      ensures NextEvent(kernel.threads, kernel.refused, kernel.script)
              == if !NoneRefused(trappedThreadIDs) then None
                 else ReportedEvent(Released(kernel.threads), None, kernel.refused, kernel.script)
    {
      hide ReportedEvent;
      assert forall t :: t in trappedThreadIDs <==> t in kernel.threads && kernel.threads[t] == Halted by {
        assert forall t :: kernel.Is(t, Halted) <==> t in kernel.threads && kernel.threads[t] == Halted;
      }
    }

    /** What is left to be done with a report. */
    lemma ReportIs(threads: map<ThreadId, State>, which: Option<ThreadId>, script: seq<Report>)
      ensures ReportedEvent(threads, which, kernel.refused, script)
              == if !Reportable(threads, which, script) then None
                 else HandledEvent(threads, script[0].thread, script[0].status, kernel.refused, script[1..])
    {
    }

    /** A trapped thread that is reported is the only one in the list, since all were resumed before. A
        signal goes to every thread in the list. */
    method ContinueAndWait(sig: int) returns (r: Option<Event>)
      requires Accounted()
      modifies this, kernel
      ensures r.Some? ==> Accounted()
      ensures r.Some? ==> trappedThreadIDs == if r.value.Trapped? then [r.value.thread] else []
      ensures r.Some? ==> old(kernel.resumed) + Sent(old(trappedThreadIDs), sig) <= kernel.resumed
      ensures kernel.failures == old(kernel.failures) + if r.Some? then 0 else 1
      ensures r == NextEvent(old(kernel.threads), kernel.refused, old(kernel.script))
      ensures r.Some? ==> FirstSays(old(kernel.script), r.value)
      decreases |kernel.script|, 1
    {
      hide NextEvent, ReportedEvent, HandledEvent, Released, Sent, NoneRefused, Reportable, FirstSays;
      NextIs();
      NextSays(kernel.threads, kernel.refused, kernel.script);
      var resumed := ResumeAll(sig);
      if !resumed {
        return None;
      }
      ghost var threads, script := kernel.threads, kernel.script;
      ReportIs(threads, None, script);
      var waited := kernel.Wait(None);
      if waited.None? {
        return None;
      }
      HandledSame(threads, kernel.threads, waited.value.0, waited.value.1, kernel.refused, kernel.script);
      r := HandleWaitStatus(waited.value.1, waited.value.0);
    }

    /** The list without the thread, which the loop in place cuts out. */
    method Unlist(thread: ThreadId)
      requires Distinct(trappedThreadIDs)
      modifies this`trappedThreadIDs
      ensures trappedThreadIDs == Without(old(trappedThreadIDs), thread) && Distinct(trappedThreadIDs)
      ensures forall t :: t in trappedThreadIDs <==> t in old(trappedThreadIDs) && t != thread
    {
      var n := |trappedThreadIDs|;
      var ids := new ThreadId[n](i requires 0 <= i < |trappedThreadIDs| reads this => trappedThreadIDs[i]);
      assert ids[..] == trappedThreadIDs;
      n := Remove(ids, thread);
      WithoutMembers(trappedThreadIDs, thread);
      WithoutDistinct(trappedThreadIDs, thread);
      trappedThreadIDs := ids[..n];
    }

    /** One instruction of the thread. The thread named by a trap is in the list; if nothing else happened
        the rest of the list is as before. */
    method StepAndWait(thread: ThreadId) returns (r: Option<Event>)
      requires Accounted()
      modifies this, kernel
      ensures r.Some? ==> Accounted()
      ensures r.Some? && r.value.Trapped? ==> r.value.thread in trappedThreadIDs
      ensures r.Some? && r.value.Trapped? ==>
                || trappedThreadIDs == Without(old(trappedThreadIDs), thread) + [thread]
                || trappedThreadIDs == [r.value.thread]
      ensures r.Some? ==> old(kernel.resumed) + [Resumption(thread, 0)] <= kernel.resumed
      ensures r.Some? ==> && old(kernel.script) != [] && old(kernel.script)[0].Report?
                          && var listed := Without(old(trappedThreadIDs), thread);
                             old(kernel.resumed) + [Resumption(thread, 0)]
                             + Answered(old(kernel.script)[0].status, thread, listed) <= kernel.resumed
      ensures kernel.failures == old(kernel.failures) + if r.Some? then 0 else 1
      ensures r == if thread !in old(trappedThreadIDs) || thread in kernel.refused then None
                   else ReportedEvent(old(kernel.threads)[thread := Running], Some(thread), kernel.refused,
                                      old(kernel.script))
      ensures r.Some? ==> FirstSays(old(kernel.script), r.value)
    {
      hide ReportedEvent, HandledEvent, Answered, Without, Reportable, FirstSays;
      ReportedSays(kernel.threads[thread := Running], Some(thread), kernel.refused, kernel.script);
      var stepped := kernel.Resume(thread, 0);
      if !stepped {
        return None;
      }
      Unlist(thread);
      ghost var threads, script := kernel.threads, kernel.script;
      ReportIs(threads, Some(thread), script);
      var waited := kernel.Wait(Some(thread));
      if waited.None? {
        return None;
      }
      HandledSame(threads, kernel.threads, waited.value.0, waited.value.1, kernel.refused, kernel.script);
      r := HandleWaitStatus(waited.value.1, waited.value.0);
    }

    /** The report of a thread that was running. */
    method HandleWaitStatus(status: Status, thread: ThreadId) returns (r: Option<Event>)
      requires Reported(status, thread)
      modifies this, kernel
      ensures r.Some? ==> Accounted()
      ensures r.Some? ==> ListedAfter(r.value, thread, old(trappedThreadIDs))
      ensures r.Some? ==> old(kernel.resumed) + Answered(status, thread, old(trappedThreadIDs)) <= kernel.resumed
      ensures kernel.failures == old(kernel.failures) + if r.Some? then 0 else 1
      ensures r == HandledEvent(old(kernel.threads), thread, status, kernel.refused, old(kernel.script))
      ensures r.Some? ==> FirstSays([Report(thread, status)] + old(kernel.script), r.value)
      decreases |kernel.script|, 3
    {
      hide Sent, NoneRefused, FirstSays;
      HandledSays(kernel.threads, thread, status, kernel.refused, kernel.script);
      match status {
        case Stopped(signal, cloned) => r := HandleStop(signal, cloned, thread);
        case Exited(code) => r := Some(ExitedWith(code));
        case CoreDump => r := Some(Dumped);
        case Signaled(number) => r := Some(Terminated(number));
        case Continued => r := Some(NoEvent);
      }
    }

    /** Who is listed after a report was handled: the trapped thread, alone if all were resumed. */
    predicate ListedAfter(event: Event, thread: ThreadId, listed: seq<ThreadId>)
      reads this`trappedThreadIDs
    {
      if event.Trapped? then
        || trappedThreadIDs == [event.thread]
        || (event.thread == thread && trappedThreadIDs == listed + [thread])
      else trappedThreadIDs == [] || trappedThreadIDs == listed
    }

    method HandleStop(signal: int, cloned: Option<ThreadId>, thread: ThreadId) returns (r: Option<Event>)
      requires Reported(Stopped(signal, cloned), thread)
      modifies this, kernel
      ensures r.Some? ==> Accounted()
      ensures r.Some? ==> ListedAfter(r.value, thread, old(trappedThreadIDs))
      ensures r.Some? ==>
                old(kernel.resumed) + Answered(Stopped(signal, cloned), thread, old(trappedThreadIDs)) <= kernel.resumed
      ensures kernel.failures == old(kernel.failures) + if r.Some? then 0 else 1
      ensures r == HandledEvent(old(kernel.threads), thread, Stopped(signal, cloned), kernel.refused,
                                old(kernel.script))
      decreases |kernel.script|, 2
    {
      hide Sent, NoneRefused, NextEvent;
      ghost var threads := kernel.threads;
      assert threads[thread := Halted] == threads by { assert kernel.Is(thread, Halted); }
      trappedThreadIDs := trappedThreadIDs + [thread];
      if signal == SIGTRAP {
        if cloned.Some? {
          var continued := ContinueClone(thread);
          if !continued {
            return None;
          }
          r := ContinueAndWait(0);
        } else {
          r := Some(Trapped(thread));
        }
      } else {
        r := ContinueAndWait(signal);
      }
    }

    /** Who is resumed because of a report: nobody for a trap, everybody with the signal that stopped the
        thread, and for a clone event the new thread and then everybody. */
    static function Answered(status: Status, thread: ThreadId, listed: seq<ThreadId>): seq<Resumption> {
      match status
      case Stopped(signal, cloned) =>
        if signal != SIGTRAP then Sent(listed + [thread], signal)
        else if cloned.Some? then [Resumption(cloned.value, 0)] + Sent(listed + [thread], 0)
        else []
      case _ => []
    }

    /** What the list says right after a report, before the report was handled. */
    ghost predicate Reported(status: Status, thread: ThreadId)
      reads this, kernel
    {
      && Distinct(trappedThreadIDs) && thread !in trappedThreadIDs
      && (forall t :: kernel.Is(t, Halted) <==> t in trappedThreadIDs || (status.Stopped? && t == thread))
      && (forall t :: t in kernel.threads && kernel.threads[t] != Fresh ==> t in tracingThreadIDs)
      && (status.Stopped? && status.cloned.Some? ==>
            && status.signal == SIGTRAP && thread in kernel.messages
            && kernel.messages[thread] == status.cloned.value && kernel.Is(status.cloned.value, Fresh))
    }

    /** The new thread is waited for and set running; it is never listed as stopped. */
    method ContinueClone(parent: ThreadId) returns (ok: bool)
      requires Accounted() && parent in kernel.messages && kernel.Is(kernel.messages[parent], Fresh)
      modifies this`tracingThreadIDs, kernel`threads, kernel`script, kernel`resumed, kernel`failures
      ensures ok <==> && old(kernel.script) != [] && old(kernel.script)[0].Ready?
                      && old(kernel.messages)[parent] !in kernel.refused
      ensures kernel.failures == old(kernel.failures) + if ok then 0 else 1
      ensures ok ==> kernel.script == old(kernel.script)[1..]
      ensures ok ==> kernel.threads == old(kernel.threads)[old(kernel.messages)[parent] := Running]
      ensures ok ==> kernel.resumed == old(kernel.resumed) + [Resumption(old(kernel.messages)[parent], 0)]
      ensures ok ==> Accounted() && kernel.messages[parent] in tracingThreadIDs
      ensures |kernel.script| <= |old(kernel.script)|
    {
      var clonedThreadID := kernel.messages[parent];
      tracingThreadIDs := tracingThreadIDs + [clonedThreadID];
      ok := kernel.WaitNew(clonedThreadID);
      if ok {
        ok := kernel.Resume(clonedThreadID, 0);
      }
    }
  }

  const SIGURG: int := 23

  lemma GivenToBoth(resumed: seq<Resumption>)
    requires [] + [Resumption(1, 0)] + Client.Answered(Stopped(SIGURG, None), 1, [2]) <= resumed
    ensures Resumption(2, SIGURG) in resumed
  {
    var sent := Sent([2] + [1], SIGURG);
    assert sent[0] == Resumption(2, SIGURG);
    assert resumed[1] == ([] + [Resumption(1, 0)] + sent)[1];
  }

  lemma SecondTrap()
    ensures var script := [Report(1, Stopped(SIGURG, None)), Report(1, Stopped(SIGTRAP, None))];
            ReportedEvent(map[1 := Running, 2 := Halted], Some(1), {}, script) == Some(Trapped(1))
  {
    var trap := [Report(1, Stopped(SIGTRAP, None))];
    var stopped, running := map[1 := Halted, 2 := Halted], map[1 := Running, 2 := Running];
    assert map[1 := Running, 2 := Halted][1 := Halted] == stopped && Released(stopped) == running;
    assert ReportedEvent(running, None, {}, trap) == Some(Trapped(1));
    assert NextEvent(stopped, {}, trap) == Some(Trapped(1));
  }

  /** Two threads are stopped, the first is to make a step, and a signal stops it. The second thread is given
      that signal as well. */
  method SignalReachesBoth() returns (resumed: seq<Resumption>)
    ensures Resumption(2, SIGURG) in resumed
  {
    var script := [Ready, Ready, Report(1, Stopped(SIGURG, None)), Report(1, Stopped(SIGTRAP, None))];
    hide Client.Answered, Sent, Without, ReportedEvent;
    var kernel := new Kernel(map[1 := Fresh, 2 := Fresh], script, {});
    var client := new Client(kernel);
    var first := client.WaitAndInitialize(1);
    var second := client.WaitAndInitialize(2);
    assert client.trappedThreadIDs == [1, 2] && kernel.script == script[2..];
    assert Without([1, 2], 1) == [2] by { WithoutCut([1, 2], 0, 1); }
    assert kernel.threads[1 := Running] == map[1 := Running, 2 := Halted];
    SecondTrap();
    var event := client.StepAndWait(1);
    resumed := kernel.resumed;
    GivenToBoth(resumed);
  }
}
