/** The tracee's code memory and the physical breakpoints patched into it. */
module TraceeProcess {
  import opened Base
  import opened Stepping

  /** An instruction that a thread was made to execute: where, and the first byte that was there. */
  datatype Executed = Executed(thread: ThreadId, addr: Addr, byte: Option<Byte>)

  function Fetch(mem: map<Addr, Byte>, addr: Addr): Option<Byte> {
    if addr in mem then Some(mem[addr]) else None
  }

  /** A request that code memory be written, or that the tracee be let go, and whether it was granted. */
  datatype Request = Write(addr: Addr, granted: bool) | LetGo(granted: bool)

  /** The exchange with the debug API: the replies to come, the requests of the two kinds above that were
      made, and how many requests of any kind were not granted. */
  datatype Wire = Wire(script: seq<Reply>, requests: seq<Request>, refusals: nat)

  function Popped(w: Wire, granted: bool): Wire {
    w.(script := Rest(w.script), refusals := w.refusals + if granted then 0 else 1)
  }

  /** The debug API client. When its script is used up every request is refused. A refused write changes
      nothing. `executed` are the single steps made so far, and `pcs` the program counters that were set since
      the thread's last step. */
  class Client {
    var mem: map<Addr, Byte>
    var wire: Wire
    var executed: seq<Executed>
    var pcs: map<ThreadId, Addr>

    constructor (mem: map<Addr, Byte>, script: seq<Reply>)
      ensures this.mem == mem && this.wire == Wire(script, [], 0) && executed == []
    {
      this.mem, this.wire, this.executed, this.pcs := mem, Wire(script, [], 0), [], map[];
    }

    /** A request that other threads may interrupt. */
    method Take() returns (r: Reply)
      modifies this`wire
      ensures r == Head(old(wire).script) && wire == Popped(old(wire), !r.Refused?)
    {
      r := Head(wire.script);
      wire := Popped(wire, !r.Refused?);
    }

    /** A request that is granted or not. */
    method Ask() returns (r: Option<Addr>)
      modifies this`wire
      ensures r == if Head(old(wire).script).Done? then Some(Head(old(wire).script).value) else None
      ensures wire == Popped(old(wire), r.Some?)
    {
      var reply := Head(wire.script);
      r := if reply.Done? then Some(reply.value) else None;
      wire := Popped(wire, r.Some?);
    }

    /** Requests one after the other, up to the first that is not granted. */
    method AskAll(n: nat) returns (ok: bool)
      modifies this`wire
      ensures ok == ReadsRun(n, old(wire).script).ok && wire.script == ReadsRun(n, old(wire).script).rest
      ensures wire.requests == old(wire).requests && wire.refusals == old(wire).refusals + if ok then 0 else 1
    {
      for k := 0 to n
        invariant ReadsRun(n, old(wire).script) == ReadsRun(n - k, wire.script)
        invariant wire.requests == old(wire).requests && wire.refusals == old(wire).refusals
      {
        var asked := Ask();
        if asked.None? {
          return false;
        }
      }
      ok := true;
    }

    /** The program counter is one of the registers, which are read and written together. */
    method WritePC(thread: ThreadId, addr: Addr) returns (ok: bool)
      modifies this`wire, this`pcs
      ensures ok <==> Head(old(wire).script).Done?
      ensures wire == Popped(old(wire), ok) && pcs == if ok then old(pcs)[thread := addr] else old(pcs)
    {
      var written := Ask();
      ok := written.Some?;
      if ok {
        pcs := pcs[thread := addr];
      }
    }

    /** One instruction of the thread, where its program counter is. When threads were stopped that nobody asked
        for it was executed if the thread is one of them. */
    method Step(thread: ThreadId) returns (r: Reply)
      requires thread in pcs
      modifies this`wire, this`executed, this`pcs
      ensures r == Head(old(wire).script) && wire == Popped(old(wire), !r.Refused?)
      ensures executed == old(executed) + if r.Done? || (r.Unspecified? && thread in r.threads)
                                          then [Executed(thread, old(pcs)[thread], Fetch(mem, old(pcs)[thread]))]
                                          else []
    {
      r := Take();
      if r.Done? || (r.Unspecified? && thread in r.threads) {
        executed := executed + [Executed(thread, pcs[thread], Fetch(mem, pcs[thread]))];
        pcs := pcs - {thread};
      }
    }

    method WriteMemory(addr: Addr, b: Byte) returns (ok: bool)
      modifies this`mem, this`wire
      ensures ok <==> Head(old(wire).script).Done? && addr in old(mem)
      ensures mem == if ok then old(mem)[addr := b] else old(mem)
      ensures wire == Popped(old(wire), ok).(requests := old(wire).requests + [Write(addr, ok)])
    {
      ok := Head(wire.script).Done? && addr in mem;
      if ok {
        mem := mem[addr := b];
      }
      wire := Popped(wire, ok).(requests := wire.requests + [Write(addr, ok)]);
    }

    method ReadMemory(addr: Addr, len: nat) returns (bytes: Option<seq<Byte>>)
      modifies this`wire
      ensures bytes.Some? ==> Mapped(mem, addr, len) && bytes.value == Bytes(mem, addr, len)
      ensures wire == Popped(old(wire), bytes.Some?)
    {
      if Head(wire.script).Done? && Mapped(mem, addr, len) {
        bytes := Some(Bytes(mem, addr, len));
      } else {
        bytes := None;
      }
      wire := Popped(wire, bytes.Some?);
    }

    /** The tracee is let go. */
    method DetachProcess() returns (ok: bool)
      modifies this`wire
      ensures ok <==> Head(old(wire).script).Done?
      ensures wire == Popped(old(wire), ok).(requests := old(wire).requests + [LetGo(ok)])
    {
      ok := Head(wire.script).Done?;
      wire := Popped(wire, ok).(requests := wire.requests + [LetGo(ok)]);
    }
  }

  /** Each of the addresses was written once, and those that are left are those for which that was refused. */
  ghost predicate Cleared(requests: seq<Request>, asked: set<Addr>, left: set<Addr>) {
    && (forall k :: 0 <= k < |requests| ==> requests[k].Write?)
    && (forall j, k :: 0 <= j < k < |requests| ==> requests[j].addr != requests[k].addr)
    && (forall a :: a in asked <==> Write(a, true) in requests || Write(a, false) in requests)
    && forall a :: a in left <==> Write(a, false) in requests
  }

  /** Among the steps from the n-th on is one of the thread at addr. */
  ghost predicate Made(executed: seq<Executed>, n: nat, thread: ThreadId, addr: Addr) {
    exists k :: n <= k < |executed| && executed[k].thread == thread && executed[k].addr == addr
  }

  lemma MadeStays(s: seq<Executed>, t: seq<Executed>, n: nat, thread: ThreadId, addr: Addr)
    requires s <= t && Made(s, n, thread, addr)
    ensures Made(t, n, thread, addr)
  {
    var k :| n <= k < |s| && s[k].thread == thread && s[k].addr == addr;
    assert t[k] == s[k];
  }

  lemma MadeEarlier(s: seq<Executed>, m: nat, n: nat, thread: ThreadId, addr: Addr)
    requires m <= n && Made(s, n, thread, addr)
    ensures Made(s, m, thread, addr)
  {
  }

  /** From request n on every breakpoint was to be cleared, and then the tracee was let go. */
  ghost predicate ClearedFrom(requests: seq<Request>, n: nat, asked: set<Addr>, left: set<Addr>) {
    && n < |requests| && requests[|requests| - 1].LetGo? && Cleared(requests[n..|requests| - 1], asked, left)
  }

  function Denied(requests: seq<Request>): nat {
    if requests == [] then 0
    else Denied(requests[..|requests| - 1]) + if requests[|requests| - 1].granted then 0 else 1
  }

  lemma DeniedOne(requests: seq<Request>, r: Request)
    ensures Denied(requests + [r]) == Denied(requests) + if r.granted then 0 else 1
  {
    assert (requests + [r])[..|requests|] == requests;
  }

  ghost predicate AllGranted(requests: seq<Request>, n: nat) {
    forall k :: n <= k < |requests| ==> requests[k].granted
  }

  lemma NothingLeft(requests: seq<Request>, n: nat, asked: set<Addr>, left: set<Addr>)
    requires ClearedFrom(requests, n, asked, left)
    ensures AllGranted(requests, n) ==> left == {}
  {
    var last := requests[n..|requests| - 1];
    assert AllGranted(requests, n) ==> forall r :: r in last ==> r.granted;
  }

  predicate Mapped(mem: map<Addr, Byte>, addr: nat, len: nat) {
    addr + len <= TWO_TO_THE_64 && forall a: Addr :: addr <= a < addr + len ==> a in mem
  }

  function Bytes(mem: map<Addr, Byte>, addr: nat, len: nat): (bytes: seq<Byte>)
    requires Mapped(mem, addr, len)
    ensures |bytes| == len && forall k :: 0 <= k < len ==> bytes[k] == mem[addr + k]
  {
    seq(len, k requires 0 <= k < len => mem[addr + k])
  }

  /** The original code with the breakpoint instruction at the given addresses. */
  function Patched(original: map<Addr, Byte>, at: set<Addr>): map<Addr, Byte> {
    map a | a in original :: if a in at then BREAKPOINT_INST else original[a]
  }

  type Len = n: int | 1 <= n witness 1

  /** A decoded instruction. Which bytes decode to what is not modelled, only that decoding is a function
      of the bytes and always makes progress. */
  datatype Inst = Inst(isCall: bool, len: Len)

  type Decoder = seq<Byte> -> Inst

  function DecodeAll(decode: Decoder, bytes: seq<Byte>): seq<Inst> {
    if bytes == [] then []
    else
      var inst := decode(bytes);
      [inst] + if inst.len >= |bytes| then [] else DecodeAll(decode, bytes[inst.len..])
  }

  /** The addresses of the call instructions in a run of instructions starting at pos. */
  function CallAddrs(insts: seq<Inst>, pos: int): seq<Addr> {
    if insts == [] then []
    else (if insts[0].isCall then [Wrap(pos)] else []) + CallAddrs(insts[1..], pos + insts[0].len)
  }

  // ----- which addresses are those of call instructions, said of memory

  /** The instruction at a, of a stretch of code that ends at end. */
  function InstAt(decode: Decoder, code: map<Addr, Byte>, a: Addr, end: Addr): Inst {
    decode(if a <= end && Mapped(code, a, end - a) then Bytes(code, a, end - a) else [])
  }

  /** Instructions from start on, each where the one before ends. */
  ghost predicate Consecutive(decode: Decoder, code: map<Addr, Byte>, start: Addr, end: Addr, at: seq<Addr>) {
    && at != [] && at[0] == start
    && (forall j :: 0 <= j < |at| ==> start <= at[j] < end)
    && forall j :: 0 < j < |at| ==> at[j] == at[j - 1] + InstAt(decode, code, at[j - 1], end).len
  }

  /** There is a call instruction at a. */
  ghost predicate CallAt(decode: Decoder, code: map<Addr, Byte>, start: Addr, end: Addr, a: Addr) {
    InstAt(decode, code, a, end).isCall && exists at :: Consecutive(decode, code, start, end, at) && EndsWith(at, a)
  }

  predicate EndsWith(at: seq<Addr>, a: Addr) {
    at != [] && at[|at| - 1] == a
  }

  /** The addresses of exactly the call instructions, in ascending order. */
  ghost predicate ListsCalls(decode: Decoder, code: map<Addr, Byte>, start: Addr, end: Addr, calls: seq<Addr>) {
    && (forall a :: a in calls <==> CallAt(decode, code, start, end, a))
    && (forall a :: a in calls ==> start <= a < end)
    && forall i, j :: 0 <= i < j < |calls| ==> calls[i] < calls[j]
  }

  lemma RestOfBytes(code: map<Addr, Byte>, start: Addr, end: Addr, len: nat)
    requires start + len <= end && Mapped(code, start, end - start)
    ensures Mapped(code, start + len, end - start - len)
    ensures Bytes(code, start, end - start)[len..] == Bytes(code, start + len, end - start - len)
  {
  }

  lemma OneMoreBefore(decode: Decoder, code: map<Addr, Byte>, start: Addr, end: Addr, at: seq<Addr>)
    requires start < end && start + InstAt(decode, code, start, end).len < end
    requires Consecutive(decode, code, start + InstAt(decode, code, start, end).len, end, at)
    ensures Consecutive(decode, code, start, end, [start] + at)
  {
    hide InstAt;
    var longer := [start] + at;
    forall j | 0 < j < |longer|
      ensures longer[j] == longer[j - 1] + InstAt(decode, code, longer[j - 1], end).len
    {
      if j > 1 {
        assert at[j - 1] == at[j - 1 - 1] + InstAt(decode, code, at[j - 1 - 1], end).len;
      }
    }
  }

  lemma OneLess(decode: Decoder, code: map<Addr, Byte>, start: Addr, end: Addr, at: seq<Addr>)
    requires Consecutive(decode, code, start, end, at) && |at| > 1
    ensures start + InstAt(decode, code, start, end).len < end
    ensures Consecutive(decode, code, start + InstAt(decode, code, start, end).len, end, at[1..])
  {
    hide InstAt;
    assert at[1] == at[1 - 1] + InstAt(decode, code, at[1 - 1], end).len;
    Ascending(decode, code, start, end, at);
    var rest := at[1..];
    forall j | 0 < j < |rest|
      ensures rest[j] == rest[j - 1] + InstAt(decode, code, rest[j - 1], end).len
    {
      assert at[j + 1] == at[j + 1 - 1] + InstAt(decode, code, at[j + 1 - 1], end).len;
    }
  }

  lemma {:induction false} Ascending(decode: Decoder, code: map<Addr, Byte>, start: Addr, end: Addr, at: seq<Addr>)
    requires Consecutive(decode, code, start, end, at)
    ensures forall j :: 1 <= j < |at| ==> at[j] >= at[1]
  {
    hide InstAt;
    if |at| > 2 {
      var init := at[..|at| - 1];
      assert forall j :: 0 <= j < |init| ==> init[j] == at[j];
      Ascending(decode, code, start, end, init);
      assert at[|at| - 1] > at[|at| - 2];
    }
  }

  /** The first instruction is at start, and the others are those behind it. */
  lemma CallAtStep(decode: Decoder, code: map<Addr, Byte>, start: Addr, end: Addr, a: Addr)
    requires start < end
    ensures var inst := InstAt(decode, code, start, end);
            CallAt(decode, code, start, end, a)
            <==> || (a == start && inst.isCall)
                 || (start + inst.len < end && CallAt(decode, code, start + inst.len, end, a))
  {
    hide InstAt, Consecutive;
    var next := start + InstAt(decode, code, start, end).len;
    OnlyFirst(decode, code, start, end);
    if next < end && CallAt(decode, code, next, end, a) {
      var at :| Consecutive(decode, code, next, end, at) && EndsWith(at, a);
      OneMoreBefore(decode, code, start, end, at);
      assert EndsWith([start] + at, a);
    }
    if CallAt(decode, code, start, end, a) {
      var at :| Consecutive(decode, code, start, end, at) && EndsWith(at, a);
      NotEmpty(decode, code, start, end, at);
      if |at| > 1 {
        OneLess(decode, code, start, end, at);
        assert EndsWith(at[1..], a);
      }
    }
  }

  lemma OnlyFirst(decode: Decoder, code: map<Addr, Byte>, start: Addr, end: Addr)
    requires start < end
    ensures Consecutive(decode, code, start, end, [start]) && EndsWith([start], start)
  {
  }

  lemma NotEmpty(decode: Decoder, code: map<Addr, Byte>, start: Addr, end: Addr, at: seq<Addr>)
    requires Consecutive(decode, code, start, end, at)
    ensures at != [] && at[0] == start && start < end
  {
  }

  function CallsFrom(decode: Decoder, code: map<Addr, Byte>, start: Addr, end: Addr): seq<Addr>
    requires start <= end && Mapped(code, start, end - start)
  {
    CallAddrs(DecodeAll(decode, Bytes(code, start, end - start)), start)
  }

  lemma {:induction false} CallsListed(decode: Decoder, code: map<Addr, Byte>, start: Addr, end: Addr)
    requires start <= end && Mapped(code, start, end - start)
    ensures ListsCalls(decode, code, start, end, CallsFrom(decode, code, start, end))
    decreases end - start
  {
    hide Mapped, CallAt, CallsFrom, InstAt, ListsCalls;
    if start < end {
      var inst := InstAt(decode, code, start, end);
      CallsStep(decode, code, start, end);
      if start + inst.len < end {
        CallsListed(decode, code, start + inst.len, end);
        OneMoreCall(decode, code, start, end, CallsFrom(decode, code, start + inst.len, end));
      } else {
        LastCall(decode, code, start, end);
      }
    } else {
      NoCalls(decode, code, start, end);
    }
  }

  lemma OneMoreCall(decode: Decoder, code: map<Addr, Byte>, start: Addr, end: Addr, rest: seq<Addr>)
    requires start < end && start + InstAt(decode, code, start, end).len < end
    requires ListsCalls(decode, code, start + InstAt(decode, code, start, end).len, end, rest)
    ensures var first := if InstAt(decode, code, start, end).isCall then [start] else [];
            ListsCalls(decode, code, start, end, first + rest)
  {
    hide CallAt, InstAt;
    var first := if InstAt(decode, code, start, end).isCall then [start] else [];
    var all := first + rest;
    forall a
      ensures CallAt(decode, code, start, end, a) <==> a in all
    {
      CallAtStep(decode, code, start, end, a);
      assert a in all <==> a in first || a in rest;
    }
    forall i, j | 0 <= i < j < |all|
      ensures all[i] < all[j]
    {
      assert all[j] == rest[j - |first|] && rest[j - |first|] in rest;
      assert i >= |first| ==> all[i] == rest[i - |first|];
    }
  }

  lemma LastCall(decode: Decoder, code: map<Addr, Byte>, start: Addr, end: Addr)
    requires start < end <= start + InstAt(decode, code, start, end).len
    ensures ListsCalls(decode, code, start, end, if InstAt(decode, code, start, end).isCall then [start] else [])
  {
    hide CallAt, InstAt;
    forall a
      ensures CallAt(decode, code, start, end, a) <==> a == start && InstAt(decode, code, start, end).isCall
    {
      CallAtStep(decode, code, start, end, a);
    }
  }

  lemma CallsStep(decode: Decoder, code: map<Addr, Byte>, start: Addr, end: Addr)
    requires start < end && Mapped(code, start, end - start)
    ensures var inst := InstAt(decode, code, start, end);
            var next, first := start + inst.len, if inst.isCall then [start] else [];
            && (next >= end ==> CallsFrom(decode, code, start, end) == first)
            && (next < end ==> Mapped(code, next, end - next)
                               && CallsFrom(decode, code, start, end) == first + CallsFrom(decode, code, next, end))
  {
    hide Mapped, Bytes;
    var inst := InstAt(decode, code, start, end);
    if start + inst.len < end {
      RestOfBytes(code, start, end, inst.len);
      assert ([inst] + DecodeAll(decode, Bytes(code, start + inst.len, end - start - inst.len)))[1..]
          == DecodeAll(decode, Bytes(code, start + inst.len, end - start - inst.len));
    } else {
      var first := if inst.isCall then [start] else [];
      assert [inst] + [] == [inst] && [inst][1..] == [] && first + [] == first;
      assert DecodeAll(decode, Bytes(code, start, end - start)) == [inst];
      assert CallAddrs([], start + inst.len) == [];
    }
  }

  lemma NoCalls(decode: Decoder, code: map<Addr, Byte>, start: Addr, end: Addr)
    requires start == end && Mapped(code, start, end - start)
    ensures ListsCalls(decode, code, start, end, CallsFrom(decode, code, start, end))
  {
    assert Bytes(code, start, 0) == [];
  }

  class Process {
    const client: Client
    const decode: Decoder
    var breakpoints: map<Addr, Byte>
    ghost const original: map<Addr, Byte>

    constructor (client: Client, decode: Decoder)
      requires client.executed == []
      ensures this.client == client && this.decode == decode
      ensures original == client.mem && breakpoints == map[]
      ensures Weak() && Holes() == {}
    {
      this.client, this.decode := client, decode;
      this.breakpoints := map[];
      this.original := client.mem;
    }

    /** What holds even after an error: outside the breakpoints memory is the original code, every saved
        byte is the original one, at a breakpoint there is the trap or the original byte, and no thread was
        ever made to execute anything but original code. */
    ghost predicate Weak()
      reads this, client`mem, client`executed
    {
      && client.mem.Keys == original.Keys
      && breakpoints.Keys <= original.Keys
      && (forall a :: a in original && a !in breakpoints ==> client.mem[a] == original[a])
      && (forall a :: a in breakpoints ==> breakpoints[a] == original[a])
      && (forall a :: a in breakpoints ==> client.mem[a] == BREAKPOINT_INST || client.mem[a] == original[a])
      && forall e :: e in client.executed ==> e.byte == Fetch(original, e.addr)
    }

    /** The breakpoints whose trap is missing from memory. */
    ghost function Holes(): set<Addr>
      reads this, client`mem
    {
      set a | a in breakpoints && a in client.mem && client.mem[a] != BREAKPOINT_INST
    }

    /** Without holes, memory is exactly the patched code. */
    lemma StrictMemory()
      requires Weak() && Holes() == {}
      ensures client.mem == Patched(original, breakpoints.Keys)
    {
      forall a | a in breakpoints
        ensures client.mem[a] == BREAKPOINT_INST
      {
        assert a !in Holes();
      }
    }

    /** Without breakpoints memory is the original code. */
    lemma Restored()
      requires Weak()
      ensures breakpoints == map[] ==> client.mem == original
    {
    }

    method SetBreakpoint(addr: Addr) returns (ok: bool)
      requires Weak()
      modifies this, client`mem, client`wire
      ensures Weak() && Holes() == old(Holes())
      ensures client.wire.refusals == old(client.wire.refusals) + if ok then 0 else 1
      ensures ok ==> breakpoints.Keys == old(breakpoints.Keys) + {addr}
      ensures !ok ==> breakpoints == old(breakpoints) && client.mem == old(client.mem)
    {
      if addr in breakpoints {
        return true;
      }
      var insts := client.ReadMemory(addr, 1);
      if insts.None? {
        return false;
      }
      assert insts.value[0] == client.mem[addr + 0] == original[addr];
      ok := client.WriteMemory(addr, BREAKPOINT_INST);
      if ok {
        breakpoints := breakpoints[addr := insts.value[0]];
        assert forall a :: a in Holes() <==> a in old(Holes());
      }
    }

    method ClearBreakpoint(addr: Addr) returns (ok: bool)
      requires Weak()
      modifies this, client`mem, client`wire
      ensures Weak()
      ensures ok ==> breakpoints == old(breakpoints) - {addr} && Holes() == old(Holes()) - {addr}
      ensures !ok ==> breakpoints == old(breakpoints) && client.mem == old(client.mem)
      ensures ok <==> addr !in old(breakpoints) || Head(old(client.wire.script)).Done?
      ensures client.wire == if addr in old(breakpoints)
                             then
                               Popped(old(client.wire), ok).(requests := old(client.wire.requests) + [Write(addr, ok)])
                             else old(client.wire)
    {
      if addr !in breakpoints {
        return true;
      }
      ok := client.WriteMemory(addr, breakpoints[addr]);
      if ok {
        breakpoints := breakpoints - {addr};
      }
    }

    /** The original byte is put back for a while. */
    method Lift(addr: Addr) returns (ok: bool)
      requires Weak() && addr in breakpoints
      modifies client`mem, client`wire
      ensures Weak()
      ensures ok <==> Head(old(client.wire.script)).Done?
      ensures Holes() == if ok then After(old(Holes()), [Lifted(addr)], breakpoints) else old(Holes())
      ensures ok ==> Original(addr)
      ensures SameReplies(client.wire, Popped(old(client.wire), ok))
    {
      AfterOne(Holes(), Lifted(addr), breakpoints);
      ok := client.WriteMemory(addr, breakpoints[addr]);
    }

    method PutBackTrap(addr: Addr) returns (ok: bool)
      requires Weak() && addr in breakpoints
      modifies client`mem, client`wire
      ensures Weak()
      ensures ok <==> Head(old(client.wire.script)).Done?
      ensures Holes() == if ok then After(old(Holes()), [PutBack(addr)], breakpoints) else old(Holes())
      ensures SameReplies(client.wire, Popped(old(client.wire), ok))
    {
      AfterOne(Holes(), PutBack(addr), breakpoints);
      ok := client.WriteMemory(addr, BREAKPOINT_INST);
    }

    static predicate SameReplies(v: Wire, w: Wire) {
      v.script == w.script && v.refusals == w.refusals
    }

    /** Memory holds the original code at addr. */
    ghost predicate Original(addr: Addr)
      reads this, client`mem
    {
      Fetch(client.mem, addr) == Fetch(original, addr)
    }

    lemma OutsideIsOriginal(addr: Addr)
      requires Weak() && addr !in breakpoints
      ensures Original(addr) && addr !in Holes()
    {
    }

    predicate IsAt(thread: ThreadId, addr: Addr)
      reads client`pcs
    {
      thread in client.pcs && client.pcs[thread] == addr
    }

    method StepAndWait(thread: ThreadId, addr: Addr) returns (r: Reply)
      requires Weak() && Original(addr) && IsAt(thread, addr)
      modifies client`wire, client`executed, client`pcs
      ensures Weak() && Holes() == old(Holes())
      ensures r == Head(old(client.wire.script)) && client.wire == Popped(old(client.wire), !r.Refused?)
      ensures client.executed == old(client.executed)
                                 + if r.Done? then Log([Executes(addr, thread)])
                                   else if r.Unspecified? then Log(Already(thread, addr, r.threads))
                                   else []
    {
      LogOne(Executes(addr, thread));
      r := client.Step(thread);
    }

    /** The steps among what was done, each of an original instruction. */
    ghost function Log(acts: seq<Act>): seq<Executed> {
      if acts == [] then []
      else
        var last := acts[|acts| - 1];
        Log(acts[..|acts| - 1])
        + if last.Executes? then [Executed(last.thread, last.addr, Fetch(original, last.addr))] else []
    }

    lemma LogOne(act: Act)
      ensures Log([]) == []
      ensures Log([act]) == if act.Executes? then [Executed(act.thread, act.addr, Fetch(original, act.addr))] else []
    {
      assert [act][..0] == [];
    }

    lemma {:induction false} LogConcat(p: seq<Act>, q: seq<Act>)
      ensures Log(p + q) == Log(p) + Log(q)
      decreases |q|
    {
      if q == [] {
        assert p + q == p && Log(p) + [] == Log(p);
      } else {
        var init := q[..|q| - 1];
        assert (p + q)[..|p + q| - 1] == p + init;
        LogConcat(p, init);
        var step := Log([q[|q| - 1]]);
        LogOne(q[|q| - 1]);
        assert Log(p) + Log(init) + step == Log(p) + (Log(init) + step);
      }
    }

    /** Two things done one after the other. */
    lemma DoneThen(holes: set<Addr>, executed: seq<Executed>, p: seq<Act>, o: Outcome)
      ensures After(holes, Prefixed(p, o).acts, breakpoints) == After(After(holes, p, breakpoints), o.acts, breakpoints)
      ensures executed + Log(Prefixed(p, o).acts) == executed + Log(p) + Log(o.acts)
    {
      hide After, Log;
      AfterPrefixed(holes, p, o, breakpoints);
      LogConcat(p, o.acts);
      assert executed + (Log(p) + Log(o.acts)) == executed + Log(p) + Log(o.acts);
    }

    lemma DidNothing(holes: set<Addr>, executed: seq<Executed>)
      ensures After(holes, [], breakpoints) == holes && executed + Log([]) == executed
    {
    }

    /** What a call did to the memory, the replies and the steps made is what the outcome says. */
    ghost predicate Did(holes: set<Addr>, executed: seq<Executed>, refusals: nat, ok: bool, o: Outcome)
      reads this, client
    {
      && ok == o.ok && client.wire.script == o.rest && Holes() == After(holes, o.acts, breakpoints)
      && client.executed == executed + Log(o.acts)
      && client.wire.refusals == refusals + if ok then 0 else 1
    }

    /** One instruction of the thread, with the breakpoint at addr lifted meanwhile. A nil error means that
        the thread executed the original instruction; it closes the hole at addr and opens none, however
        often stepping is interrupted. After an error the memory invariant is the weak one, and the holes
        are those of the breakpoints left lifted. The map of breakpoints is not touched. */
    method SingleStep(thread: ThreadId, addr: Addr) returns (ok: bool)
      requires Weak()
      modifies client
      ensures Weak()
      ensures ok ==> Holes() <= old(Holes()) - {addr} && Stepped(thread, addr)
      ensures ok ==> Made(client.executed, |old(client.executed)|, thread, addr)
      ensures Did(old(Holes()), old(client.executed), old(client.wire.refusals), ok,
                  StepRun(breakpoints.Keys, thread, addr, old(client.wire.script)))
      decreases |client.wire.script|, 1
    {
      hide Weak, Holes, Stepped, Original, LiftedRun, After, Log;
      DidNothing(Holes(), client.executed);
      var r := SetPC(thread, addr);
      if !r {
        return false;
      }
      if addr in breakpoints {
        ghost var lifted := LiftedRun(breakpoints.Keys, thread, addr, Rest(client.wire.script));
        DoneThen(Holes(), client.executed, [Lifted(addr)], lifted);
        LogOne(Lifted(addr));
        assert client.executed + [] == client.executed;
        AfterOne(Holes(), Lifted(addr), breakpoints);
        var w := Lift(addr);
        if !w {
          return false;
        }
      } else {
        OutsideIsOriginal(addr);
      }
      ok := StepLifted(thread, addr);
    }

    method StepLifted(thread: ThreadId, addr: Addr) returns (ok: bool)
      requires Weak() && Original(addr) && IsAt(thread, addr)
      modifies client
      ensures Weak()
      ensures ok ==> Holes() <= old(Holes()) - {addr} && Stepped(thread, addr)
      ensures ok ==> Made(client.executed, |old(client.executed)|, thread, addr)
      ensures Did(old(Holes()), old(client.executed), old(client.wire.refusals), ok,
                  LiftedRun(breakpoints.Keys, thread, addr, old(client.wire.script)))
      decreases |client.wire.script|, 1
    {
      hide Weak, Holes, Original, StepRun, OthersRun, AgainRun, After, Log, Prefixed, Already;
      DidNothing(Holes(), client.executed);
      PuttingBack(thread, addr, Holes(), client.executed);
      if addr !in breakpoints {
        OutsideIsOriginal(addr);
      }
      var step := StepAndWait(thread, addr);
      match step {
        case Unspecified(others) =>
          ghost var already := Already(thread, addr, others);
          ghost var again := AgainRun(breakpoints.Keys, thread, addr, others, client.wire.script);
          AlreadyDone(thread, addr, others, old(Holes()));
          DoneThen(old(Holes()), old(client.executed), already, again);
          PrefixedIs(already, again);
          ok := StepAgain(thread, addr, others);
        case Refused =>
          assert client.executed + [] == client.executed;
          ok := false;
        case Done(_) =>
          if addr in breakpoints {
            ok := PutBackTrap(addr);
          } else {
            ok := true;
          }
      }
    }

    /** The other threads first, and then the step from its beginning. */
    method StepAgain(thread: ThreadId, addr: Addr, others: seq<ThreadId>) returns (ok: bool)
      requires Weak()
      modifies client
      ensures Weak()
      ensures ok ==> Holes() <= old(Holes()) - {addr} && Stepped(thread, addr)
      ensures ok ==> Made(client.executed, |old(client.executed)|, thread, addr)
      ensures Did(old(Holes()), old(client.executed), old(client.wire.refusals), ok,
                  AgainRun(breakpoints.Keys, thread, addr, others, old(client.wire.script)))
      decreases |client.wire.script|, 2
    {
      hide Weak, Holes, Stepped, StepRun, OthersRun, After, Log, Prefixed;
      ghost var o := OthersRun(breakpoints.Keys, thread, others, client.wire.script);
      DoneThen(Holes(), client.executed, o.acts, StepRun(breakpoints.Keys, thread, addr, o.rest));
      PrefixedIs(o.acts, StepRun(breakpoints.Keys, thread, addr, o.rest));
      var s := SingleStepUnspecifiedThreads(thread, others);
      if !s {
        return false;
      }
      ok := SingleStep(thread, addr);
    }

    lemma AlreadyDone(thread: ThreadId, addr: Addr, others: seq<ThreadId>, holes: set<Addr>)
      ensures After(holes, Already(thread, addr, others), breakpoints) == holes
    {
      AfterOne(holes, Executes(addr, thread), breakpoints);
    }

    lemma PuttingBack(thread: ThreadId, addr: Addr, holes: set<Addr>, executed: seq<Executed>)
      ensures var step, back := [Executes(addr, thread)], [Executes(addr, thread), PutBack(addr)];
              && After(holes, step, breakpoints) == holes && Log(step) == Log(back)
              && Log(step) == [Executed(thread, addr, Fetch(original, addr))]
              && After(holes, back, breakpoints) == After(holes, [PutBack(addr)], breakpoints) == holes - {addr}
    {
      AfterOne(holes, Executes(addr, thread), breakpoints);
      AfterOne(holes, PutBack(addr), breakpoints);
      AfterConcat(holes, [Executes(addr, thread)], [PutBack(addr)], breakpoints);
      LogConcat([Executes(addr, thread)], [PutBack(addr)]);
      LogOne(PutBack(addr));
      LogOne(Executes(addr, thread));
      assert Log([Executes(addr, thread)]) + [] == Log([Executes(addr, thread)]);
      assert [Executes(addr, thread)] + [PutBack(addr)] == [Executes(addr, thread), PutBack(addr)];
    }

    /** The last step made was that of the thread at addr. */
    predicate Stepped(thread: ThreadId, addr: Addr)
      reads client`executed
    {
      var n := |client.executed|;
      n > 0 && client.executed[n - 1].thread == thread && client.executed[n - 1].addr == addr
    }

    method SetPC(thread: ThreadId, addr: Addr) returns (ok: bool)
      modifies client`wire, client`pcs
      ensures ok ==> IsAt(thread, addr)
      ensures ok <==> Head(old(client.wire.script)).Done? && Head(Rest(old(client.wire.script))).Done?
      ensures client.wire.script == if Head(old(client.wire.script)).Done? then Rest(Rest(old(client.wire.script)))
                                    else Rest(old(client.wire.script))
      ensures client.wire.refusals == old(client.wire.refusals) + if ok then 0 else 1
    {
      var regs := client.Ask();
      if regs.None? {
        return false;
      }
      ok := client.WritePC(thread, addr);
    }

    /** Every other trapped thread is stepped over its own breakpoint. */
    method SingleStepUnspecifiedThreads(thread: ThreadId, others: seq<ThreadId>) returns (ok: bool)
      requires Weak()
      modifies client
      ensures Weak()
      ensures ok ==> Holes() <= old(Holes())
      ensures Did(old(Holes()), old(client.executed), old(client.wire.refusals), ok,
                  OthersRun(breakpoints.Keys, thread, others, old(client.wire.script)))
      decreases |client.wire.script|, 0
    {
      hide Weak, Holes, Stepped, StepRun, OthersRun, After, Prefixed, Log;
      var i := 0;
      ghost var acts: seq<Act> := [];
      ghost var all := OthersRun(breakpoints.Keys, thread, others, client.wire.script);
      OthersStart(others, all);
      DidNothing(Holes(), client.executed);
      while i < |others|
        invariant 0 <= i <= |others|
        invariant Weak() && Holes() <= old(Holes())
        invariant |client.wire.script| <= |old(client.wire.script)|
        invariant client.wire.refusals == old(client.wire.refusals)
        invariant Holes() == After(old(Holes()), acts, breakpoints)
        invariant client.executed == old(client.executed) + Log(acts)
        invariant all == Prefixed(acts, OthersRun(breakpoints.Keys, thread, others[i..], client.wire.script))
        decreases |others| - i
      {
        OthersStep(thread, others, i, client.wire.script, acts);
        if others[i] != thread {
          var regs := client.Ask();
          if regs.None? {
            return false;
          }
          var at: Addr := Wrap(regs.value as int - 1);
          ghost var o := StepRun(breakpoints.Keys, others[i], at, client.wire.script);
          DoneThen(old(Holes()), old(client.executed), acts, o);
          PrefixedIs(acts, o);
          var s := SingleStep(others[i], at);
          if !s {
            return false;
          }
          acts := acts + o.acts;
        }
        i := i + 1;
      }
      OthersEnd(thread, others, client.wire.script, acts);
      ok := true;
    }

    lemma PrefixedIs(p: seq<Act>, o: Outcome)
      ensures Prefixed(p, o).ok == o.ok && Prefixed(p, o).rest == o.rest && Prefixed(p, o).acts == p + o.acts
    {
    }

    lemma OthersStart(others: seq<ThreadId>, o: Outcome)
      ensures others[0..] == others && Prefixed([], o) == o
    {
      assert [] + o.acts == o.acts;
    }

    lemma OthersEnd(thread: ThreadId, others: seq<ThreadId>, script: seq<Reply>, acts: seq<Act>)
      ensures Prefixed(acts, OthersRun(breakpoints.Keys, thread, others[|others|..], script))
              == Outcome(true, script, acts)
    {
      assert acts + [] == acts;
    }

    lemma OthersStep(thread: ThreadId, others: seq<ThreadId>, i: nat, script: seq<Reply>, acts: seq<Act>)
      requires i < |others|
      ensures var all := Prefixed(acts, OthersRun(breakpoints.Keys, thread, others[i..], script));
              var rest := others[i + 1..];
              if others[i] == thread then all == Prefixed(acts, OthersRun(breakpoints.Keys, thread, rest, script))
              else if !Head(script).Done? then all == Outcome(false, Rest(script), acts)
              else
                var s := StepRun(breakpoints.Keys, others[i], Wrap(Head(script).value as int - 1), Rest(script));
                if !s.ok then all == Outcome(false, s.rest, acts + s.acts)
                else all == Prefixed(acts + s.acts, OthersRun(breakpoints.Keys, thread, rest, s.rest))
    {
      hide StepRun;
      assert others[i..][0] == others[i] && others[i..][1..] == others[i + 1..];
      assert acts + [] == acts;
      if others[i] != thread && Head(script).Done? {
        var s := StepRun(breakpoints.Keys, others[i], Wrap(Head(script).value as int - 1), Rest(script));
        var o := OthersRun(breakpoints.Keys, thread, others[i + 1..], s.rest);
        assert acts + (s.acts + o.acts) == acts + s.acts + o.acts;
      }
    }

    /** All breakpoints are cleared, in any order, going on after a failed write, and the tracee is let go.
        The breakpoints that stay are those whose write was refused; without refusals the original memory is
        back exactly. */
    method Detach() returns (ok: bool)
      requires Weak()
      modifies this, client`mem, client`wire
      ensures Weak() && breakpoints.Keys <= old(breakpoints.Keys)
      ensures old(client.wire.requests) <= client.wire.requests
      ensures ClearedFrom(client.wire.requests, |old(client.wire.requests)|, old(breakpoints).Keys, breakpoints.Keys)
      ensures client.wire.refusals
              == old(client.wire.refusals) + Denied(client.wire.requests[|old(client.wire.requests)|..])
      ensures Granted(old(client.wire.script), |old(breakpoints)|) ==> breakpoints == map[] && client.mem == original
    {
      hide Weak, Holes, Cleared, Denied;
      ghost var n := |client.wire.requests|;
      ClearAll();
      Restored();
      ghost var requests := client.wire.requests;
      ok := client.DetachProcess();
      var all := requests + [LetGo(ok)];
      assert all[n..|all| - 1] == requests[n..] && all[n..] == requests[n..] + [LetGo(ok)];
      DeniedOne(requests[n..], LetGo(ok));
    }

    method ClearAll()
      requires Weak()
      modifies this, client`mem, client`wire
      ensures Weak() && breakpoints.Keys <= old(breakpoints.Keys)
      ensures old(client.wire.requests) <= client.wire.requests
      ensures ClearedSince(old(client.wire.requests), client.wire.requests, old(breakpoints).Keys, breakpoints.Keys)
      ensures client.wire.refusals
              == old(client.wire.refusals) + Denied(client.wire.requests[|old(client.wire.requests)|..])
      ensures Granted(old(client.wire.script), |old(breakpoints)|) ==> breakpoints == map[]
    {
      hide Weak, Holes, ClearedSince, Granted, Denied;
      var todo := breakpoints.Keys;
      ghost var all := breakpoints.Keys;
      ghost var good := Granted(client.wire.script, |breakpoints|);
      ghost var before := client.wire.requests;
      assert |todo| == |breakpoints|;
      ClearedNone(before, all);
      while todo != {}
        invariant Weak() && todo <= breakpoints.Keys <= all
        invariant before <= client.wire.requests
        invariant client.wire.refusals == old(client.wire.refusals) + Denied(client.wire.requests[|before|..])
        invariant good ==> breakpoints.Keys == todo && Granted(client.wire.script, |todo|)
        invariant ClearedSince(before, client.wire.requests, all - todo, breakpoints.Keys - todo)
        decreases todo
      {
        var a :| a in todo;
        GrantedRest(client.wire.script, |todo|);
        ghost var requests, keys := client.wire.requests, breakpoints.Keys;
        var cleared := ClearBreakpoint(a);
        ClearedOne(before, requests, a, cleared, all, keys, todo);
        todo := todo - {a};
      }
      assert breakpoints.Keys - todo == breakpoints.Keys && all - todo == all;
    }

    static ghost predicate ClearedSince(before: seq<Request>, requests: seq<Request>, asked: set<Addr>,
                                        left: set<Addr>) {
      before <= requests && Cleared(requests[|before|..], asked, left)
    }

    /** The next n requests are granted. */
    static predicate Granted(script: seq<Reply>, n: nat) {
      n <= |script| && forall k :: 0 <= k < n ==> script[k].Done?
    }

    static lemma GrantedRest(script: seq<Reply>, n: nat)
      requires n > 0
      ensures Granted(script, n) ==> Head(script).Done? && Granted(Rest(script), n - 1)
    {
    }

    static lemma ClearedNone(before: seq<Request>, all: set<Addr>)
      ensures ClearedSince(before, before, all - all, all - all) && Denied(before[|before|..]) == 0
    {
    }

    static lemma ClearedOne(before: seq<Request>, requests: seq<Request>, a: Addr, granted: bool, all: set<Addr>,
                            keys: set<Addr>, todo: set<Addr>)
      requires ClearedSince(before, requests, all - todo, keys - todo) && a in todo && todo <= keys <= all
      ensures var more, now := requests + [Write(a, granted)], if granted then keys - {a} else keys;
              && ClearedSince(before, more, all - (todo - {a}), now - (todo - {a}))
              && Denied(more[|before|..]) == Denied(requests[|before|..]) + if granted then 0 else 1
    {
      hide Denied, Cleared;
      var more, now := requests + [Write(a, granted)], if granted then keys - {a} else keys;
      var since := requests[|before|..];
      assert more[|before|..] == since + [Write(a, granted)];
      DeniedOne(since, Write(a, granted));
      WrittenOne(since, a, granted, all - todo, keys - todo);
      assert all - (todo - {a}) == all - todo + {a};
      assert now - (todo - {a}) == keys - todo + if granted then {} else {a};
    }

    static lemma WrittenOne(requests: seq<Request>, a: Addr, granted: bool, asked: set<Addr>, left: set<Addr>)
      requires Cleared(requests, asked, left) && a !in asked
      ensures Cleared(requests + [Write(a, granted)], asked + {a}, left + if granted then {} else {a})
    {
      var more := requests + [Write(a, granted)];
      forall j | 0 <= j < |requests|
        ensures more[j].addr != a
      {
        assert requests[j] == Write(requests[j].addr, requests[j].granted);
        assert requests[j].addr in asked;
      }
    }

    /** The original bytes are put over the breakpoints that lie in the buffer, in any order. */
    method RestoreOriginal(buff: array<Byte>, start: Addr, end: Addr)
      requires Weak() && start <= end && buff.Length == end - start && Mapped(original, start, end - start)
      requires buff[..] == Bytes(client.mem, start, end - start)
      modifies buff
      ensures buff[..] == Bytes(original, start, end - start)
    {
      var todo := breakpoints.Keys;
      while todo != {}
        invariant todo <= breakpoints.Keys
        invariant forall k :: 0 <= k < buff.Length && start + k !in todo ==> buff[k] == original[start + k]
        decreases todo
      {
        var addr :| addr in todo;
        if start <= addr < end {
          buff[addr - start] := breakpoints[addr];
        }
        todo := todo - {addr};
      }
    }

    /** The instructions decoded so far and those of the rest. */
    predicate DecodedUpTo(code: seq<Byte>, insts: seq<Inst>, pos: nat) {
      DecodeAll(decode, code) == insts + if pos < |code| then DecodeAll(decode, code[pos..]) else []
    }

    lemma DecodedStart(code: seq<Byte>, insts: seq<Inst>, pos: nat)
      ensures DecodedUpTo(code, [], 0)
      ensures DecodedUpTo(code, insts, pos) && pos >= |code| ==> insts == DecodeAll(decode, code)
    {
      assert code[0..] == code && [] + DecodeAll(decode, code) == DecodeAll(decode, code);
      assert insts + [] == insts;
    }

    lemma DecodedStep(code: seq<Byte>, insts: seq<Inst>, pos: nat)
      requires pos < |code| && DecodedUpTo(code, insts, pos)
      ensures var inst := decode(code[pos..]); DecodedUpTo(code, insts + [inst], pos + inst.len)
    {
      var inst := decode(code[pos..]);
      var tail := if pos + inst.len < |code| then DecodeAll(decode, code[pos + inst.len..]) else [];
      assert inst.len < |code[pos..]| ==> code[pos..][inst.len..] == code[pos + inst.len..];
      assert insts + ([inst] + tail) == insts + [inst] + tail;
    }

    method DecodeLoop(code: seq<Byte>) returns (insts: seq<Inst>)
      ensures insts == DecodeAll(decode, code)
    {
      hide DecodedUpTo;
      var pos := 0;
      insts := [];
      DecodedStart(code, insts, pos);
      while pos < |code|
        invariant 0 <= pos && DecodedUpTo(code, insts, pos)
      {
        DecodedStep(code, insts, pos);
        var inst := decode(code[pos..]);
        insts := insts + [inst];
        pos := pos + inst.len;
      }
      DecodedStart(code, insts, pos);
    }

    /** The instructions of the function in [start, end) as the program was loaded, whatever breakpoints
        are set and whatever holes they have. */
    method ReadInstructions(start: Addr, end: Addr) returns (insts: Option<seq<Inst>>)
      requires Weak()
      modifies client`wire
      ensures Weak() && Holes() == old(Holes())
      ensures client.wire.refusals
              == old(client.wire.refusals) + if insts.Some? || end == 0 || end < start then 0 else 1
      ensures insts.Some? ==>
                && end != 0 && start <= end && Mapped(original, start, end - start)
                && insts.value == DecodeAll(decode, Bytes(original, start, end - start))
    {
      if end == 0 || end < start {
        return None;
      }
      var bytes := client.ReadMemory(start, end - start);
      if bytes.None? {
        return None;
      }
      var buff := new Byte[end - start](i requires 0 <= i < |bytes.value| => bytes.value[i]);
      RestoreOriginal(buff, start, end);
      var decoded := DecodeLoop(buff[..]);
      insts := Some(decoded);
    }

    /** Finding the goroutine of a trapped thread may also be stopped by other threads, which are stepped
        first. The description is what the tracee's memory and registers say, the parameter info; reading it
        takes a number of requests more. */
    method CurrentGoRoutineInfo<T>(thread: ThreadId, info: T, asks: nat) returns (r: Option<T>)
      requires Weak()
      modifies client
      ensures Weak()
      ensures r.Some? ==> r.value == info && Holes() <= old(Holes())
      ensures Did(old(Holes()), old(client.executed), old(client.wire.refusals), r.Some?,
                  InfoRun(breakpoints.Keys, thread, asks, old(client.wire.script)))
      decreases |client.wire.script|
    {
      hide Weak, Holes, OthersRun, After, Log;
      DidNothing(Holes(), client.executed);
      var tls := client.Take();
      match tls {
        case Refused => r := None;
        case Done(_) =>
          var read := client.AskAll(asks);
          r := if read then Some(info) else None;
        case Unspecified(others) =>
          ghost var o := OthersRun(breakpoints.Keys, thread, others, client.wire.script);
          var s := SingleStepUnspecifiedThreads(thread, others);
          if !s {
            return None;
          }
          DoneThen(old(Holes()), old(client.executed), o.acts, InfoRun(breakpoints.Keys, thread, asks, o.rest));
          r := CurrentGoRoutineInfo(thread, info, asks);
      }
    }
  }
}
