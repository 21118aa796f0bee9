/** Reading and writing single registers within the text that holds all of them. */
module Registers {
  import opened Base
  import opened Hex

  datatype Registers = Registers(rip: Addr, rsp: Addr, rcx: Addr)

  /** Where the debug server puts a register, in bytes. */
  datatype Metadata = Metadata(name: string, offset: nat, size: nat)

  predicate Special(name: string) {
    name == "rip" || name == "rsp" || name == "rcx"
  }

  function Get(regs: Registers, name: string): Addr {
    if name == "rip" then regs.rip else if name == "rsp" then regs.rsp else regs.rcx
  }

  function Put(regs: Registers, name: string, value: Addr): Registers {
    if name == "rip" then regs.(rip := value)
    else if name == "rsp" then regs.(rsp := value)
    else if name == "rcx" then regs.(rcx := value)
    else regs
  }

  /** Every register lies within the text. */
  predicate Within(list: seq<Metadata>, data: string) {
    forall i :: 0 <= i < |list| ==> (list[i].offset + list[i].size) * 2 <= |data|
  }

  function Slot(m: Metadata, data: string): string
    requires (m.offset + m.size) * 2 <= |data|
  {
    data[m.offset * 2..(m.offset + m.size) * 2]
  }

  /** The three registers that are used have places of eight bytes, apart from each other, once each. */
  ghost predicate Apart(list: seq<Metadata>) {
    && (forall i :: 0 <= i < |list| && Special(list[i].name) ==> list[i].size == 8)
    && (forall i, j :: 0 <= i < j < |list| && Special(list[i].name) && Special(list[j].name) ==>
                         && list[i].name != list[j].name
                         && (list[i].offset + 8 <= list[j].offset || list[j].offset + 8 <= list[i].offset))
  }

  ghost predicate Listed(list: seq<Metadata>, name: string) {
    exists i :: 0 <= i < |list| && list[i].name == name
  }

  // ----- reading

  /** The registers after reading the first entries of the list. */
  function Parsed(list: seq<Metadata>, data: string): Option<Registers>
    requires Within(list, data)
  {
    if list == [] then Some(Registers(0, 0, 0))
    else
      var last := list[|list| - 1];
      var regs :- Parsed(list[..|list| - 1], data);
      if !Special(last.name) then Some(regs)
      else
        var value :- HexWord(Slot(last, data), true);
        Some(Put(regs, last.name, value))
  }

  method ParseRegisterData(list: seq<Metadata>, data: string) returns (r: Option<Registers>)
    requires Within(list, data)
    ensures r == Parsed(list, data)
  {
    hide HexWord;
    var regs := Registers(0, 0, 0);
    for i := 0 to |list|
      invariant Parsed(list[..i], data) == Some(regs)
    {
      assert list[..i + 1][..i] == list[..i];
      var metadata := list[i];
      var rawValue := data[metadata.offset * 2..(metadata.offset + metadata.size) * 2];
      if metadata.name == "rip" || metadata.name == "rsp" || metadata.name == "rcx" {
        var value := HexToUint64(rawValue, true);
        if value.None? {
          NotParsed(list, i + 1, data);
          return None;
        }
        regs := Put(regs, metadata.name, value.value);
      }
    }
    assert list[..|list|] == list;
    r := Some(regs);
  }

  lemma {:induction false} NotParsed(list: seq<Metadata>, i: nat, data: string)
    requires Within(list, data) && i <= |list| && Parsed(list[..i], data).None?
    ensures Parsed(list, data).None?
    decreases |list|
  {
    if i < |list| {
      assert list[..|list| - 1][..i] == list[..i];
      NotParsed(list[..|list| - 1], i, data);
    } else {
      assert list[..i] == list;
    }
  }

  lemma {:induction false} ParsedIs(list: seq<Metadata>, data: string, name: string, i: nat)
    requires Within(list, data) && Apart(list) && i < |list| && list[i].name == name && Special(name)
    requires Parsed(list, data).Some?
    ensures HexWord(Slot(list[i], data), true) == Some(Get(Parsed(list, data).value, name))
  {
    hide HexWord;
    if i < |list| - 1 {
      ParsedIs(list[..|list| - 1], data, name, i);
    }
  }

  lemma {:induction false} ParsesIf(list: seq<Metadata>, data: string)
    requires Within(list, data)
    requires forall i :: 0 <= i < |list| && Special(list[i].name) ==> HexWord(Slot(list[i], data), true).Some?
    ensures Parsed(list, data).Some?
  {
    hide HexWord;
    if list != [] {
      assert Special(list[|list| - 1].name) ==> HexWord(Slot(list[|list| - 1], data), true).Some?;
      ParsesIf(list[..|list| - 1], data);
    }
  }

  // ----- writing

  function Spliced(m: Metadata, data: string, hex: string): string
    requires (m.offset + m.size) * 2 <= |data|
  {
    data[..m.offset * 2] + hex + data[(m.offset + m.size) * 2..]
  }

  /** The text after the first entries of the list have been written. */
  function Written(list: seq<Metadata>, data: string, regs: Registers): (r: string)
    requires Within(list, data) && Apart(list)
    ensures |r| == |data|
  {
    if list == [] then data
    else
      var last := list[|list| - 1];
      var before := Written(list[..|list| - 1], data, regs);
      WordBack(Get(regs, last.name), true);
      if Special(last.name) then Spliced(last, before, WordHex(Get(regs, last.name), true)) else before
  }

  /** The text is rebuilt around each of the registers in turn. */
  method RebuildRegisterData(list: seq<Metadata>, text: string, regs: Registers) returns (data: string)
    requires Within(list, text) && Apart(list)
    ensures data == Written(list, text, regs)
  {
    hide WordHex, HexWord;
    data := text;
    for i := 0 to |list|
      invariant |data| == |text| && data == Written(list[..i], text, regs)
    {
      assert list[..i + 1][..i] == list[..i];
      var metadata := list[i];
      var prefix := data[0..metadata.offset * 2];
      var suffix := data[(metadata.offset + metadata.size) * 2..];
      WordBack(Get(regs, metadata.name), true);
      if metadata.name == "rip" {
        var hex := Uint64ToHex(regs.rip, true);
        data := prefix + hex + suffix;
      } else if metadata.name == "rsp" {
        var hex := Uint64ToHex(regs.rsp, true);
        data := prefix + hex + suffix;
      } else if metadata.name == "rcx" {
        var hex := Uint64ToHex(regs.rcx, true);
        data := prefix + hex + suffix;
      }
    }
    assert list[..|list|] == list;
  }

  predicate InSlot(m: Metadata, j: nat) {
    m.offset * 2 <= j < (m.offset + m.size) * 2
  }

  lemma SplicedIs(m: Metadata, data: string, hex: string)
    requires (m.offset + m.size) * 2 <= |data| && |hex| == m.size * 2
    ensures |Spliced(m, data, hex)| == |data| && Slot(m, Spliced(m, data, hex)) == hex
    ensures forall j :: 0 <= j < |data| && !InSlot(m, j) ==> Spliced(m, data, hex)[j] == data[j]
  {
  }

  lemma SlotKept(m: Metadata, data: string, after: string, other: Metadata)
    requires |after| == |data| && (m.offset + m.size) * 2 <= |data|
    requires forall j :: 0 <= j < |data| && !InSlot(other, j) ==> after[j] == data[j]
    requires m.offset + m.size <= other.offset || other.offset + other.size <= m.offset
    ensures Slot(m, after) == Slot(m, data)
  {
    forall j | m.offset * 2 <= j < (m.offset + m.size) * 2
      ensures after[j] == data[j]
    {
      assert !InSlot(other, j);
    }
  }

  /** The j-th character belongs to none of the three registers. */
  ghost predicate Outside(list: seq<Metadata>, j: nat) {
    forall i :: 0 <= i < |list| && Special(list[i].name) ==> !InSlot(list[i], j)
  }

  /** Writing puts each register in its place and changes nothing else. */
  lemma {:induction false} WrittenIs(list: seq<Metadata>, data: string, regs: Registers)
    requires Within(list, data) && Apart(list)
    ensures forall i :: 0 <= i < |list| && Special(list[i].name) ==>
                          Slot(list[i], Written(list, data, regs)) == WordHex(Get(regs, list[i].name), true)
    ensures forall j :: 0 <= j < |data| && Outside(list, j) ==>
                          Written(list, data, regs)[j] == data[j]
  {
    hide WordHex, HexWord, Spliced, Slot, InSlot;
    if list != [] {
      var k := |list| - 1;
      var last, before := list[k], Written(list[..k], data, regs);
      WrittenIs(list[..k], data, regs);
      WordBack(Get(regs, last.name), true);
      if Special(last.name) {
        SplicedIs(last, before, WordHex(Get(regs, last.name), true));
        forall i | 0 <= i < k && Special(list[i].name)
          ensures Slot(list[i], Written(list, data, regs)) == Slot(list[..k][i], before)
        {
          SlotKept(list[i], before, Written(list, data, regs), last);
        }
      }
    }
  }

  // ----- laws

  /** Each register in its own place, and nothing else. */
  lemma RegistersLie(list: seq<Metadata>, data: string, regs: Registers, i: nat)
    requires Within(list, data) && Apart(list) && i < |list|
    ensures var text := Written(list, data, regs)[list[i].offset * 2..(list[i].offset + list[i].size) * 2];
            && (list[i].name == "rip" ==> text == WordHex(regs.rip, true))
            && (list[i].name == "rsp" ==> text == WordHex(regs.rsp, true))
            && (list[i].name == "rcx" ==> text == WordHex(regs.rcx, true))
    ensures var text := data[list[i].offset * 2..(list[i].offset + list[i].size) * 2];
            Parsed(list, data).Some? ==>
              && (list[i].name == "rip" ==> HexWord(text, true) == Some(Parsed(list, data).value.rip))
              && (list[i].name == "rsp" ==> HexWord(text, true) == Some(Parsed(list, data).value.rsp))
              && (list[i].name == "rcx" ==> HexWord(text, true) == Some(Parsed(list, data).value.rcx))
  {
    hide WordHex, HexWord, Written, Parsed;
    WrittenIs(list, data, regs);
    if Special(list[i].name) && Parsed(list, data).Some? {
      ParsedIs(list, data, list[i].name, i);
    }
  }

  ghost predicate AllListed(list: seq<Metadata>) {
    Listed(list, "rip") && Listed(list, "rsp") && Listed(list, "rcx")
  }

  /** What was written is read. */
  lemma ReadsWhatWasWritten(list: seq<Metadata>, data: string, regs: Registers)
    requires Within(list, data) && Apart(list) && AllListed(list)
    ensures Parsed(list, Written(list, data, regs)) == Some(regs)
  {
    hide WordHex, HexWord, Written;
    var after := Written(list, data, regs);
    WrittenIs(list, data, regs);
    forall i | 0 <= i < |list| && Special(list[i].name)
      ensures HexWord(Slot(list[i], after), true) == Some(Get(regs, list[i].name))
    {
      WordBack(Get(regs, list[i].name), true);
    }
    ParsesIf(list, after);
    var i :| 0 <= i < |list| && list[i].name == "rip";
    ParsedIs(list, after, "rip", i);
    var j :| 0 <= j < |list| && list[j].name == "rsp";
    ParsedIs(list, after, "rsp", j);
    var k :| 0 <= k < |list| && list[k].name == "rcx";
    ParsedIs(list, after, "rcx", k);
  }

  ghost predicate LowercaseSlots(list: seq<Metadata>, data: string)
    requires Within(list, data)
  {
    forall i :: 0 <= i < |list| && Special(list[i].name) ==> Lowercase(Slot(list[i], data))
  }

  /** Two texts that agree in the places of the registers and everywhere else are the same. */
  lemma SameText(list: seq<Metadata>, s: string, t: string)
    requires |s| == |t| && Within(list, s)
    requires forall i :: 0 <= i < |list| && Special(list[i].name) ==> Slot(list[i], s) == Slot(list[i], t)
    requires forall j :: 0 <= j < |s| && Outside(list, j) ==> s[j] == t[j]
    ensures s == t
  {
    forall j | 0 <= j < |s|
      ensures s[j] == t[j]
    {
      if i :| 0 <= i < |list| && Special(list[i].name) && InSlot(list[i], j) {
        assert Slot(list[i], s)[j - list[i].offset * 2] == s[j];
        assert Slot(list[i], t)[j - list[i].offset * 2] == t[j];
      }
    }
  }

  /** Writing what was read changes nothing, when the text is in lower case there. */
  lemma WritesWhatWasRead(list: seq<Metadata>, data: string)
    requires Within(list, data) && Apart(list) && LowercaseSlots(list, data) && Parsed(list, data).Some?
    ensures Written(list, data, Parsed(list, data).value) == data
  {
    hide WordHex, HexWord, Written, Parsed;
    var regs := Parsed(list, data).value;
    var after := Written(list, data, regs);
    WrittenIs(list, data, regs);
    forall i | 0 <= i < |list| && Special(list[i].name)
      ensures Slot(list[i], after) == Slot(list[i], data)
    {
      ParsedIs(list, data, list[i].name, i);
      HexBack(Slot(list[i], data), true);
    }
    SameText(list, after, data);
  }

  /** Of two writes the second counts. */
  lemma LastWriteCounts(list: seq<Metadata>, data: string, regs1: Registers, regs2: Registers)
    requires Within(list, data) && Apart(list)
    ensures Written(list, Written(list, data, regs1), regs2) == Written(list, data, regs2)
  {
    hide WordHex, HexWord, Written;
    WrittenIs(list, data, regs1);
    WrittenIs(list, Written(list, data, regs1), regs2);
    WrittenIs(list, data, regs2);
    SameText(list, Written(list, Written(list, data, regs1), regs2), Written(list, data, regs2));
  }

  // ----- reading thread-local storage

  function Granted(answers: seq<bool>): bool {
    answers != [] && answers[0]
  }

  function Later(answers: seq<bool>): seq<bool> {
    if answers == [] then [] else answers[1..]
  }

  /** Writing registers takes two requests, the first of which reads them. */
  function WriteGranted(answers: seq<bool>): bool {
    Granted(answers) && Granted(Later(answers))
  }

  function AfterWrite(answers: seq<bool>): seq<bool> {
    if Granted(answers) then Later(Later(answers)) else Later(answers)
  }

  datatype StepOutcome = StepOutcome(r: Option<Addr>, text: string, answers: seq<bool>)

  /** The program counter is moved, the thread steps, and the registers are read, as far as that is granted:
      the result, the text of the registers, and the answers that are left. */
  function StepInRun(list: seq<Metadata>, addr: Addr, text: string, regs: Registers, effect: string -> string,
                     answers: seq<bool>)
    : (o: StepOutcome)
    requires Within(list, text) && Apart(list) && forall t :: |effect(t)| == |t|
    ensures |o.text| == |text|
  {
    var moved := Written(list, text, regs.(rip := addr));
    var rest := AfterWrite(answers);
    if !WriteGranted(answers) then StepOutcome(None, text, rest)
    else if !Granted(rest) then StepOutcome(None, moved, Later(rest))
    else
      var stepped := effect(moved);
      var read := if Granted(Later(rest)) then Parsed(list, stepped) else None;
      StepOutcome(if read.None? then None else Some(read.value.rcx), stepped, Later(Later(rest)))
  }

  datatype TLSOutcome = TLSOutcome(r: Option<Addr>, text: string)

  /** What is left of the answers after the function was updated; None when that was refused. */
  function AfterUpdate(answers: seq<bool>, known: bool): Option<seq<bool>> {
    if known then Some(answers) else if Granted(answers) then Some(Later(answers)) else None
  }

  /** The result, and the text of the thread's registers at the end. */
  ghost function TLSRun(list: seq<Metadata>, addr: Addr, text: string, effect: string -> string,
                        answers: Option<seq<bool>>): TLSOutcome
    requires Within(list, text) && Apart(list) && forall t :: |effect(t)| == |t|
  {
    if answers.None? || !Granted(answers.value) || Parsed(list, text).None? then TLSOutcome(None, text)
    else
      var regs := Parsed(list, text).value;
      var o := StepInRun(list, addr, text, regs, effect, Later(answers.value));
      TLSOutcome(o.r, if WriteGranted(o.answers) then Written(list, o.text, regs) else o.text)
  }

  /** A value is returned when the first five requests are granted, and it is what the step left in rcx; with two more
      the registers are written back into what the step left. */
  lemma TLSIs(list: seq<Metadata>, addr: Addr, text: string, effect: string -> string, answers: seq<bool>)
    requires Within(list, text) && Apart(list) && forall t :: |effect(t)| == |t|
    requires Parsed(list, text).Some?
    ensures var regs, o := Parsed(list, text).value, TLSRun(list, addr, text, effect, Some(answers));
            var stepped := effect(Written(list, text, regs.(rip := addr)));
            && (o.r.Some? <==> |answers| >= 5 && (forall k :: 0 <= k < 5 ==> answers[k]) && Parsed(list, stepped).Some?)
            && (o.r.Some? ==> o.r == Some(Parsed(list, stepped).value.rcx))
            && (|answers| >= 7 && (forall k :: 0 <= k < 7 ==> answers[k]) ==> o.text == Written(list, stepped, regs))
            && ((answers == [] || !answers[0]) ==> o.text == text)
  {
    hide Parsed, Written, Apart, Within;
    AnswersAre(answers);
  }

  /** Which answers are those of the requests one after the other. */
  lemma AnswersAre(answers: seq<bool>)
    ensures var rest := Later(answers);
            && (Granted(answers) <==> |answers| >= 1 && answers[0])
            && (Granted(answers) && WriteGranted(rest) <==> |answers| >= 3 && answers[0] && answers[1] && answers[2])
            && (Granted(answers) && WriteGranted(rest) ==> AfterWrite(rest) == answers[3..])
            && (|answers| >= 7 ==> && Later(Later(answers[3..])) == answers[5..]
                                   && (WriteGranted(answers[5..]) <==> answers[5] && answers[6]))
  {
  }

  /** The three registers are as before exactly when writing them back is granted, or they had not changed. */
  lemma RestoredExactly(list: seq<Metadata>, addr: Addr, text: string, effect: string -> string, answers: seq<bool>)
    requires Within(list, text) && Apart(list) && AllListed(list) && forall t :: |effect(t)| == |t|
    requires Granted(answers) && Parsed(list, text).Some?
    ensures var regs := Parsed(list, text).value;
            var o := StepInRun(list, addr, text, regs, effect, Later(answers));
            Parsed(list, TLSRun(list, addr, text, effect, Some(answers)).text) == Some(regs)
            <==> WriteGranted(o.answers) || Parsed(list, o.text) == Some(regs)
  {
    hide Parsed, Written, Apart, AllListed, WriteGranted;
    var regs := Parsed(list, text).value;
    var o := StepInRun(list, addr, text, regs, effect, Later(answers));
    ReadsWhatWasWritten(list, o.text, regs);
  }

  /** Six requests, of which only the first of the last write is refused: a value is returned, no error, and
      the thread is left with its program counter where the function is. */
  lemma RestoreIsLost(list: seq<Metadata>, addr: Addr, text: string)
    requires Within(list, text) && Apart(list) && AllListed(list)
    requires Parsed(list, text).Some? && Parsed(list, text).value.rip != addr
    ensures var o := TLSRun(list, addr, text, t => t, Some([true, true, true, true, true, false]));
            && o.r == Some(Parsed(list, text).value.rcx)
            && Parsed(list, o.text) == Some(Parsed(list, text).value.(rip := addr))
  {
    hide Parsed, Written, Apart, AllListed;
    var answers := [true, true, true, true, true, false];
    var regs := Parsed(list, text).value;
    assert Later(answers) == [true, true, true, true, false];
    assert AfterWrite(Later(answers)) == [true, true, false];
    assert Later(Later([true, true, false])) == [false];
    ReadsWhatWasWritten(list, text, regs.(rip := addr));
  }

  type ThreadId = int

  /** The client of the debug server. `texts` are the registers of the threads as the server holds them,
      `answers` say which of the requests to come succeed, and `installed` is what the function that reads
      thread-local storage reads, if it has been put into the tracee's memory. */
  class Client {
    const list: seq<Metadata>
    const readTLSFuncAddr: Addr
    var texts: map<ThreadId, string>
    var answers: seq<bool>
    var currentTLSOffset: nat
    var installed: Option<nat>

    constructor (list: seq<Metadata>, readTLSFuncAddr: Addr, texts: map<ThreadId, string>, answers: seq<bool>)
      requires Apart(list) && AllListed(list) && forall t :: t in texts ==> Within(list, texts[t])
      ensures this.list == list && this.readTLSFuncAddr == readTLSFuncAddr && this.texts == texts
      ensures this.answers == answers
      ensures Valid() && currentTLSOffset == 0 && installed == None
    {
      this.list, this.readTLSFuncAddr, this.texts, this.answers := list, readTLSFuncAddr, texts, answers;
      this.currentTLSOffset, this.installed := 0, None;
    }

    /** The offset that the client remembers is that of the installed function, unless it is zero: the
        function for zero is taken to be installed from the start. */
    ghost predicate Valid()
      reads this
    {
      && Apart(list) && AllListed(list)
      && (forall t :: t in texts ==> Within(list, texts[t]))
      && (currentTLSOffset != 0 ==> installed == Some(currentTLSOffset))
    }

    method Send() returns (ok: bool)
      modifies this`answers
      ensures ok == Granted(old(answers)) && answers == Later(old(answers))
    {
      ok := answers != [] && answers[0];
      if answers != [] {
        answers := answers[1..];
      }
    }

    method ReadRegisters(thread: ThreadId) returns (r: Option<Registers>)
      requires Valid()
      modifies this`answers
      ensures answers == Later(old(answers))
      ensures r == if Granted(old(answers)) && thread in texts then Parsed(list, texts[thread]) else None
    {
      var ok := Send();
      if !ok || thread !in texts {
        return None;
      }
      r := ParseRegisterData(list, texts[thread]);
    }

    method WriteRegisters(thread: ThreadId, regs: Registers) returns (ok: bool)
      requires Valid()
      modifies this`answers, this`texts
      ensures Valid()
      ensures ok == (thread in old(texts) && WriteGranted(old(answers)))
      ensures thread in old(texts) ==> answers == AfterWrite(old(answers))
      ensures texts == if ok then old(texts)[thread := Written(list, old(texts)[thread], regs)] else old(texts)
    {
      var read := Send();
      if !read || thread !in texts {
        return false;
      }
      var data := RebuildRegisterData(list, texts[thread], regs);
      ok := Send();
      if ok {
        texts := texts[thread := data];
      }
    }

    method UpdateReadTLSFunction(offset: nat) returns (ok: bool)
      requires Valid()
      modifies this`answers, this`currentTLSOffset, this`installed
      ensures Valid()
      ensures ok ==> currentTLSOffset == offset
      ensures ok ==> (installed == Some(offset) <==> offset != old(currentTLSOffset) || old(installed) == Some(offset))
      ensures offset == old(currentTLSOffset) ==> ok && installed == old(installed) && answers == old(answers)
      ensures offset != old(currentTLSOffset) ==> ok == Granted(old(answers)) && answers == Later(old(answers))
      ensures !ok ==> currentTLSOffset == old(currentTLSOffset) && installed == old(installed)
    {
      if currentTLSOffset == offset {
        return true;
      }
      ok := Send();
      if ok {
        installed := Some(offset);
        currentTLSOffset := offset;
      }
    }

    /** The thread executes the function with its program counter moved there. `effect` is what one step
        does to the text of the registers. Afterwards the three registers are put back, also after an error;
        when that fails nobody is told. All of it is determined by the answers. */
    method ReadTLS(thread: ThreadId, offset: nat, effect: string -> string) returns (r: Option<Addr>)
      requires Valid() && forall t :: |effect(t)| == |t|
      modifies this
      ensures Valid() && texts.Keys == old(texts).Keys
      ensures forall t :: t in texts && t != thread ==> texts[t] == old(texts)[t]
      ensures r.Some? ==>
                currentTLSOffset == offset
                && (installed == Some(offset) <==> offset != old(currentTLSOffset) || old(installed) == Some(offset))
      ensures offset == old(currentTLSOffset) ==> installed == old(installed)
      ensures thread !in old(texts) ==> r.None?
      ensures thread in old(texts) ==>
                TLSOutcome(r, texts[thread]) == TLSRun(list, readTLSFuncAddr, old(texts)[thread], effect,
                                                       AfterUpdate(old(answers), offset == old(currentTLSOffset)))
    {
      hide Apart, AllListed, Written, Parsed, Listed;
      var updated := UpdateReadTLSFunction(offset);
      if !updated {
        return None;
      }
      var originalRegs := ReadRegisters(thread);
      if originalRegs.None? {
        return None;
      }
      r := StepInReadTLSFunction(thread, originalRegs.value, effect);
      var put := WriteRegisters(thread, originalRegs.value);
    }

    method StepInReadTLSFunction(thread: ThreadId, originalRegs: Registers, effect: string -> string)
      returns (r: Option<Addr>)
      requires Valid() && thread in texts && forall t :: |effect(t)| == |t|
      modifies this`texts, this`answers
      ensures Valid() && texts.Keys == old(texts).Keys
      ensures forall t :: t in texts && t != thread ==> texts[t] == old(texts)[t]
      ensures StepOutcome(r, texts[thread], answers)
              == StepInRun(list, readTLSFuncAddr, old(texts)[thread], originalRegs, effect, old(answers))
    {
      hide Apart, AllListed, Written, Parsed;
      var modified := WriteRegisters(thread, originalRegs.(rip := readTLSFuncAddr));
      if !modified {
        return None;
      }
      var stepped := Send();
      if !stepped {
        return None;
      }
      texts := texts[thread := effect(texts[thread])];
      var modifiedRegs := ReadRegisters(thread);
      r := if modifiedRegs.None? then None else Some(modifiedRegs.value.rcx);
    }
  }

  /** A new client is asked for offset zero: all requests are granted, a value is returned, and no function was
      ever installed. */
  method ZeroFirst(list: seq<Metadata>, addr: Addr, text: string) returns (r: Option<Addr>, c: Client)
    requires Within(list, text) && Apart(list) && AllListed(list) && Parsed(list, text).Some?
    ensures fresh(c) && c.readTLSFuncAddr == addr && c.currentTLSOffset == 0 && c.installed == None
    ensures r == Some(Parsed(list, text).value.rcx)
  {
    hide Parsed, Written, Apart, AllListed, Within;
    c := new Client(list, addr, map[1 := text], [true, true, true, true, true, true, true]);
    ZeroRun(list, addr, text);
    r := c.ReadTLS(1, 0, t => t);
  }

  lemma ZeroRun(list: seq<Metadata>, addr: Addr, text: string)
    requires Within(list, text) && Apart(list) && AllListed(list) && Parsed(list, text).Some?
    ensures TLSRun(list, addr, text, t => t, Some([true, true, true, true, true, true, true])).r
            == Some(Parsed(list, text).value.rcx)
  {
    hide Parsed, Written, Apart, AllListed;
    var answers := [true, true, true, true, true, true, true];
    var regs := Parsed(list, text).value;
    assert Later(answers) == [true, true, true, true, true, true];
    assert AfterWrite(Later(answers)) == [true, true, true, true];
    ReadsWhatWasWritten(list, text, regs.(rip := addr));
  }
}
