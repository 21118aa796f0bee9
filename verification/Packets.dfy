/** Packets of the GDB remote serial protocol (Appendix E.1 of the GDB manual). A character is a byte. */
module Packets {
  import opened Base
  import opened Hex

  function Sum(body: string): nat {
    if body == "" then 0 else Sum(body[..|body| - 1]) + body[|body| - 1] as nat
  }

  /** The sum of the characters: nothing else is additive and has the value of a single character. */
  lemma {:induction false} SumIs(s: string, t: string, c: char)
    ensures Sum("") == 0 && Sum([c]) == c as nat && Sum(s + t) == Sum(s) + Sum(t)
    decreases |t|
  {
    assert [c][..0] == "";
    if t == "" {
      assert s + t == s;
    } else {
      assert (s + t)[..|s + t| - 1] == s + t[..|t| - 1];
      SumIs(s, t[..|t| - 1], c);
    }
  }

  method CalcChecksum(buff: string) returns (sum: Byte)
    ensures sum == Sum(buff) % 256
  {
    sum := 0;
    for i := 0 to |buff|
      invariant sum == Sum(buff[..i]) % 256
    {
      assert buff[..i + 1][..i] == buff[..i];
      sum := (sum + buff[i] as int) % 256;
    }
    assert buff[..|buff|] == buff;
  }

  function Checksum(body: string): Byte {
    Sum(body) % 256
  }

  /** A number below 256 without leading zeros. */
  function Unpadded(n: Byte): string {
    if n < 16 then [Digit(n)] else Digits(n, 2)
  }

  /** A packet; both parties put in two digits for the checksum. */
  function Packet(body: string, checksum: string): string
    requires |checksum| == 2
  {
    "$" + body + "#" + checksum
  }

  /** Without acknowledgements the checksum is not computed. */
  method Framed(command: string, noAckMode: bool) returns (packet: string)
    ensures packet == Packet(command, if noAckMode then "00" else Digits(Checksum(command), 2))
    ensures packet == "$" + command + "#" + if noAckMode then "00" else Digits(Sum(command) % 256, 2)
  {
    packet := "$" + command + "#00";
    if !noAckMode {
      var sum := CalcChecksum(command);
      packet := "$" + command + "#" + Digits(sum, 2);
    }
    assert "#00" == "#" + "00";
  }

  /** What is accepted: the checksum must stand there as a number is written without leading zeros. */
  predicate Verifies(packet: string) {
    && |packet| >= 4 && packet[0] == '$' && packet[|packet| - 3] == '#'
    && packet[|packet| - 2..] == Unpadded(Checksum(packet[1..|packet| - 3]))
  }

  method VerifyPacket(packet: string) returns (ok: bool)
    requires |packet| >= 4
    ensures ok <==> Verifies(packet)
  {
    hide Unpadded, Sum;
    var n := |packet|;
    if packet[0..1] != "$" {
      return false;
    }
    if packet[n - 3..n - 2] != "#" {
      return false;
    }
    var body := packet[1..n - 3];
    var sum := CalcChecksum(body);
    var bodyChecksum := Unpadded(sum);
    var tailChecksum := packet[n - 2..];
    ok := tailChecksum == bodyChecksum;
  }

  lemma Unframe(body: string, checksum: string)
    requires |checksum| == 2
    ensures var packet := Packet(body, checksum);
            && |packet| == |body| + 4 && packet[0] == '$' && packet[|packet| - 3] == '#'
            && packet[1..|packet| - 3] == body && packet[|packet| - 2..] == checksum
  {
  }

  lemma UnpaddedIsTwoDigits(n: Byte)
    ensures Digits(n, 2) == Unpadded(n) <==> n >= 16
  {
  }

  /** The other party writes two digits, so that a packet is accepted exactly when its checksum needs both
      of them. */
  lemma AcceptedExactly(body: string)
    ensures Verifies(Packet(body, Digits(Checksum(body), 2))) <==> Checksum(body) >= 16
  {
    hide Sum, Digits;
    UnpaddedIsTwoDigits(Checksum(body));
    Unframe(body, Digits(Checksum(body), 2));
  }

  /** And nothing else is: what is accepted is a packet with the checksum of its body in two digits, the first of
      which is not zero. */
  lemma AcceptsOnly(packet: string)
    ensures Verifies(packet) <==>
              exists body :: Sum(body) % 256 >= 16 && packet == "$" + body + "#" + Digits(Sum(body) % 256, 2)
  {
    hide Sum, Digits;
    if Verifies(packet) {
      var body, tail := packet[1..|packet| - 3], packet[|packet| - 2..];
      UnpaddedIsTwoDigits(Checksum(body));
      assert packet == "$" + body + "#" + tail;
    }
    if body :| Sum(body) % 256 >= 16 && packet == "$" + body + "#" + Digits(Sum(body) % 256, 2) {
      AcceptedExactly(body);
    }
  }

  // ----- receiving

  function Joined(chunks: seq<string>): string {
    if chunks == [] then "" else chunks[0] + Joined(chunks[1..])
  }

  /** The connection: what each call of Read yields, until there is an error, and what was sent. */
  class Connection {
    var chunks: seq<string>
    var sent: string
    const noAckMode: bool

    constructor (chunks: seq<string>, noAckMode: bool)
      ensures this.chunks == chunks && this.noAckMode == noAckMode && sent == ""
    {
      this.chunks, this.sent, this.noAckMode := chunks, "", noAckMode;
    }

    /** The loop: pieces are put together until the third last character looks like the end of a packet. */
    method ReadPacket() returns (raw: Option<string>)
      modifies this`chunks
      ensures raw.None? <==> forall m :: 0 <= m <= |old(chunks)| ==> !Ends(Joined(old(chunks)[..m]))
      ensures raw.None? ==> chunks == []
      ensures raw.Some? ==> exists m :: && FirstEnd(old(chunks), m) && raw.value == Joined(old(chunks)[..m])
                                        && chunks == old(chunks)[m..]
    {
      hide Ends, Joined;
      var rawPacket := "";
      ghost var m := 0;
      NothingRead(chunks);
      while true
        invariant m <= |old(chunks)| && chunks == old(chunks)[m..] && rawPacket == Joined(old(chunks)[..m])
        invariant forall k :: 0 <= k <= m ==> !Ends(Joined(old(chunks)[..k]))
        decreases |chunks|
      {
        if chunks == [] {
          return None;
        }
        OneMoreChunk(old(chunks), m);
        rawPacket := rawPacket + chunks[0];
        chunks := chunks[1..];
        m := m + 1;
        if Ends(rawPacket) {
          assert FirstEnd(old(chunks), m);
          return Some(rawPacket);
        }
      }
    }

    /** However a packet is cut, it is received as a whole: nothing but its end looks like one. Several packets
        are received together, unless a piece ends with one of them. With acknowledgements the checksum decides,
        and what is accepted is acknowledged. */
    method Receive() returns (data: Option<string>)
      modifies this`chunks, this`sent
      ensures forall body, checksum :: IsPacket(body, checksum) && Joined(old(chunks)) == Packet(body, checksum) ==>
                data == if noAckMode || checksum == Unpadded(Checksum(body)) then Some(body) else None
      ensures noAckMode ==> forall m :: FirstEnd(old(chunks), m) ==> data == Some(Inner(Joined(old(chunks)[..m])))
      ensures sent == if !noAckMode && data.Some? then old(sent) + "+" else old(sent)
    {
      hide IsPacket, Packet, Unpadded, Checksum, Joined, Verifies;
      hide Ends;
      ghost var all := Joined(chunks);
      assert chunks[..|chunks|] == chunks;
      var raw := ReadPacket();
      if raw.None? {
        NotComplete(all);
        return None;
      }
      ghost var m :| FirstEnd(old(chunks), m) && raw.value == Joined(old(chunks)[..m]) && chunks == old(chunks)[m..];
      OneFirstEnd(old(chunks), m);
      JoinedApart(old(chunks), m);
      Complete(raw.value, Joined(chunks), all);
      data := Some(Inner(raw.value));
      if !noAckMode {
        var ok := VerifyPacket(raw.value);
        Verified(raw.value);
        if !ok {
          return None;
        }
        sent := sent + "+";
      }
    }
  }

  /** At least four characters, the third last of which is the end mark. */
  predicate Ends(raw: string) {
    |raw| >= 4 && raw[|raw| - 3] == '#'
  }

  function Inner(raw: string): string
    requires Ends(raw)
  {
    raw[1..|raw| - 3]
  }

  predicate IsPacket(body: string, checksum: string) {
    '#' !in body && |checksum| == 2 && '#' !in checksum
  }

  /** The first m pieces look like a packet, and no fewer pieces do. */
  ghost predicate FirstEnd(chunks: seq<string>, m: int) {
    0 <= m <= |chunks| && Ends(Joined(chunks[..m])) && forall k :: 0 <= k < m ==> !Ends(Joined(chunks[..k]))
  }

  lemma OneFirstEnd(chunks: seq<string>, m: int)
    requires FirstEnd(chunks, m)
    ensures Ends(Joined(chunks[..m]))
    ensures forall n :: FirstEnd(chunks, n) ==> n == m
  {
  }

  lemma NothingRead(chunks: seq<string>)
    ensures chunks[0..] == chunks && chunks[..0] == [] && Joined([]) == "" && !Ends("")
  {
  }

  lemma {:induction false} JoinedApart(chunks: seq<string>, m: nat)
    requires m <= |chunks|
    ensures Joined(chunks[..m]) + Joined(chunks[m..]) == Joined(chunks)
  {
    if m == 0 {
      assert chunks[0..] == chunks;
    } else {
      var rest := chunks[1..];
      JoinedApart(rest, m - 1);
      assert chunks[..m][1..] == rest[..m - 1] && chunks[m..] == rest[m - 1..];
      var s, t := Joined(rest[..m - 1]), Joined(rest[m - 1..]);
      assert chunks[0] + (s + t) == chunks[0] + s + t;
    }
  }

  lemma OneMoreChunk(chunks: seq<string>, m: nat)
    requires m < |chunks|
    ensures Joined(chunks[..m + 1]) == Joined(chunks[..m]) + chunks[m]
    ensures chunks[m..][0] == chunks[m] && chunks[m..][1..] == chunks[m + 1..]
  {
    var upTo := chunks[..m + 1];
    JoinedApart(upTo, m);
    assert upTo[..m] == chunks[..m] && upTo[m..] == [chunks[m]];
    assert Joined([chunks[m]]) == chunks[m] + Joined([]) == chunks[m];
  }

  lemma NotComplete(all: string)
    requires !Ends(all)
    ensures forall body, checksum :: IsPacket(body, checksum) ==> all != Packet(body, checksum)
  {
  }

  lemma OnlyEndMark(body: string, checksum: string)
    requires IsPacket(body, checksum)
    ensures var packet := Packet(body, checksum);
            forall k :: 0 < k < |packet| && packet[k] == '#' ==> k == |body| + 1
  {
    var packet := Packet(body, checksum);
    forall k | 0 < k < |packet| && k != |body| + 1
      ensures packet[k] != '#'
    {
      if k <= |body| {
        assert packet[k] == body[k - 1];
      } else {
        assert packet[k] == checksum[k - |body| - 2];
      }
    }
  }

  /** The first piece of a packet that looks complete is complete. */
  lemma Complete(raw: string, rest: string, all: string)
    requires raw + rest == all && Ends(raw)
    ensures forall body, checksum :: IsPacket(body, checksum) && all == Packet(body, checksum) ==>
                                       raw == all && body == raw[1..|raw| - 3] && checksum == raw[|raw| - 2..]
  {
    forall body, checksum | IsPacket(body, checksum) && all == Packet(body, checksum)
      ensures raw == all && body == raw[1..|raw| - 3] && checksum == raw[|raw| - 2..]
    {
      var k := |raw| - 3;
      assert all[k] == '#';
      OnlyEndMark(body, checksum);
      assert raw == all[..|raw|];
      Unframe(body, checksum);
    }
  }

  lemma Verified(raw: string)
    ensures forall body, checksum :: IsPacket(body, checksum) && raw == Packet(body, checksum) ==>
                                       (Verifies(raw) <==> checksum == Unpadded(Checksum(body)))
  {
    forall body, checksum | IsPacket(body, checksum) && raw == Packet(body, checksum)
      ensures Verifies(raw) <==> checksum == Unpadded(Checksum(body))
    {
      Unframe(body, checksum);
    }
  }

  // ----- several packets at once

  /** The pieces between the separators; always at least one. */
  function Split(s: string, sep: char): (parts: seq<string>)
    ensures |parts| >= 1
  {
    if s == "" then [""]
    else
      var rest := Split(s[1..], sep);
      if s[0] == sep then [""] + rest else [[s[0]] + rest[0]] + rest[1..]
  }

  function Rejoined(parts: seq<string>, sep: char): string
    requires |parts| >= 1
  {
    if |parts| == 1 then parts[0] else parts[0] + [sep] + Rejoined(parts[1..], sep)
  }

  /** No piece has a separator in it, and with separators between them they are the text again. */
  lemma {:induction false} SplitIs(s: string, sep: char)
    ensures Rejoined(Split(s, sep), sep) == s
    ensures forall i :: 0 <= i < |Split(s, sep)| ==> sep !in Split(s, sep)[i]
  {
    if s != "" {
      SplitIs(s[1..], sep);
      var rest := Split(s[1..], sep);
      if s[0] == sep {
        assert Split(s, sep)[1..] == rest;
        assert s == "" + [sep] + s[1..];
      } else {
        assert Split(s, sep)[1..] == rest[1..];
        assert s == [s[0]] + s[1..];
      }
    }
  }

  /** What a piece is turned into: an end mark and its checksum are cut off. */
  function Stripped(reply: string): string
    requires |reply| >= 3
  {
    if reply[|reply| - 3] == '#' then reply[..|reply| - 3] else reply
  }

  /** None is an index out of range, for a piece that is too short. */
  method BuildStopReplies(data: string) returns (r: Option<seq<string>>)
    ensures r.None? <==> exists i :: 0 <= i < |Split(data, '$')| && |Split(data, '$')[i]| < 3
    ensures r.Some? ==> |r.value| == |Split(data, '$')|
                        && forall i :: 0 <= i < |r.value| ==>
                                         |Split(data, '$')[i]| >= 3 && r.value[i] == Stripped(Split(data, '$')[i])
  {
    var replies := Split(data, '$');
    ghost var pieces := replies;
    for i := 0 to |replies|
      invariant |replies| == |pieces|
      invariant forall k :: 0 <= k < i ==> |pieces[k]| >= 3 && replies[k] == Stripped(pieces[k])
      invariant forall k :: i <= k < |replies| ==> replies[k] == pieces[k]
    {
      var reply := replies[i];
      if |reply| < 3 {
        assert |Split(data, '$')[i]| < 3;
        return None;
      }
      if reply[|reply| - 3] == '#' {
        replies := replies[i := reply[0..|reply| - 3]];
      }
    }
    r := Some(replies);
  }

  /** What Receive makes of packets that arrive together: everything but the first "$" and the last end
      mark with its checksum. */
  function Together(bodies: seq<string>, checksums: seq<string>): string
    requires |bodies| == |checksums| && |bodies| > 0
  {
    if |bodies| == 1 then bodies[0]
    else bodies[0] + "#" + checksums[0] + "$" + Together(bodies[1..], checksums[1..])
  }

  lemma {:induction false} SplitPrefix(s: string, rest: string, sep: char)
    requires sep !in s
    ensures Split(s, sep) == [s]
    ensures Split(s + [sep] + rest, sep) == [s] + Split(rest, sep)
  {
    var all := s + [sep] + rest;
    if s == "" {
      assert all == [sep] + rest && all[1..] == rest;
    } else {
      SplitPrefix(s[1..], rest, sep);
      assert all[1..] == s[1..] + [sep] + rest;
      assert s == [s[0]] + s[1..];
    }
  }

  predicate PlainBodies(bodies: seq<string>, checksums: seq<string>) {
    && |bodies| == |checksums| > 0
    && (forall i :: 0 <= i < |bodies| ==> '$' !in bodies[i] && '#' !in bodies[i])
    && (forall i :: 0 <= i < |checksums| ==> |checksums[i]| == 2 && '$' !in checksums[i])
    && |bodies[|bodies| - 1]| >= 3
  }

  /** The pieces are the bodies, each but the last with its end mark. */
  lemma {:induction false} PiecesAre(bodies: seq<string>, checksums: seq<string>)
    requires PlainBodies(bodies, checksums)
    ensures var pieces := Split(Together(bodies, checksums), '$');
            && |pieces| == |bodies|
            && forall i :: 0 <= i < |bodies| ==>
                             pieces[i] == if i == |bodies| - 1 then bodies[i] else bodies[i] + "#" + checksums[i]
    decreases |bodies|
  {
    if |bodies| == 1 {
      SplitPrefix(bodies[0], "", '$');
    } else {
      var first := bodies[0] + "#" + checksums[0];
      var rest := Together(bodies[1..], checksums[1..]);
      PiecesAre(bodies[1..], checksums[1..]);
      SplitPrefix(first, rest, '$');
      assert Together(bodies, checksums) == first + ['$'] + rest;
    }
  }

  /** Packets that were received together come apart again. */
  lemma RepliesAre(bodies: seq<string>, checksums: seq<string>)
    requires PlainBodies(bodies, checksums)
    ensures var pieces := Split(Together(bodies, checksums), '$');
            && |pieces| == |bodies|
            && forall i :: 0 <= i < |bodies| ==> |pieces[i]| >= 3 && Stripped(pieces[i]) == bodies[i]
  {
    hide Split, Together;
    PiecesAre(bodies, checksums);
    var pieces := Split(Together(bodies, checksums), '$');
    forall i | 0 <= i < |bodies|
      ensures |pieces[i]| >= 3 && Stripped(pieces[i]) == bodies[i]
    {
      if i < |bodies| - 1 {
        assert pieces[i][..|pieces[i]| - 3] == bodies[i];
      }
    }
  }

  /** Complete packets, one after the other. */
  function AllPackets(bodies: seq<string>, checksums: seq<string>): string
    requires |bodies| == |checksums| && forall i :: 0 <= i < |checksums| ==> |checksums[i]| == 2
  {
    if bodies == [] then "" else Packet(bodies[0], checksums[0]) + AllPackets(bodies[1..], checksums[1..])
  }

  /** When they come in one piece, everything between the first mark of a beginning and the last mark of an
      end is taken for one packet, and that is what the splitting expects. */
  lemma {:induction false} InnerOfAll(bodies: seq<string>, checksums: seq<string>)
    requires |bodies| == |checksums| > 0 && forall i :: 0 <= i < |checksums| ==> |checksums[i]| == 2
    ensures Ends(AllPackets(bodies, checksums))
    ensures Inner(AllPackets(bodies, checksums)) == Together(bodies, checksums)
    ensures AllPackets(bodies, checksums)[0] == '$'
    decreases |bodies|
  {
    var all := AllPackets(bodies, checksums);
    var first := Packet(bodies[0], checksums[0]);
    if |bodies| == 1 {
      assert all == first + "" == first;
      Unframe(bodies[0], checksums[0]);
    } else {
      var rest := AllPackets(bodies[1..], checksums[1..]);
      InnerOfAll(bodies[1..], checksums[1..]);
      assert all == first + rest;
      assert all[1..|all| - 3] == first[1..] + rest[..|rest| - 3];
      assert rest[..|rest| - 3] == "$" + Inner(rest);
      assert first[1..] == bodies[0] + "#" + checksums[0];
    }
  }

  /** Receiving and splitting together: of packets in a number of pieces all bodies come out, in order, when no
      piece but the last of them completes what looks like a packet. */
  method ReceiveReplies(c: Connection, ghost bodies: seq<string>, ghost checksums: seq<string>)
    returns (r: Option<seq<string>>)
    requires c.noAckMode && PlainBodies(bodies, checksums)
    requires exists m :: FirstEnd(c.chunks, m) && Joined(c.chunks[..m]) == AllPackets(bodies, checksums)
    modifies c
    ensures r == Some(bodies)
  {
    hide Joined;
    InnerOfAll(bodies, checksums);
    ghost var m :| FirstEnd(c.chunks, m) && Joined(c.chunks[..m]) == AllPackets(bodies, checksums);
    var data := c.Receive();
    RepliesAre(bodies, checksums);
    r := BuildStopReplies(data.value);
    assert r.value == bodies;
  }
}
