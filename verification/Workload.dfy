/** The benchmark workload: the request a seed produces, the check its response
    must pass, and the way operations are shared out among workers. */
module Workload {
  import opened Wrap
  import opened Shm
  import opened App
  import opened Rings
  import opened Transport

  const MAX_ECHO_DATA_BYTES: nat := PAYLOAD_SIZE - 1

  /** A byte, and the number that it stands for. */
  function Byte(x: nat): bv8
    requires x < 256
  {
    x as bv8
  }

  function Unsigned(b: bv8): (x: nat)
    ensures x < 256
  {
    b as nat
  }

  lemma ByteUnsigned(b: bv8)
    ensures Byte(Unsigned(b)) == b
  {
  }

  lemma UnsignedNext(b: bv8)
    ensures b != 0xff ==> Unsigned(b + 1) == Unsigned(b) + 1
    ensures Unsigned(b) == 255 ==> b == 0xff
    ensures Unsigned(0) == 0 && Unsigned(0xff) == 255
  {
  }

  /** Every number below 256 is that of a byte. */
  lemma {:induction false} SomeByte(x: nat) returns (b: bv8)
    requires x < 256
    ensures Unsigned(b) == x
  {
    hide Unsigned;
    UnsignedNext(0);
    b := 0;
    if x > 0 {
      var c := SomeByte(x - 1);
      UnsignedNext(c);
      b := c + 1;
    }
  }

  lemma UnsignedByte(x: nat)
    requires x < 256
    ensures Unsigned(Byte(x)) == x
  {
    hide Unsigned, Byte;
    var b := SomeByte(x);
    ByteUnsigned(b);
  }

  /** The low eight bits of an unsigned number. */
  function LowByte(x: nat): bv8 {
    Byte(x % 256)
  }

  lemma LowByteIs(b: bv8, x: nat)
    ensures b == LowByte(x) <==> Unsigned(b) == x % 256
  {
    hide Byte, Unsigned;
    UnsignedByte(x % 256);
    ByteUnsigned(b);
  }

  /** Byte `index` of the echo pattern of a seed. */
  function Pattern(seed: u32, index: nat): bv8 {
    LowByte(seed + index * 17)
  }

  /** A seed as memcpy finds it in memory, the lowest byte first. */
  function SeedBytes(seed: u32): (b: seq<bv8>)
    ensures |b| == 4
  {
    [LowByte(seed), LowByte(seed / 256), LowByte(seed / 256 / 256), LowByte(seed / 256 / 256 / 256)]
  }

  /** The same 32 bits as a word. */
  function Word(seed: u32): bv32 {
    Decode32(SeedBytes(seed))
  }

  /** The request bytes: a ping for size zero, else an echo of `size` bytes. */
  function RequestBytes(size: nat, seed: u32): (b: seq<bv8>)
    requires size <= MAX_ECHO_DATA_BYTES
    ensures |b| == if size == 0 then VALUE_MESSAGE_SIZE else size + 1
  {
    if size == 0 then [CMD_PING] + SeedBytes(seed)
    else [CMD_ECHO] + seq(size, i requires 0 <= i < size => Pattern(seed, i + 1))
  }

  function Request(sequence: u32, size: nat, seed: u32): (m: Slot)
    requires size <= MAX_ECHO_DATA_BYTES
    ensures Sendable(m)
  {
    var bytes := RequestBytes(size, seed);
    RawSlot(sequence, |bytes|, Padded(bytes))
  }

  /** A request's bytes: command 60 and the seed, lowest byte first, or command
      64 and a pattern that rises by 17 from the seed. */
  lemma RequestBytesAre(size: nat, seed: u32)
    requires size <= MAX_ECHO_DATA_BYTES
    ensures var b := RequestBytes(size, seed);
            if size == 0 then
              && |b| == 5 && b[0] == 0x60 && Unsigned(b[1]) == seed % 256 && Unsigned(b[2]) == seed / 256 % 256
              && Unsigned(b[3]) == seed / 256 / 256 % 256 && Unsigned(b[4]) == seed / 256 / 256 / 256 % 256
            else
              && |b| == size + 1 && b[0] == 0x64
              && forall i :: 1 <= i <= size ==> Unsigned(b[i]) == (seed + 17 * i) % 256
  {
    hide LowByte, Unsigned;
    var b := RequestBytes(size, seed);
    if size == 0 {
      LowByteIs(b[1], seed);
      LowByteIs(b[2], seed / 256);
      LowByteIs(b[3], seed / 256 / 256);
      LowByteIs(b[4], seed / 256 / 256 / 256);
    } else {
      forall i | 1 <= i <= size ensures Unsigned(b[i]) == (seed + 17 * i) % 256 {
        LowByteIs(b[i], seed + i * 17);
      }
    }
  }

  /** The driver only fills in the sequence of a request. */
  lemma Restamp(size: nat, seed: u32, sequence: u32)
    requires size <= MAX_ECHO_DATA_BYTES
    ensures Request(0, size, seed).(sequence := sequence) == Request(sequence, size, seed)
  {
  }

  /** What validate_response accepts. */
  predicate Accepts(response: Slot, size: nat, seed: u32)
    requires size <= MAX_ECHO_DATA_BYTES
  {
    if size == 0 then
      && response.length == VALUE_MESSAGE_SIZE && response.payload[0] == CMD_PING
      && Decode32(response.payload[1..VALUE_MESSAGE_SIZE]) == PingAnswer(Word(seed))
    else
      && response.length == size + 1 && response.payload[0] == CMD_ECHO
      && forall i :: 1 <= i <= size ==> response.payload[i] == Pattern(seed, i)
  }

  // ---------------------------------------------------------------- round trip

  /** The firmware's reply to a benchmark request is accepted for its seed,
      whatever the pins, and answers under the request's sequence. */
  lemma ReplyIsAccepted(sequence: u32, size: nat, seed: u32, g: Gpio)
    requires size <= MAX_ECHO_DATA_BYTES
    ensures
      var r := Respond(Request(sequence, size, seed), g);
      r.0.sequence == sequence && Accepts(r.0, size, seed) && r.1 == g
  {
    var m := Request(sequence, size, seed);
    var bytes := RequestBytes(size, seed);
    assert m.payload[..m.length] == bytes;
    var r := Respond(m, g).0;
    if size == 0 {
      assert bytes[1..] == SeedBytes(seed);
      DecodeEncode32(PingAnswer(Word(seed)));
      assert r.payload[..VALUE_MESSAGE_SIZE] == [CMD_PING] + Encode32(PingAnswer(Word(seed)));
      assert r.payload[1..VALUE_MESSAGE_SIZE] == r.payload[..VALUE_MESSAGE_SIZE][1..];
    } else {
      forall i | 1 <= i <= size ensures r.payload[i] == Pattern(seed, i) {
        assert r.payload[..r.length][i] == bytes[i];
      }
    }
  }

  /** The four bytes that answer a ping: under the mask, the seed's, lowest first. */
  predicate Masked(p: seq<bv8>, seed: nat)
    requires |p| == 4
  {
    var b := Mask(p);
    && Unsigned(b[0]) == seed % 256 && Unsigned(b[1]) == seed / 256 % 256
    && Unsigned(b[2]) == seed / 256 / 256 % 256 && Unsigned(b[3]) == seed / 256 / 256 / 256 % 256
  }

  /** The bytes that answer a request with this seed; an echo's rise by 17. */
  predicate Bears(response: Slot, size: nat, seed: nat)
    requires size <= MAX_ECHO_DATA_BYTES
  {
    var p := response.payload;
    if size == 0 then response.length == 5 && p[0] == 0x60 && Masked(p[1..5], seed)
    else
      && response.length == size + 1 && p[0] == 0x64
      && forall i :: 1 <= i <= size ==> Unsigned(p[i]) == (seed + 17 * i) % 256
  }

  lemma PingTwice(v: bv32)
    ensures PingAnswer(PingAnswer(v)) == v
  {
  }

  lemma MaskedIs(p: seq<bv8>, seed: u32)
    requires |p| == 4
    ensures Masked(p, seed) <==> Mask(p) == SeedBytes(seed)
  {
    hide LowByte, Unsigned, Mask;
    var b := Mask(p);
    LowByteIs(b[0], seed);
    LowByteIs(b[1], seed / 256);
    LowByteIs(b[2], seed / 256 / 256);
    LowByteIs(b[3], seed / 256 / 256 / 256);
  }

  lemma WordOfSeed(b: seq<bv8>, seed: u32)
    requires |b| == 4
    ensures Decode32(b) == Word(seed) <==> b == SeedBytes(seed)
  {
    hide Decode32, SeedBytes;
    if Decode32(b) == Word(seed) {
      SameWord(b, SeedBytes(seed));
    }
  }

  lemma PingBytes(p: seq<bv8>, seed: u32)
    requires |p| == 4
    ensures Decode32(p) == PingAnswer(Word(seed)) <==> Masked(p, seed)
  {
    hide Masked, Decode32, Mask, Word, SeedBytes, PingAnswer;
    PingTwice(Decode32(p));
    PingTwice(Word(seed));
    MaskedWord(p);
    WordOfSeed(Mask(p), seed);
    MaskedIs(p, seed);
  }

  lemma AcceptsPing(response: Slot, seed: u32)
    ensures Accepts(response, 0, seed) <==> Bears(response, 0, seed)
  {
    hide Masked, Decode32, Word, Pattern, Unsigned, PingAnswer;
    PingBytes(response.payload[1..VALUE_MESSAGE_SIZE], seed);
  }

  lemma AcceptsEcho(response: Slot, size: nat, seed: u32)
    requires 0 < size <= MAX_ECHO_DATA_BYTES
    ensures Accepts(response, size, seed) <==> Bears(response, size, seed)
  {
    hide LowByte, Unsigned;
    var p := response.payload;
    forall i | 1 <= i <= size ensures p[i] == Pattern(seed, i) <==> Unsigned(p[i]) == (seed + 17 * i) % 256 {
      LowByteIs(p[i], seed + i * 17);
    }
  }

  /** The check accepts exactly these bytes. */
  lemma AcceptsExactly(response: Slot, size: nat, seed: u32)
    requires size <= MAX_ECHO_DATA_BYTES
    ensures Accepts(response, size, seed) <==> Bears(response, size, seed)
  {
    if size == 0 {
      AcceptsPing(response, seed);
    } else {
      AcceptsEcho(response, size, seed);
    }
  }

  /** A response that is accepted for one seed of a size is accepted for no
      other ping seed, and for no echo seed with a different low byte. */
  lemma AcceptanceTellsSeedsApart(response: Slot, size: nat, a: u32, b: u32)
    requires size <= MAX_ECHO_DATA_BYTES && Accepts(response, size, a) && Accepts(response, size, b)
    ensures size == 0 ==> a == b
    ensures size > 0 ==> a % 256 == b % 256
  {
    hide Accepts, Unsigned;
    AcceptsExactly(response, size, a);
    AcceptsExactly(response, size, b);
    if size == 0 {
      SeedOfBytes(a);
      SeedOfBytes(b);
    } else {
      assert Unsigned(response.payload[1]) == (a + 17 * 1) % 256 == (b + 17 * 1) % 256;
    }
  }

  lemma SeedOfBytes(seed: u32)
    ensures var x := seed / 256;
            var y := x / 256;
            seed == seed % 256 + 256 * (x % 256) + 65536 * (y % 256) + 16777216 * (y / 256 % 256)
  {
    var x := seed / 256;
    assert seed == seed % 256 + 256 * x;
    assert x == x % 256 + 256 * (x / 256);
  }

  /** A benchmark request at any place of any history, whatever the other
      requests are and do to the pins, gets a reply that is accepted. */
  lemma ReplyInAnyHistory(ms: seq<Slot>, g: Gpio, i: nat, sequence: u32, size: nat, seed: u32)
    requires size <= MAX_ECHO_DATA_BYTES && Requests(ms) && i < |ms| && ms[i] == Request(sequence, size, seed)
    ensures Replies(ms, g)[i].sequence == sequence && Accepts(Replies(ms, g)[i], size, seed)
  {
    hide Respond, Request, Accepts;
    assert Requests(ms[..i]);
    ReplyAt(ms, g, i);
    ReplyIsAccepted(sequence, size, seed, GpioAfter(ms[..i], g));
  }

  /** End to end, in every generation of every session: if the i-th request that
      was submitted is a benchmark request, the i-th response that was reaped has
      its sequence and is accepted for its seed. */
  lemma ReapedIsAccepted(g: Generation, i: nat, sequence: u32, size: nat, seed: u32)
    requires size <= MAX_ECHO_DATA_BYTES && Settled(g) && i < |g.reaped|
    requires g.submitted[i] == Request(sequence, size, seed)
    ensures g.reaped[i].sequence == sequence && Accepts(g.reaped[i], size, seed)
  {
    hide Request, Accepts, Requests;
    assert g.taken[i] == g.submitted[i];
    ReplyInAnyHistory(g.taken, g.boot, i, sequence, size, seed);
  }

  /** Every reply to a batch of benchmark requests is accepted for the seed of
      the request in its place. */
  lemma EveryReplyIsAccepted(sequences: seq<u32>, size: nat, seeds: seq<u32>, ms: seq<Slot>, g: Gpio, i: nat)
    requires size <= MAX_ECHO_DATA_BYTES && |sequences| == |seeds| == |ms| && i < |ms|
    requires forall j :: 0 <= j < |ms| ==> ms[j] == Request(sequences[j], size, seeds[j])
    ensures Requests(ms) && |Replies(ms, g)| == |ms|
    ensures Replies(ms, g)[i].sequence == sequences[i] && Accepts(Replies(ms, g)[i], size, seeds[i])
  {
    assert Requests(ms);
    ReplyInAnyHistory(ms, g, i, sequences[i], size, seeds[i]);
  }

  // ---------------------------------------------------------------- implementation

  /** build_request, filling the caller's payload buffer. */
  method BuildRequest(request: array<bv8>, size: nat, seed: u32) returns (length: u16)
    requires size <= MAX_ECHO_DATA_BYTES && request.Length == PAYLOAD_SIZE
    modifies request
    ensures length == |RequestBytes(size, seed)|
    ensures request[..length] == RequestBytes(size, seed)
    ensures request[length..] == old(request[length..])
  {
    if size == 0 {
      var value := SeedBytes(seed);
      request[0] := CMD_PING;
      forall i | 0 <= i < 4 {
        request[1 + i] := value[i];
      }
      return VALUE_MESSAGE_SIZE;
    }
    length := size + 1;
    ghost var bytes := RequestBytes(size, seed);
    request[0] := CMD_ECHO;
    var index := 1;
    while index < length
      invariant 1 <= index <= length
      invariant request[..index] == bytes[..index]
      invariant request[length..] == old(request[length..])
    {
      request[index] := Pattern(seed, index);
      index := index + 1;
    }
  }

  /** validate_response. */
  method ValidateResponse(response: Slot, size: nat, seed: u32) returns (ok: bool)
    requires size <= MAX_ECHO_DATA_BYTES
    ensures ok == Accepts(response, size, seed)
  {
    hide LowByte, Decode32, Word, PingAnswer;
    if size == 0 {
      if response.length != VALUE_MESSAGE_SIZE || response.payload[0] != CMD_PING {
        return false;
      }
      var value := Decode32(response.payload[1..VALUE_MESSAGE_SIZE]);
      return value == PingAnswer(Word(seed));
    }
    var expected := size + 1;
    if response.length != expected || response.payload[0] != CMD_ECHO {
      return false;
    }
    var index := 1;
    while index < expected
      invariant 1 <= index <= expected
      invariant forall i :: 1 <= i < index ==> response.payload[i] == Pattern(seed, i)
    {
      if response.payload[index] != Pattern(seed, index) {
        return false;
      }
      index := index + 1;
    }
    return true;
  }

  /** A zeroed slot with the request built into it. */
  method MakeRequest(sequence: u32, size: nat, seed: u32) returns (m: Slot)
    requires size <= MAX_ECHO_DATA_BYTES
    ensures m == Request(sequence, size, seed)
  {
    var payload := new bv8[PAYLOAD_SIZE](_ => 0);
    var length := BuildRequest(payload, size, seed);
    assert payload[..] == payload[..length] + payload[length..];
    m := RawSlot(sequence, length, payload[..]);
  }

  /** One request through both rings and the firmware and back, behind whatever
      other traffic is in the channel: unless the request ring is full, it comes
      back in its turn with its sequence and is accepted. */
  method RoundTrip(t: ShmTransport, sequence: u32, size: nat, seed: u32)
    returns (pushed: bool, response: Slot, ok: bool)
    requires t.Linked() && t.held == [] && Attachable(t.layout, t.linuxPeer)
    requires size <= MAX_ECHO_DATA_BYTES
    modifies t, t.requestRing, t.responseRing, t.requestRing.slots, t.responseRing.slots, t.responsePayload
    ensures pushed <==> |old(t.submitted)| < |old(t.taken)| + SLOT_COUNT
    ensures pushed ==> ok && response.sequence == sequence
    ensures t.Linked() && t.held == []
  {
    hide Respond, ShmTransport.Linked, Accepts, Request, Replies, GpioAfter, Attachable, QueueOf, Sub32, Settled;
    hide DrainedQuietly, Answerable, IllegalInReach;
    response, ok := BLANK, false;
    var ahead := InChannel(t);
    var request := MakeRequest(sequence, size, seed);
    t.LinkedBounds();
    ghost var n := |t.submitted|;
    var r := t.LinuxSubmit(request);
    pushed := r == RingResult.Ok;
    if !pushed {
      return;
    }
    ghost var all := t.submitted;
    t.LinkedBounds();
    var k := 0;
    while k <= ahead
      invariant t.Linked() && t.held == [] && Attachable(t.layout, t.linuxPeer)
      invariant t.submitted == all && all[n] == request && n == |all| - 1
      invariant k <= ahead + 1 && |t.reaped| + ahead == n + k
      invariant k == ahead + 1 ==> ok && response.sequence == sequence
      decreases ahead + 1 - k, |all| - |t.taken|
    {
      t.LinkedBounds();
      var result, m := t.LinuxReap();
      if result == RingResult.Ok {
        k := k + 1;
        if k == ahead + 1 {
          response := m;
          CurrentIsSettled(t);
          SettledParts(t.History());
          ReapedIsAccepted(t.History(), n, sequence, size, seed);
          ok := ValidateResponse(m, size, seed);
        }
      } else {
        t.LinkedBounds();
        var outcome, processed := t.Process([]);
      }
      t.LinkedBounds();
    }
  }

  lemma SettledParts(g: Generation)
    requires Settled(g)
    ensures |g.reaped| <= |g.taken| <= |g.submitted|
  {
  }

  /** The requests and responses in both rings. */
  method InChannel(t: ShmTransport) returns (n: nat)
    requires t.Linked() && t.held == []
    ensures n == |t.submitted| - |t.reaped|
  {
    hide Respond, Replies, GpioAfter, QueueOf, Sub32;
    n := t.requestRing.Occupancy() + t.responseRing.Occupancy();
    assert t.requestRing.Occupancy() == |t.requestRing.Contents()|;
    assert t.responseRing.Occupancy() == |t.responseRing.Contents()|;
  }
}
