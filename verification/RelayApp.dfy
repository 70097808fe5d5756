/** The bytes of a message slot in its cache lines. */
module Images {
  import opened Wrap
  import opened Shm
  import RingMachine

  const LINE_BYTES: nat := 64
  const SLOT_BYTES: nat := 1024

  /** Byte i of a line, the lowest first. */
  function Digit(line: nat, i: nat): (d: nat)
    ensures d < 256
  {
    if i == 0 then line % 256 else Digit(line / 256, i - 1)
  }

  function Number(bytes: seq<nat>): nat {
    if bytes == [] then 0 else bytes[0] + 256 * Number(bytes[1..])
  }

  lemma {:induction false} DigitOfNumber(bytes: seq<nat>, i: nat)
    requires i < |bytes| && forall j :: 0 <= j < |bytes| ==> bytes[j] < 256
    ensures Digit(Number(bytes), i) == bytes[i]
  {
    var rest := Number(bytes[1..]);
    assert (bytes[0] + 256 * rest) % 256 == bytes[0] && (bytes[0] + 256 * rest) / 256 == rest;
    if i > 0 {
      DigitOfNumber(bytes[1..], i - 1);
    }
  }

  /** sequence at offset 0, length at 4, payload at 6, all little endian. */
  function Bytes(m: Slot): (b: seq<nat>)
    ensures |b| == SLOT_BYTES && forall j :: 0 <= j < |b| ==> b[j] < 256
  {
    [m.sequence % 256, m.sequence / 256 % 256, m.sequence / 256 / 256 % 256, m.sequence / 256 / 256 / 256,
     m.length % 256, m.length / 256] + seq(PAYLOAD_SIZE, i requires 0 <= i < PAYLOAD_SIZE => m.payload[i] as nat)
  }

  function Encode(m: Slot): (r: RingMachine.Message) {
    var b := Bytes(m);
    seq(RingMachine.LINES, k requires 0 <= k < RingMachine.LINES => Number(b[k * LINE_BYTES..(k + 1) * LINE_BYTES]))
  }

  function ByteAt(r: RingMachine.Message, i: nat): (d: nat)
    requires i < SLOT_BYTES
    ensures d < 256
  {
    Digit(r[i / LINE_BYTES], i % LINE_BYTES)
  }

  function Decode(r: RingMachine.Message): Slot {
    RawSlot(ByteAt(r, 0) + 256 * ByteAt(r, 1) + 65536 * ByteAt(r, 2) + 16777216 * ByteAt(r, 3),
            ByteAt(r, 4) + 256 * ByteAt(r, 5),
            seq(PAYLOAD_SIZE, i requires 0 <= i < PAYLOAD_SIZE => ByteAt(r, 6 + i) as bv8))
  }

  lemma ByteOfImage(m: Slot, i: nat)
    requires i < SLOT_BYTES
    ensures ByteAt(Encode(m), i) == Bytes(m)[i]
  {
    hide Bytes, Number, Digit;
    var k := i / LINE_BYTES;
    var line := Bytes(m)[k * LINE_BYTES..(k + 1) * LINE_BYTES];
    DigitOfNumber(line, i % LINE_BYTES);
  }

  /** A slot survives its way through the cache lines. */
  lemma DecodeEncode(m: Slot)
    ensures Decode(Encode(m)) == m
  {
    hide Encode, ByteAt;
    forall i | 0 <= i < SLOT_BYTES ensures ByteAt(Encode(m), i) == Bytes(m)[i] {
      ByteOfImage(m, i);
    }
    forall i | 0 <= i < PAYLOAD_SIZE ensures Decode(Encode(m)).payload[i] == m.payload[i] {
      assert Bytes(m)[6 + i] == m.payload[i] as nat;
    }
    HeaderOf(m.sequence, m.length);
  }

  lemma HeaderOf(sequence: u32, length: u16)
    ensures var a := sequence / 256;
            var b := a / 256;
            sequence == sequence % 256 + 256 * (a % 256) + 65536 * (b % 256) + 16777216 * (b / 256)
    ensures length == length % 256 + 256 * (length / 256)
  {
    var a := sequence / 256;
    assert sequence == sequence % 256 + 256 * a;
    assert a == a % 256 + 256 * (a / 256);
  }

  /** The ring's length check reads the length field of the slot. */
  lemma LengthOfImage(r: RingMachine.Message)
    ensures RingMachine.Length(r) == Decode(r).length
  {
    var n := r[0];
    var a := n / 256 / 256 / 256 / 256;
    assert a == n / TWO_32;
    assert Digit(n, 4) == Digit(n / 256, 3) == Digit(n / 256 / 256, 2) == Digit(n / 256 / 256 / 256, 1) == Digit(a, 0);
    assert Digit(n, 5) == Digit(n / 256, 4) == Digit(n / 256 / 256, 3) == Digit(n / 256 / 256 / 256, 2) == Digit(a, 1);
    assert Digit(a, 1) == Digit(a / 256, 0);
    assert a % 0x1_0000 == a % 256 + 256 * (a / 256 % 256);
  }
}

/** The two rings with the application between them, down to single memory
    accesses, against the replies that the specification gives. */
module RelayedApp {
  import opened Wrap
  import opened Shm
  import opened App
  import opened Images
  import opened Workload
  import RingMachine
  import RelayProof
  import Relays
  import Transport

  /** The application on slot images. The ring lets no other lengths through. */
  function Handle(m: RingMachine.Message, g: Gpio): (RingMachine.Message, Gpio) {
    var request := Decode(m);
    if Sendable(request) then
      var (reply, g') := Respond(request, g);
      (Encode(reply), g')
    else (Encode(RawSlot(0, 0, Padded([]))), g)
  }

  lemma HandleIsBrief()
    ensures Relays.Brief(Handle)
  {
    hide Encode, Decode, Respond, RingMachine.Length;
    forall m: RingMachine.Message, g: Gpio ensures RingMachine.Length(Handle(m, g).0) <= RingMachine.PAYLOAD_SIZE {
      var request := Decode(m);
      var reply: Slot := if Sendable(request) then Respond(request, g).0 else RawSlot(0, 0, Padded([]));
      LengthOfImage(Encode(reply));
      DecodeEncode(reply);
    }
  }

  function Slots(ms: seq<RingMachine.Message>): (r: seq<Slot>)
    ensures |r| == |ms|
  {
    seq(|ms|, i requires 0 <= i < |ms| => Decode(ms[i]))
  }

  predicate Short(ms: seq<RingMachine.Message>) {
    forall i :: 0 <= i < |ms| ==> RingMachine.Length(ms[i]) <= RingMachine.PAYLOAD_SIZE
  }

  lemma ShortAreRequests(ms: seq<RingMachine.Message>)
    requires Short(ms)
    ensures Transport.Requests(Slots(ms))
  {
    hide Decode, RingMachine.Length;
    forall i | 0 <= i < |ms| ensures Sendable(Slots(ms)[i]) {
      LengthOfImage(ms[i]);
    }
  }

  /** On the images of slots the machine's replies are those of the specification. */
  lemma {:induction false} RepliesOfImages(ms: seq<RingMachine.Message>, boot: Gpio)
    requires Short(ms) && Transport.Requests(Slots(ms))
    ensures Slots(Relays.Replies(Handle, ms, boot)) == Transport.Replies(Slots(ms), boot)
    ensures Relays.PinsAfter(Handle, ms, boot) == Transport.GpioAfter(Slots(ms), boot)
  {
    hide Decode, Encode, Respond, RingMachine.Length;
    if ms != [] {
      var front, m := ms[..|ms| - 1], ms[|ms| - 1];
      assert Slots(front) == Slots(ms)[..|ms| - 1];
      RepliesOfImages(front, boot);
      var g := Relays.PinsAfter(Handle, front, boot);
      assert Sendable(Slots(ms)[|ms| - 1]);
      DecodeEncode(Respond(Decode(m), g).0);
    }
  }

  lemma SentIsShort(r: RingMachine.State)
    requires RelayProof.RingProof.Inv(r)
    ensures Short(r.sent)
  {
  }

  lemma SlotsOfPrefix(a: seq<RingMachine.Message>, b: seq<RingMachine.Message>)
    requires a <= b
    ensures Slots(a) <= Slots(b)
  {
    hide Decode;
    assert a == b[..|a|];
    assert Slots(a) == Slots(b)[..|a|];
  }

  /** In every interleaving of single memory accesses of the firmware, of Linux
      and of the caches: the requests answered are the first ones that Linux
      published, and what Linux has popped are the first of the specified replies. */
  lemma EveryAnswerIsSpecified(s: Relays.Link, boot: Gpio, ls: seq<Relays.Label>)
    requires Relays.Init(s, boot)
    ensures var t := Relays.Run(Handle, s, ls);
            var taken := Slots(Relays.Answered(t));
            && !t.fw.Halted? && taken <= Slots(t.requests.sent) && Transport.Requests(taken)
            && Slots(t.responses.sent) == Transport.Replies(taken, boot)
            && Slots(t.responses.received) <= Transport.Replies(taken, boot)
  {
    hide Relays.Init, Relays.Run, Handle, Relays.Answered, Slots, Short, Relays.Replies, Relays.Brief;
    HandleIsBrief();
    RelayProof.RelayStarts(Handle, s, boot);
    RelayProof.GoodIsShaped(Handle, s, boot);
    var t := Relays.Run(Handle, s, ls);
    RelayProof.EveryRelayIsInOrder(Handle, s, boot, ls);
    RelayProof.LinkRunKeeps(Handle, s, boot, ls);
    RelayProof.GoodMeans(Handle, t, boot);
    var taken := Relays.Answered(t);
    SentIsShort(t.requests);
    ShortPrefix(taken, t.requests.sent);
    ShortAreRequests(taken);
    RepliesOfImages(taken, boot);
    SlotsOfPrefix(taken, t.requests.sent);
    SlotsOfPrefix(t.responses.received, t.responses.sent);
  }

  lemma ShortPrefix(a: seq<RingMachine.Message>, b: seq<RingMachine.Message>)
    requires a <= b && Short(b)
    ensures Short(a)
  {
    forall i | 0 <= i < |a| ensures RingMachine.Length(a[i]) <= RingMachine.PAYLOAD_SIZE {
      assert a[i] == b[i];
    }
  }

  /** End to end, at the level of memory accesses: if the i-th request that Linux
      published is a benchmark request, the i-th response that it has popped has
      its sequence and is accepted for its seed. */
  lemma EveryPoppedResponseIsAccepted(s: Relays.Link, boot: Gpio, ls: seq<Relays.Label>, i: nat,
      sequence: u32, size: nat, seed: u32)
    requires Relays.Init(s, boot) && size <= MAX_ECHO_DATA_BYTES
    requires var t := Relays.Run(Handle, s, ls);
             i < |t.responses.received| && i < |t.requests.sent|
             && Decode(t.requests.sent[i]) == Request(sequence, size, seed)
    ensures var response := Decode(Relays.Run(Handle, s, ls).responses.received[i]);
            response.sequence == sequence && Accepts(response, size, seed)
  {
    hide Relays.Init, Relays.Run, Handle, Relays.Answered, Decode, Request, Accepts, Transport.Replies;
    RelayProof.RelayStarts(Handle, s, boot);
    RelayProof.GoodIsShaped(Handle, s, boot);
    EveryAnswerIsSpecified(s, boot, ls);
    var t := Relays.Run(Handle, s, ls);
    var taken := Slots(Relays.Answered(t));
    assert taken[i] == Slots(t.requests.sent)[i];
    assert Slots(t.responses.received)[i] == Transport.Replies(taken, boot)[i];
    ReplyInAnyHistory(taken, boot, i, sequence, size, seed);
  }
}
