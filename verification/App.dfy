/** The firmware application: one reply for each request payload. */
module App {
  import opened Wrap
  import opened Shm

  const CMD_FIRST: bv8 := 0x60
  const CMD_LAST: bv8 := 0x7e
  const CMD_PING: bv8 := 0x60
  const CMD_GPIO_SET: bv8 := 0x61
  const CMD_GPIO_GET: bv8 := 0x62
  const CMD_GET_INFO: bv8 := 0x63
  const CMD_ECHO: bv8 := 0x64
  const PING_XOR: bv32 := 0xa5a5_5a5a
  const INFO_VALUE: bv32 := 0xa501_0003
  const RESPONSE_INVALID_ARGUMENT: bv32 := 0xffff_fffe
  const RESPONSE_UNSUPPORTED: bv32 := 0xffff_ffff
  const VALUE_MESSAGE_SIZE: nat := 5

  /** The pins this board has, and the level each was last driven to. */
  datatype Gpio = Gpio(pins: set<bv32>, high: set<bv32>)

  datatype Option<T> = None | Some(value: T)

  // ---------------------------------------------------------------- 32-bit values in payloads

  function Encode32(v: bv32): (b: seq<bv8>)
    ensures |b| == 4
  {
    [(v & 0xff) as bv8, ((v >> 8) & 0xff) as bv8, ((v >> 16) & 0xff) as bv8, ((v >> 24) & 0xff) as bv8]
  }

  function Decode32(b: seq<bv8>): bv32
    requires |b| == 4
  {
    (b[0] as bv32) | ((b[1] as bv32) << 8) | ((b[2] as bv32) << 16) | ((b[3] as bv32) << 24)
  }

  lemma DecodeEncode32(v: bv32)
    ensures Decode32(Encode32(v)) == v
  {
    assert v == (v & 0xff) | (((v >> 8) & 0xff) << 8) | (((v >> 16) & 0xff) << 16) | (((v >> 24) & 0xff) << 24);
  }

  /** Values lie in payloads with the lowest byte first. */
  lemma LowestByteFirst(v: bv32)
    ensures Encode32(v)[0] as bv32 == v & 0xff && Encode32(v)[1] as bv32 == (v >> 8) & 0xff
    ensures Encode32(v)[2] as bv32 == (v >> 16) & 0xff && Encode32(v)[3] as bv32 == v >> 24
  {
  }

  lemma WordBytes(b: seq<bv8>)
    requires |b| == 4
    ensures Decode32(b) & 0xff == b[0] as bv32 && (Decode32(b) >> 8) & 0xff == b[1] as bv32
    ensures (Decode32(b) >> 16) & 0xff == b[2] as bv32 && Decode32(b) >> 24 == b[3] as bv32
  {
  }

  lemma Narrow(a: bv8, b: bv8)
    ensures a as bv32 == b as bv32 ==> a == b
  {
  }

  /** The bytes of a word are determined by it. */
  lemma SameWord(a: seq<bv8>, b: seq<bv8>)
    requires |a| == |b| == 4 && Decode32(a) == Decode32(b)
    ensures a == b
  {
    hide Decode32;
    WordBytes(a);
    WordBytes(b);
    forall i | 0 <= i < 4 ensures a[i] == b[i] {
      Narrow(a[i], b[i]);
    }
  }

  lemma EncodeDecode32(b: seq<bv8>)
    requires |b| == 4
    ensures Encode32(Decode32(b)) == b
  {
    hide Decode32, Encode32;
    DecodeEncode32(Decode32(b));
    SameWord(Encode32(Decode32(b)), b);
  }

  // ---------------------------------------------------------------- specification

  function GpioPin(value: bv32): bv32 {
    (value >> 16) & 0xffff
  }

  function PingAnswer(value: bv32): bv32 {
    value ^ PING_XOR
  }

  /** What one value command answers and how it leaves the pins; None for a
      command that the application does not own. */
  function ValueReply(command: bv8, value: bv32, g: Gpio): (Option<bv32>, Gpio) {
    if command == CMD_PING then (Some(PingAnswer(value)), g)
    else if command == CMD_GPIO_SET then
      var pin := GpioPin(value);
      if pin !in g.pins then (Some(RESPONSE_INVALID_ARGUMENT), g)
      else if value & 1 == 1 then (Some(1), g.(high := g.high + {pin}))
      else (Some(0), g.(high := g.high - {pin}))
    else if command == CMD_GPIO_GET then
      var pin := GpioPin(value);
      if pin !in g.pins then (Some(RESPONSE_INVALID_ARGUMENT), g)
      else (Some(if pin in g.high then 1 else 0), g)
    else if command == CMD_GET_INFO then (Some(INFO_VALUE), g)
    else if command == CMD_ECHO then (Some(value), g)
    else if CMD_FIRST <= command <= CMD_LAST then (Some(RESPONSE_UNSUPPORTED), g)
    else (None, g)
  }

  /** The reply bytes for a request payload; None when it is not handled. */
  function MessageReply(request: seq<bv8>, capacity: nat, g: Gpio): (r: (Option<seq<bv8>>, Gpio))
    ensures r.0.Some? ==> 0 < |r.0.value| <= capacity
  {
    if request == [] || request[0] < CMD_FIRST || request[0] > CMD_LAST then (None, g)
    else if request[0] == CMD_ECHO then
      (if |request| > capacity then None else Some(request), g)
    else if capacity < VALUE_MESSAGE_SIZE then (None, g)
    else if |request| != VALUE_MESSAGE_SIZE then
      (Some([request[0]] + Encode32(RESPONSE_INVALID_ARGUMENT)), g)
    else
      var (value, g') := ValueReply(request[0], Decode32(request[1..]), g);
      (if value.Some? then Some([request[0]] + Encode32(value.value)) else None, g')
  }

  /** The response slot for a request slot: same sequence, reply padded with
      zeros, length zero when the application did not handle the request. */
  function Respond(m: Slot, g: Gpio): (r: (Slot, Gpio))
    requires Sendable(m)
    ensures Sendable(r.0) && r.0.sequence == m.sequence
  {
    var (reply, g') := MessageReply(m.payload[..m.length], PAYLOAD_SIZE, g);
    var bytes := if reply.Some? then reply.value else [];
    (RawSlot(m.sequence, |bytes|, Padded(bytes)), g')
  }

  // ---------------------------------------------------------------- replies in bytes

  /** The mask that a ping puts on its value, byte by byte. */
  function Mask(b: seq<bv8>): (r: seq<bv8>)
    requires |b| == 4
    ensures |r| == 4
  {
    [b[0] ^ 0x5a, b[1] ^ 0x5a, b[2] ^ 0xa5, b[3] ^ 0xa5]
  }

  lemma MaskedWord(b: seq<bv8>)
    requires |b| == 4
    ensures PingAnswer(Decode32(b)) == Decode32(Mask(b))
  {
  }

  /** Bytes 2 and 3 of a value name a pin. */
  function PinOf(b: seq<bv8>): bv32
    requires |b| == 4
  {
    (b[2] as bv32) | ((b[3] as bv32) << 8)
  }

  lemma PinInWord(b: seq<bv8>)
    requires |b| == 4
    ensures GpioPin(Decode32(b)) == PinOf(b)
  {
  }

  lemma LowestBit(b: seq<bv8>)
    requires |b| == 4
    ensures Decode32(b) & 1 == 1 <==> b[0] & 1 == 1
  {
  }

  lemma Joined(c: bv8, b: seq<bv8>)
    requires |b| == 4
    ensures [c] + b == [c, b[0], b[1], b[2], b[3]]
  {
  }

  lemma Literals()
    ensures Encode32(0) == [0, 0, 0, 0] && Encode32(1) == [1, 0, 0, 0]
    ensures Encode32(INFO_VALUE) == [0x03, 0x00, 0x01, 0xa5]
    ensures Encode32(RESPONSE_INVALID_ARGUMENT) == [0xfe, 0xff, 0xff, 0xff]
    ensures Encode32(RESPONSE_UNSUPPORTED) == [0xff, 0xff, 0xff, 0xff]
  {
  }

  /** Which requests the application leaves unanswered. */
  lemma NotAnswered(request: seq<bv8>, capacity: nat, g: Gpio)
    ensures MessageReply(request, capacity, g).0 == None <==>
              || request == [] || request[0] < 0x60 || request[0] > 0x7e
              || capacity < if request[0] == 0x64 then |request| else 5
    ensures MessageReply(request, capacity, g).0 == None ==> MessageReply(request, capacity, g).1 == g
  {
  }

  /** An echo comes back as it is. */
  lemma EchoReply(request: seq<bv8>, capacity: nat, g: Gpio)
    requires request != [] && request[0] == 0x64 && |request| <= capacity
    ensures MessageReply(request, capacity, g) == (Some(request), g)
  {
  }

  /** A command with a value of the wrong length. */
  lemma LengthReply(request: seq<bv8>, capacity: nat, g: Gpio)
    requires request != [] && 0x60 <= request[0] <= 0x7e && request[0] != 0x64 && |request| != 5 && capacity >= 5
    ensures MessageReply(request, capacity, g) == (Some([request[0], 0xfe, 0xff, 0xff, 0xff]), g)
  {
    hide Encode32;
    Literals();
    Joined(request[0], Encode32(RESPONSE_INVALID_ARGUMENT));
  }

  /** Ping, information, and commands that are not in use. */
  lemma ValueReplyBytes(command: bv8, b: seq<bv8>, capacity: nat, g: Gpio)
    requires |b| == 4 && capacity >= 5
    ensures MessageReply([0x60] + b, capacity, g) == (Some([0x60] + Mask(b)), g)
    ensures MessageReply([0x63] + b, capacity, g) == (Some([0x63, 0x03, 0x00, 0x01, 0xa5]), g)
    ensures 0x65 <= command <= 0x7e ==>
              MessageReply([command] + b, capacity, g) == (Some([command, 0xff, 0xff, 0xff, 0xff]), g)
  {
    hide Encode32, Decode32, Mask, PingAnswer;
    Literals();
    Joined(0x63, Encode32(INFO_VALUE));
    Joined(command, Encode32(RESPONSE_UNSUPPORTED));
    MaskedWord(b);
    EncodeDecode32(Mask(b));
    assert ([command] + b)[1..] == b && ([0x60 as bv8] + b)[1..] == b && ([0x63 as bv8] + b)[1..] == b;
  }

  /** The commands on pins: a missing pin is an invalid argument, a present one
      is driven to, or reads, its level. */
  lemma PinReplyBytes(b: seq<bv8>, capacity: nat, g: Gpio)
    requires |b| == 4 && capacity >= 5
    ensures PinOf(b) !in g.pins ==>
              && MessageReply([0x61] + b, capacity, g) == (Some([0x61, 0xfe, 0xff, 0xff, 0xff]), g)
              && MessageReply([0x62] + b, capacity, g) == (Some([0x62, 0xfe, 0xff, 0xff, 0xff]), g)
    ensures PinOf(b) in g.pins ==>
              && MessageReply([0x61] + b, capacity, g) ==
                   (if b[0] & 1 == 1 then (Some([0x61, 1, 0, 0, 0]), g.(high := g.high + {PinOf(b)}))
                    else (Some([0x61, 0, 0, 0, 0]), g.(high := g.high - {PinOf(b)})))
              && MessageReply([0x62] + b, capacity, g) ==
                   (Some([0x62, if PinOf(b) in g.high then 1 else 0, 0, 0, 0]), g)
  {
    hide Encode32, Decode32, GpioPin, PinOf;
    Literals();
    Joined(0x61, Encode32(RESPONSE_INVALID_ARGUMENT));
    Joined(0x62, Encode32(RESPONSE_INVALID_ARGUMENT));
    Joined(0x61, Encode32(0));
    Joined(0x61, Encode32(1));
    Joined(0x62, Encode32(0));
    Joined(0x62, Encode32(1));
    PinInWord(b);
    LowestBit(b);
    assert ([0x61 as bv8] + b)[1..] == b && ([0x62 as bv8] + b)[1..] == b;
  }

  /** Only GPIO_SET on an existing pin changes the pins, and only that pin. */
  lemma OnlyGpioSetMovesPins(request: seq<bv8>, capacity: nat, g: Gpio)
    ensures
      var g' := MessageReply(request, capacity, g).1;
      && g'.pins == g.pins
      && (g' != g ==> capacity >= VALUE_MESSAGE_SIZE && |request| == VALUE_MESSAGE_SIZE && request[0] == CMD_GPIO_SET)
      && forall pin :: (pin in g.high) != (pin in g'.high) ==>
                         |request| == VALUE_MESSAGE_SIZE && pin in g.pins && pin == GpioPin(Decode32(request[1..]))
  {
  }

  /** A pin that has been set reads back what it was set to. */
  lemma GpioReadsBack(value: bv32, probe: bv32, g: Gpio)
    requires GpioPin(value) in g.pins && GpioPin(probe) == GpioPin(value)
    ensures
      var set' := ValueReply(CMD_GPIO_SET, value, g);
      set'.0 == Some(value & 1) && ValueReply(CMD_GPIO_GET, probe, set'.1) == (Some(value & 1), set'.1)
  {
    assert value & 1 == 0 || value & 1 == 1;
  }

  // ---------------------------------------------------------------- implementation

  /** sg2002_rtos_app_handle, writing through its value pointer. */
  method HandleValue(command: bv8, value: bv32, g: Gpio) returns (handled: bool, answer: bv32, g': Gpio)
    ensures handled <==> ValueReply(command, value, g).0.Some?
    ensures handled ==> ValueReply(command, value, g) == (Some(answer), g')
    ensures !handled ==> answer == value && g' == g
  {
    handled, answer, g' := true, value, g;
    match command {
      case 0x60 =>
        answer := value ^ PING_XOR;
      case 0x61 =>
        var pin := GpioPin(value);
        if pin !in g.pins {
          answer := RESPONSE_INVALID_ARGUMENT;
        } else {
          assert value & 1 == 0 || value & 1 == 1;
          answer := value & 1;
          g' := g.(high := if answer == 1 then g.high + {pin} else g.high - {pin});
        }
      case 0x62 =>
        var pin := GpioPin(value);
        answer := if pin !in g.pins then RESPONSE_INVALID_ARGUMENT else if pin in g.high then 1 else 0;
      case 0x63 =>
        answer := INFO_VALUE;
      case 0x64 =>
      case _ =>
        if CMD_FIRST <= command <= CMD_LAST {
          answer := RESPONSE_UNSUPPORTED;
        } else {
          handled := false;
        }
    }
  }

  /** sg2002_rtos_app_handle_message, filling the caller's response buffer and
      touching nothing behind the bytes it reports. */
  method HandleMessage(request: seq<bv8>, requestLength: u16, response: array<bv8>, capacity: u16, g: Gpio)
    returns (handled: bool, responseLength: u16, g': Gpio)
    requires requestLength <= |request| && capacity <= response.Length
    modifies response
    ensures handled <==> MessageReply(request[..requestLength], capacity, g).0.Some?
    ensures g' == MessageReply(request[..requestLength], capacity, g).1
    ensures !handled ==> responseLength == 0 && response[..] == old(response[..])
    ensures handled ==>
              && responseLength <= capacity
              && Some(response[..responseLength]) == MessageReply(request[..requestLength], capacity, g).0
              && response[responseLength..] == old(response[responseLength..])
  {
    ghost var used := request[..requestLength];
    handled, responseLength, g' := false, 0, g;
    if requestLength == 0 {
      return;
    }
    var command := request[0];
    if command < CMD_FIRST || command > CMD_LAST {
      return;
    }
    if command == CMD_ECHO {
      if requestLength > capacity {
        return;
      }
      Copy(response, request, requestLength);
      return true, requestLength, g;
    }
    if capacity < VALUE_MESSAGE_SIZE {
      return;
    }
    var value := RESPONSE_INVALID_ARGUMENT;
    if requestLength == VALUE_MESSAGE_SIZE {
      assert used[1..] == request[1..VALUE_MESSAGE_SIZE];
      handled, value, g' := HandleValue(command, Decode32(request[1..VALUE_MESSAGE_SIZE]), g);
      if !handled {
        return;
      }
    }
    var answer := [command] + Encode32(value);
    Copy(response, answer, VALUE_MESSAGE_SIZE);
    assert response[..VALUE_MESSAGE_SIZE] == answer;
    assert used[0] == command;
    return true, VALUE_MESSAGE_SIZE, g';
  }

  /** memcpy of n bytes to the start of a buffer. */
  method Copy(target: array<bv8>, source: seq<bv8>, n: nat)
    requires n <= target.Length && n <= |source|
    modifies target
    ensures target[..] == source[..n] + old(target[n..])
  {
    forall i | 0 <= i < n {
      target[i] := source[i];
    }
  }
}
