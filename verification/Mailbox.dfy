/** The legacy mailbox: eight shared command slots, and who owns them. */
module Mailbox {
  const SLOTS: nat := 8

  type field8 = x: bv32 | x <= 0xff
  type field7 = x: bv32 | x <= 0x7f
  type field1 = x: bv32 | x <= 1

  /** cmdqu_t. */
  datatype Command = Command(ip: field8, cmd: field7, block: field1, linuxValid: field8, rtosValid: field8, param: bv32)

  /** A slot as memory holds it: the header word and the parameter word. */
  datatype Cell = Cell(header: bv32, param: bv32)

  // ---------------------------------------------------------------- the header word

  /** The fields side by side in one word. */
  function Word(ip: bv32, cmd: bv32, block: bv32, linuxValid: bv32, rtosValid: bv32): bv32 {
    (ip << 0) | (cmd << 8) | (block << 15) | (linuxValid << 16) | (rtosValid << 24)
  }

  function CommandHeader(c: Command): bv32 {
    Word(c.ip, c.cmd, c.block, c.linuxValid, c.rtosValid)
  }

  function Ip(header: bv32): field8 {
    header & 0xff
  }

  function Cmd(header: bv32): field7 {
    (header >> 8) & 0x7f
  }

  function Block(header: bv32): field1 {
    (header >> 15) & 1
  }

  function LinuxValid(header: bv32): field8 {
    (header >> 16) & 0xff
  }

  function RtosValid(header: bv32): field8 {
    (header >> 24) & 0xff
  }

  /** The slot read as a command. */
  function Decode(cell: Cell): Command {
    Command(Ip(cell.header), Cmd(cell.header), Block(cell.header),
            LinuxValid(cell.header), RtosValid(cell.header), cell.param)
  }

  function Encode(c: Command): Cell {
    Cell(CommandHeader(c), c.param)
  }

  lemma FieldsOfWord(ip: field8, cmd: field7, block: field1, linuxValid: field8, rtosValid: field8)
    ensures Ip(Word(ip, cmd, block, linuxValid, rtosValid)) == ip
    ensures Cmd(Word(ip, cmd, block, linuxValid, rtosValid)) == cmd
    ensures Block(Word(ip, cmd, block, linuxValid, rtosValid)) == block
    ensures LinuxValid(Word(ip, cmd, block, linuxValid, rtosValid)) == linuxValid
    ensures RtosValid(Word(ip, cmd, block, linuxValid, rtosValid)) == rtosValid
  {
  }

  lemma WordOfFields(w: bv32)
    ensures Word(Ip(w), Cmd(w), Block(w), LinuxValid(w), RtosValid(w)) == w
  {
  }

  /** No field of a command overlaps another or is cut off. */
  lemma DecodeEncode(c: Command)
    ensures Decode(Encode(c)) == c
  {
    hide Word, Ip, Cmd, Block, LinuxValid, RtosValid;
    FieldsOfWord(c.ip, c.cmd, c.block, c.linuxValid, c.rtosValid);
  }

  /** Every header word is the header of the command read from it. */
  lemma EncodeDecode(cell: Cell)
    ensures Encode(Decode(cell)) == cell
  {
    hide Word, Ip, Cmd, Block, LinuxValid, RtosValid;
    WordOfFields(cell.header);
  }

  const EMPTY: Cell := Cell(0, 0)

  predicate IsFree(cell: Cell) {
    LinuxValid(cell.header) == 0 && RtosValid(cell.header) == 0
  }

  /** A command from Linux, or a reply to it. */
  datatype Kind = FromLinux | FromRtos

  predicate Is(kind: Kind, cell: Cell) {
    if kind == FromLinux then LinuxValid(cell.header) == 1 && RtosValid(cell.header) == 0
    else LinuxValid(cell.header) == 0 && RtosValid(cell.header) == 1
  }

  /** The command as its sender marks it. */
  function Marked(kind: Kind, c: Command): Command {
    if kind == FromLinux then c.(linuxValid := 1, rtosValid := 0) else c.(linuxValid := 0, rtosValid := 1)
  }

  /** A sender sets the two marks and no other field. */
  lemma MarksOnly(c: Command)
    ensures Marked(FromLinux, c) == Command(c.ip, c.cmd, c.block, 1, 0, c.param)
    ensures Marked(FromRtos, c) == Command(c.ip, c.cmd, c.block, 0, 1, c.param)
  {
  }

  lemma Marks(kind: Kind, c: Command)
    ensures Is(kind, Encode(Marked(kind, c))) && Decode(Encode(Marked(kind, c))) == Marked(kind, c)
  {
    hide Word, Ip, Cmd, Block, LinuxValid, RtosValid;
    var m := Marked(kind, c);
    DecodeEncode(m);
    FieldsOfWord(m.ip, m.cmd, m.block, m.linuxValid, m.rtosValid);
  }

  lemma EmptyIsFree()
    ensures IsFree(EMPTY)
  {
  }

  // ---------------------------------------------------------------- steps

  datatype Lock = Nobody | LinuxHolds | CoreHolds

  /** The Linux publisher, which works under the hardware spinlock. */
  datatype Publisher =
    | Quiet | Scan(c: Command, i: nat) | WriteParam(c: Command, i: nat) | WriteHeader(c: Command, i: nat) | Release

  /** The Linux reader of replies, which takes no lock. */
  datatype Reader = Waiting | ClearReply(i: nat, cell: Cell)

  /** The C906L: one activity at a time, since the interrupt handler cannot run
      while a task holds the lock with interrupts off, and no task runs while
      the interrupt handler does. Only the interrupt handler works without the
      lock. */
  datatype Core =
    | Off
    | CheckLinux(isr: bool, i: nat, taken: nat, capacity: nat)
    | CheckRtos(isr: bool, i: nat, taken: nat, capacity: nat)
    | Copy(isr: bool, i: nat, taken: nat, capacity: nat)
    | Clear(isr: bool, i: nat, taken: nat, capacity: nat, cell: Cell)
    | SendLinux(reply: Command, i: nat) | SendRtos(reply: Command, i: nat)
    | SendParam(reply: Command, i: nat) | SendHeader(reply: Command, i: nat)
    | Leave

  /** A message copied out of a slot: which posting it was, and its contents. */
  datatype Receipt = Receipt(index: nat, command: Command)

  /** The slots with, for each, the number of the posting in it; all postings
      of one kind in order, and the messages copied out. */
  datatype Traffic = Traffic(posted: seq<Command>, taken: seq<Receipt>)

  datatype State = State(
    cells: seq<Cell>, tags: seq<nat>, lock: Lock,
    publisher: Publisher, reader: Reader, core: Core,
    commands: Traffic, replies: Traffic)

  datatype Label =
    | Publish(c: Command) | PublisherStep | ReadReply(i: nat) | ReaderStep
    | Interrupt(capacity: nat) | TaskReceive(capacity: nat) | TaskSend(c: Command) | CoreStep

  function Put(s: State, i: nat, cell: Cell): State
    requires i < |s.cells|
  {
    s.(cells := s.cells[i := cell])
  }

  /** A header that makes the slot valid has been written. */
  function Post(s: State, kind: Kind, i: nat, c: Command): State
    requires i < |s.cells| && i < |s.tags|
  {
    var cell := Cell(CommandHeader(c), s.cells[i].param);
    if kind == FromLinux then
      s.(cells := s.cells[i := cell], tags := s.tags[i := |s.commands.posted|],
         commands := s.commands.(posted := s.commands.posted + [c]))
    else
      s.(cells := s.cells[i := cell], tags := s.tags[i := |s.replies.posted|],
         replies := s.replies.(posted := s.replies.posted + [c]))
  }

  /** A message that was copied out has been cleared. */
  function Take(s: State, kind: Kind, i: nat, cell: Cell): State
    requires i < |s.cells| && i < |s.tags|
  {
    var receipt := Receipt(s.tags[i], Decode(cell));
    if kind == FromLinux then
      s.(cells := s.cells[i := EMPTY], commands := s.commands.(taken := s.commands.taken + [receipt]))
    else
      s.(cells := s.cells[i := EMPTY], replies := s.replies.(taken := s.replies.taken + [receipt]))
  }

  function OnPublisher(s: State): State
    requires |s.cells| == |s.tags| == SLOTS
  {
    match s.publisher
    case Quiet => s
    case Scan(c, i) =>
      if i >= SLOTS then s.(publisher := Release)
      else if IsFree(s.cells[i]) then s.(publisher := WriteParam(c, i))
      else s.(publisher := Scan(c, i + 1))
    case WriteParam(c, i) =>
      if i < SLOTS then Put(s, i, s.cells[i].(param := c.param)).(publisher := WriteHeader(c, i)) else s
    case WriteHeader(c, i) =>
      if i < SLOTS then Post(s, FromLinux, i, c).(publisher := Release) else s
    case Release => s.(publisher := Quiet, lock := Nobody)
  }

  function OnReader(s: State): State
    requires |s.cells| == |s.tags| == SLOTS
  {
    match s.reader
    case Waiting => s
    case ClearReply(i, cell) => if i < SLOTS then Take(s, FromRtos, i, cell).(reader := Waiting) else s
  }

  /** receive_commands and sg2002_rtos_mailbox_send, one access a step. */
  function OnCore(s: State): State
    requires |s.cells| == |s.tags| == SLOTS
  {
    match s.core
    case Off => s
    case CheckLinux(isr, i, taken, capacity) =>
      if i >= SLOTS || taken >= capacity then s.(core := if isr then Off else Leave)
      else if LinuxValid(s.cells[i].header) != 1 then s.(core := CheckLinux(isr, i + 1, taken, capacity))
      else s.(core := CheckRtos(isr, i, taken, capacity))
    case CheckRtos(isr, i, taken, capacity) =>
      if i >= SLOTS then s
      else if RtosValid(s.cells[i].header) != 0 then s.(core := CheckLinux(isr, i + 1, taken, capacity))
      else s.(core := Copy(isr, i, taken, capacity))
    case Copy(isr, i, taken, capacity) =>
      if i < SLOTS then s.(core := Clear(isr, i, taken, capacity, s.cells[i])) else s
    case Clear(isr, i, taken, capacity, cell) =>
      if i < SLOTS then Take(s, FromLinux, i, cell).(core := CheckLinux(isr, i + 1, taken + 1, capacity)) else s
    case SendLinux(reply, i) =>
      if i >= SLOTS then s.(core := Leave)
      else if LinuxValid(s.cells[i].header) != 0 then s.(core := SendLinux(reply, i + 1))
      else s.(core := SendRtos(reply, i))
    case SendRtos(reply, i) =>
      if i >= SLOTS then s
      else if RtosValid(s.cells[i].header) != 0 then s.(core := SendLinux(reply, i + 1))
      else s.(core := SendParam(reply, i))
    case SendParam(reply, i) =>
      if i < SLOTS then Put(s, i, s.cells[i].(param := reply.param)).(core := SendHeader(reply, i)) else s
    case SendHeader(reply, i) =>
      if i < SLOTS then Post(s, FromRtos, i, reply).(core := Leave) else s
    case Leave => s.(core := Off, lock := Nobody)
  }

  /** One step of one side; a label that is not enabled changes nothing. */
  function Step(s: State, l: Label): State
    requires |s.cells| == |s.tags| == SLOTS
  {
    match l
    case Publish(c) =>
      if s.publisher.Quiet? &&
          s.lock == Nobody then s.(publisher := Scan(Marked(FromLinux, c), 0), lock := LinuxHolds) else s
    case PublisherStep => OnPublisher(s)
    case ReadReply(i) =>
      if s.reader.Waiting? && i < SLOTS && Is(FromRtos, s.cells[i]) then s.(reader := ClearReply(i, s.cells[i])) else s
    case ReaderStep => OnReader(s)
    case Interrupt(capacity) => if s.core.Off? then s.(core := CheckLinux(true, 0, 0, capacity)) else s
    case TaskReceive(capacity) =>
      if s.core.Off? && s.lock == Nobody && capacity > 0
      then s.(core := CheckLinux(false, 0, 0, capacity), lock := CoreHolds) else s
    case TaskSend(c) =>
      if s.core.Off? && s.lock == Nobody then s.(core := SendLinux(Marked(FromRtos, c), 0), lock := CoreHolds) else s
    case CoreStep => OnCore(s)
  }

  function Start(): State {
    State(seq(SLOTS, _ => EMPTY), seq(SLOTS, _ => 0), Nobody, Quiet, Waiting, Off, Traffic([], []), Traffic([], []))
  }

  // ---------------------------------------------------------------- invariant

  predicate Taken(taken: seq<Receipt>, n: nat) {
    exists r :: 0 <= r < |taken| && taken[r].index == n
  }

  predicate InSlot(kind: Kind, cells: seq<Cell>, tags: seq<nat>, n: nat)
    requires |cells| == |tags|
  {
    exists i :: 0 <= i < |cells| && Is(kind, cells[i]) && tags[i] == n
  }

  predicate SlotsHold(kind: Kind, cells: seq<Cell>, tags: seq<nat>, t: Traffic)
    requires |cells| == |tags|
  {
    && (forall i :: 0 <= i < |cells| && Is(kind, cells[i]) ==>
          tags[i] < |t.posted| && Decode(cells[i]) == t.posted[tags[i]] && !Taken(t.taken, tags[i]))
    && (forall i, j :: 0 <= i < j < |cells| && Is(kind, cells[i]) && Is(kind, cells[j]) ==> tags[i] != tags[j])
  }

  predicate ReceiptsHold(t: Traffic) {
    && (forall r :: 0 <= r < |t.taken| ==>
          t.taken[r].index < |t.posted| && t.taken[r].command == t.posted[t.taken[r].index])
    && (forall q, r :: 0 <= q < r < |t.taken| ==> t.taken[q].index != t.taken[r].index)
  }

  /** Every posting has been copied out intact exactly once, or is in one slot. */
  predicate Conserved(kind: Kind, cells: seq<Cell>, tags: seq<nat>, t: Traffic)
    requires |cells| == |tags|
  {
    && SlotsHold(kind, cells, tags, t) && ReceiptsHold(t)
    && forall n :: 0 <= n < |t.posted| ==> Taken(t.taken, n) || InSlot(kind, cells, tags, n)
  }

  predicate PublisherOk(s: State)
    requires |s.cells| == SLOTS
  {
    && (s.lock == LinuxHolds <==> !s.publisher.Quiet?)
    && match s.publisher
       case Quiet => true
       case Scan(c, i) => c == Marked(FromLinux, c)
       case WriteParam(c, i) => i < SLOTS && IsFree(s.cells[i]) && c == Marked(FromLinux, c)
       case WriteHeader(c, i) => i < SLOTS && IsFree(s.cells[i]) && s.cells[i].param == c.param &&
           c == Marked(FromLinux, c)
       case Release => true
  }

  predicate ReaderOk(s: State)
    requires |s.cells| == SLOTS
  {
    s.reader.ClearReply? ==> s.reader.i < SLOTS && s.cells[s.reader.i] == s.reader.cell && Is(FromRtos, s.reader.cell)
  }

  predicate Interrupted(core: Core) {
    (core.CheckLinux? || core.CheckRtos? || core.Copy? || core.Clear?) && core.isr
  }

  predicate CoreOk(s: State)
    requires |s.cells| == SLOTS
  {
    && (s.lock == CoreHolds <==> !s.core.Off? && !Interrupted(s.core))
    && match s.core
       case Off => true
       case CheckLinux(isr, i, taken, capacity) => true
       case CheckRtos(isr, i, taken, capacity) => i < SLOTS && Is(FromLinux, s.cells[i])
       case Copy(isr, i, taken, capacity) => i < SLOTS && Is(FromLinux, s.cells[i])
       case Clear(isr, i, taken, capacity, cell) => i < SLOTS && Is(FromLinux, s.cells[i]) && s.cells[i] == cell
       case SendLinux(reply, i) => reply == Marked(FromRtos, reply)
       case SendRtos(reply, i) => i < SLOTS && !Is(FromLinux, s.cells[i]) && reply == Marked(FromRtos, reply)
       case SendParam(reply, i) => i < SLOTS && IsFree(s.cells[i]) && reply == Marked(FromRtos, reply)
       case SendHeader(reply, i) =>
         i < SLOTS && IsFree(s.cells[i]) && s.cells[i].param == reply.param && reply == Marked(FromRtos, reply)
       case Leave => true
  }

  /** Every slot is free, or holds a command, or holds a reply. */
  predicate Shaped(cells: seq<Cell>) {
    forall i :: 0 <= i < |cells| ==> IsFree(cells[i]) || Is(FromLinux, cells[i]) || Is(FromRtos, cells[i])
  }

  predicate Good(s: State) {
    && |s.cells| == |s.tags| == SLOTS && Shaped(s.cells)
    && PublisherOk(s) && ReaderOk(s) && CoreOk(s)
    && Conserved(FromLinux, s.cells, s.tags, s.commands)
    && Conserved(FromRtos, s.cells, s.tags, s.replies)
  }

  // ---------------------------------------------------------------- conservation

  lemma KindsDiffer(cell: Cell)
    ensures Is(FromLinux, cell) ==> !Is(FromRtos, cell) && !IsFree(cell)
    ensures Is(FromRtos, cell) ==> !IsFree(cell)
  {
  }

  lemma PostConserves(kind: Kind, cells: seq<Cell>, tags: seq<nat>, t: Traffic, i: nat, c: Command)
    requires |cells| == |tags| && i < |cells| && IsFree(cells[i]) && cells[i].param == c.param
    requires Conserved(kind, cells, tags, t) && c == Marked(kind, c)
    ensures Conserved(kind, cells[i := Encode(c)], tags[i := |t.posted|], t.(posted := t.posted + [c]))
  {
    Marks(kind, c);
    KindsDiffer(cells[i]);
    hide Is, IsFree, Decode, Encode, Marked;
    var cs, gs, u := cells[i := Encode(c)], tags[i := |t.posted|], t.(posted := t.posted + [c]);
    forall n | 0 <= n < |u.posted| ensures Taken(u.taken, n) || InSlot(kind, cs, gs, n) {
      if n == |t.posted| {
        assert Is(kind, cs[i]) && gs[i] == n;
      } else if !Taken(t.taken, n) {
        var j :| 0 <= j < |cells| && Is(kind, cells[j]) && tags[j] == n;
        assert cs[j] == cells[j] && gs[j] == n;
      }
    }
  }

  lemma TakeConserves(kind: Kind, cells: seq<Cell>, tags: seq<nat>, t: Traffic, i: nat)
    requires |cells| == |tags| && i < |cells| && Is(kind, cells[i]) && Conserved(kind, cells, tags, t)
    ensures Conserved(kind, cells[i := EMPTY], tags, t.(taken := t.taken + [Receipt(tags[i], Decode(cells[i]))]))
  {
    EmptyIsFree();
    KindsDiffer(EMPTY);
    hide Is, IsFree, Decode;
    var cs, u := cells[i := EMPTY], t.(taken := t.taken + [Receipt(tags[i], Decode(cells[i]))]);
    forall n ensures Taken(u.taken, n) <==> Taken(t.taken, n) || n == tags[i] {
      TakenMore(t.taken, Receipt(tags[i], Decode(cells[i])), n);
    }
    forall n | 0 <= n < |u.posted| ensures Taken(u.taken, n) || InSlot(kind, cs, tags, n) {
      if !Taken(t.taken, n) && n != tags[i] {
        var j :| 0 <= j < |cells| && Is(kind, cells[j]) && tags[j] == n;
        assert cs[j] == cells[j];
      }
    }
    forall q, r | 0 <= q < r < |u.taken| ensures u.taken[q].index != u.taken[r].index {
      if r == |t.taken| {
        assert t.taken[q].index == u.taken[q].index;
      }
    }
  }

  lemma TakenMore(taken: seq<Receipt>, r: Receipt, n: nat)
    ensures Taken(taken + [r], n) <==> Taken(taken, n) || n == r.index
  {
    var more := taken + [r];
    if Taken(taken, n) {
      var k :| 0 <= k < |taken| && taken[k].index == n;
      assert more[k].index == n;
    }
    if n == r.index {
      assert more[|taken|].index == n;
    }
  }

  /** A slot that changes from and to another kind does not matter. */
  lemma OthersConserve(kind: Kind, cells: seq<Cell>, tags: seq<nat>, t: Traffic, i: nat, cell: Cell, tag: nat)
    requires |cells| == |tags| && i < |cells| && !Is(kind, cells[i]) && !Is(kind, cell) &&
          Conserved(kind, cells, tags, t)
    ensures Conserved(kind, cells[i := cell], tags[i := tag], t)
  {
    hide Is, Decode;
    var cs, gs := cells[i := cell], tags[i := tag];
    forall n | 0 <= n < |t.posted| && !Taken(t.taken, n) ensures InSlot(kind, cs, gs, n) {
      var j :| 0 <= j < |cells| && Is(kind, cells[j]) && tags[j] == n;
      assert cs[j] == cells[j] && gs[j] == n;
    }
  }

  // ---------------------------------------------------------------- steps keep the invariant

  /** What the valid bytes of a slot tell. */
  lemma ReadValid(cell: Cell)
    requires IsFree(cell) || Is(FromLinux, cell) || Is(FromRtos, cell)
    ensures LinuxValid(cell.header) == 1 <==> Is(FromLinux, cell)
    ensures LinuxValid(cell.header) == 0 <==> !Is(FromLinux, cell)
    ensures Is(FromLinux, cell) ==> RtosValid(cell.header) == 0
    ensures !Is(FromLinux, cell) ==> (RtosValid(cell.header) == 0 <==> IsFree(cell))
  {
    hide LinuxValid, RtosValid;
  }

  lemma ParamKeepsKind(cell: Cell, param: bv32)
    ensures IsFree(cell.(param := param)) == IsFree(cell)
    ensures forall kind :: Is(kind, cell.(param := param)) == Is(kind, cell)
  {
  }

  /** A parameter written into a free slot is not seen by anybody. */
  lemma ParamKeeps(s: State, i: nat, param: bv32)
    requires Good(s) && i < SLOTS && IsFree(s.cells[i])
    ensures var cs := s.cells[i := s.cells[i].(param := param)];
            && Shaped(cs) && IsFree(cs[i])
            && Conserved(FromLinux, cs, s.tags, s.commands) && Conserved(FromRtos, cs, s.tags, s.replies)
  {
    ParamKeepsKind(s.cells[i], param);
    KindsDiffer(s.cells[i]);
    hide Is, IsFree, Decode, Encode, Conserved;
    OthersConserve(FromLinux, s.cells, s.tags, s.commands, i, s.cells[i].(param := param), s.tags[i]);
    OthersConserve(FromRtos, s.cells, s.tags, s.replies, i, s.cells[i].(param := param), s.tags[i]);
    assert s.tags[i := s.tags[i]] == s.tags;
  }

  function Other(kind: Kind): Kind {
    if kind == FromLinux then FromRtos else FromLinux
  }

  function TrafficOf(s: State, kind: Kind): Traffic {
    if kind == FromLinux then s.commands else s.replies
  }

  /** A header written into a free slot whose parameter is in place. */
  lemma PostKeeps(s: State, kind: Kind, i: nat, c: Command)
    requires Good(s) && i < SLOTS && IsFree(s.cells[i]) && s.cells[i].param == c.param && c == Marked(kind, c)
    ensures var p := Post(s, kind, i, c);
            && Shaped(p.cells) && Is(kind, p.cells[i]) && p.cells == s.cells[i := p.cells[i]]
            && Conserved(FromLinux, p.cells, p.tags, p.commands) && Conserved(FromRtos, p.cells, p.tags, p.replies)
  {
    Marks(kind, c);
    KindsDiffer(s.cells[i]);
    KindsDiffer(Encode(c));
    assert Cell(CommandHeader(c), s.cells[i].param) == Encode(c);
    hide Is, IsFree, Decode, Encode, Conserved, Marked, CommandHeader;
    PostConserves(kind, s.cells, s.tags, TrafficOf(s, kind), i, c);
    OthersConserve(Other(kind), s.cells, s.tags, TrafficOf(s, Other(kind)), i, Encode(c), |TrafficOf(s, kind).posted|);
  }

  /** A slot cleared after its message was copied out. */
  lemma ClearKeeps(s: State, kind: Kind, i: nat, cell: Cell)
    requires Good(s) && i < SLOTS && Is(kind, s.cells[i]) && s.cells[i] == cell
    ensures var p := Take(s, kind, i, cell);
            && Shaped(p.cells) && IsFree(p.cells[i]) && p.cells == s.cells[i := p.cells[i]]
            && Conserved(FromLinux, p.cells, p.tags, p.commands) && Conserved(FromRtos, p.cells, p.tags, p.replies)
  {
    EmptyIsFree();
    KindsDiffer(s.cells[i]);
    KindsDiffer(EMPTY);
    hide Is, IsFree, Decode, Encode, Conserved;
    TakeConserves(kind, s.cells, s.tags, TrafficOf(s, kind), i);
    OthersConserve(Other(kind), s.cells, s.tags, TrafficOf(s, Other(kind)), i, EMPTY, s.tags[i]);
    assert s.tags[i := s.tags[i]] == s.tags;
  }

  /** Nobody else relies on slot i being what it was. */
  lemma OthersRely(s: State, i: nat, cell: Cell)
    requires |s.cells| == SLOTS && i < SLOTS && PublisherOk(s) && ReaderOk(s) && CoreOk(s)
    ensures !IsFree(s.cells[i]) ==> PublisherOk(s.(cells := s.cells[i := cell]))
    ensures !Is(FromRtos, s.cells[i]) ==> ReaderOk(s.(cells := s.cells[i := cell]))
    ensures Is(FromRtos, s.cells[i]) && IsFree(cell) ==> CoreOk(s.(cells := s.cells[i := cell]))
    ensures IsFree(s.cells[i]) && s.lock == LinuxHolds ==> CoreOk(s.(cells := s.cells[i := cell]))
  {
    KindsDiffer(s.cells[i]);
    KindsDiffer(cell);
    hide Is, IsFree, Marked;
  }

  lemma PublisherKeeps(s: State)
    requires Good(s)
    ensures Good(OnPublisher(s))
  {
    hide Is, IsFree, Decode, Encode, Conserved, Marked, CommandHeader, Shaped;
    match s.publisher {
      case Quiet =>
      case Scan(c, i) =>
      case WriteParam(c, i) =>
        KindsDiffer(s.cells[i]);
        ParamKeeps(s, i, c.param);
        OthersRely(s, i, s.cells[i].(param := c.param));
      case WriteHeader(c, i) =>
        KindsDiffer(s.cells[i]);
        PostKeeps(s, FromLinux, i, c);
        OthersRely(s, i, Post(s, FromLinux, i, c).cells[i]);
      case Release =>
    }
  }

  lemma ReaderKeeps(s: State)
    requires Good(s)
    ensures Good(OnReader(s))
  {
    hide Is, IsFree, Decode, Encode, Conserved, Marked, Shaped;
    if s.reader.ClearReply? {
      var i := s.reader.i;
      KindsDiffer(s.cells[i]);
      ClearKeeps(s, FromRtos, i, s.reader.cell);
      OthersRely(s, i, Take(s, FromRtos, i, s.reader.cell).cells[i]);
    }
  }

  /** Reading a slot tells the core what it may do with it. */
  lemma CoreReadKeeps(s: State)
    requires Good(s) && (s.core.CheckLinux? || s.core.CheckRtos? || s.core.SendLinux? || s.core.SendRtos?)
    ensures Good(OnCore(s))
  {
    hide Is, IsFree, Decode, Conserved, Marked, LinuxValid, RtosValid;
    if s.core.i < SLOTS {
      ReadValid(s.cells[s.core.i]);
    }
    hide Shaped;
  }

  lemma CoreKeeps(s: State)
    requires Good(s)
    ensures Good(OnCore(s))
  {
    if s.core.CheckLinux? || s.core.CheckRtos? || s.core.SendLinux? || s.core.SendRtos? {
      CoreReadKeeps(s);
    } else if s.core.Clear? {
      ClearStepKeeps(s);
    } else if s.core.SendParam? {
      SendParamKeeps(s);
    } else if s.core.SendHeader? {
      SendHeaderKeeps(s);
    } else {
      hide Is, IsFree, Decode, Conserved, Marked, Shaped;
    }
  }

  lemma ClearStepKeeps(s: State)
    requires Good(s) && s.core.Clear?
    ensures Good(OnCore(s))
  {
    hide Is, IsFree, Decode, Encode, Conserved, Marked, Shaped;
    KindsDiffer(s.cells[s.core.i]);
    ClearKeeps(s, FromLinux, s.core.i, s.core.cell);
    OthersRely(s, s.core.i, Take(s, FromLinux, s.core.i, s.core.cell).cells[s.core.i]);
  }

  lemma SendParamKeeps(s: State)
    requires Good(s) && s.core.SendParam?
    ensures Good(OnCore(s))
  {
    hide Is, IsFree, Decode, Encode, Conserved, Marked, Shaped;
    KindsDiffer(s.cells[s.core.i]);
    ParamKeeps(s, s.core.i, s.core.reply.param);
    OthersRely(s, s.core.i, s.cells[s.core.i].(param := s.core.reply.param));
  }

  lemma SendHeaderKeeps(s: State)
    requires Good(s) && s.core.SendHeader?
    ensures Good(OnCore(s))
  {
    hide Is, IsFree, Decode, Encode, Conserved, Marked, Shaped, CommandHeader;
    KindsDiffer(s.cells[s.core.i]);
    PostKeeps(s, FromRtos, s.core.i, s.core.reply);
    OthersRely(s, s.core.i, Post(s, FromRtos, s.core.i, s.core.reply).cells[s.core.i]);
  }

  lemma StepKeeps(s: State, l: Label)
    requires Good(s)
    ensures Good(Step(s, l))
  {
    hide Is, IsFree, Decode, Encode, Conserved, Shaped, OnPublisher, OnReader, OnCore;
    match l {
      case PublisherStep => PublisherKeeps(s);
      case ReaderStep => ReaderKeeps(s);
      case CoreStep => CoreKeeps(s);
      case Publish(_) =>
      case ReadReply(_) =>
      case Interrupt(_) =>
      case TaskReceive(_) =>
      case TaskSend(_) =>
    }
  }

  // ---------------------------------------------------------------- theorems

  function Run(s: State, ls: seq<Label>): State
    requires Good(s)
    decreases |ls|
  {
    if ls == [] then s else StepKeeps(s, ls[0]); Run(Step(s, ls[0]), ls[1..])
  }

  lemma GoodSlots(s: State)
    requires Good(s)
    ensures |s.cells| == |s.tags| == SLOTS
  {
  }

  lemma {:induction false} RunKeeps(s: State, ls: seq<Label>)
    requires Good(s)
    ensures Good(Run(s, ls))
    decreases |ls|
  {
    hide Good, Step;
    if ls != [] {
      GoodSlots(s);
      StepKeeps(s, ls[0]);
      RunKeeps(Step(s, ls[0]), ls[1..]);
    }
  }

  lemma StartIsGood()
    ensures Good(Start())
  {
    EmptyIsFree();
    KindsDiffer(EMPTY);
    hide Is, IsFree, Decode;
  }

  /** In every interleaving of the publisher, the reader of replies, the
      interrupt handler and the tasks, commands and replies are conserved. */
  lemma EveryRunConserves(ls: seq<Label>)
    ensures Good(Start()) && Good(Run(Start(), ls))
  {
    hide Good, Run, Start;
    StartIsGood();
    RunKeeps(Start(), ls);
  }

  /** The states that runs lead to. */
  ghost predicate Reachable(s: State) {
    |s.cells| == |s.tags| == SLOTS && Good(Start()) && exists ls :: s == Run(Start(), ls)
  }

  lemma ReachableIsGood(s: State)
    requires Reachable(s)
    ensures Good(s)
  {
    hide Good, Run, Start;
    var ls :| s == Run(Start(), ls);
    EveryRunConserves(ls);
  }

  /** Each published command is copied out at most once and intact, and until
      it is, it lies in exactly one slot. */
  lemma EachCommandOnce(s: State, n: nat)
    requires Reachable(s) && n < |s.commands.posted|
    ensures Taken(s.commands.taken, n) <==> !InSlot(FromLinux, s.cells, s.tags, n)
    ensures forall q, r :: 0 <= q < r < |s.commands.taken| ==> s.commands.taken[q].index != s.commands.taken[r].index
    ensures forall r :: 0 <= r < |s.commands.taken| && s.commands.taken[r].index == n ==>
              s.commands.taken[r].command == s.commands.posted[n]
    ensures forall i, j :: 0 <= i < j < SLOTS && Is(FromLinux, s.cells[i]) && Is(FromLinux, s.cells[j]) ==>
              s.tags[i] != s.tags[j]
  {
    ReachableIsGood(s);
    hide Reachable;
    hide Is, IsFree, Decode, PublisherOk, ReaderOk, CoreOk;
  }

  /** Neither side writes to a slot that holds anything. */
  lemma NothingIsOverwritten(s: State)
    requires Reachable(s)
    ensures s.core.SendParam? || s.core.SendHeader? ==> s.core.i < SLOTS && IsFree(s.cells[s.core.i])
    ensures s.publisher.WriteParam? || s.publisher.WriteHeader? ==>
              s.publisher.i < SLOTS && IsFree(s.cells[s.publisher.i])
    ensures (s.core.SendParam? || s.core.SendHeader?) ==> s.publisher.Quiet?
  {
    ReachableIsGood(s);
    hide Reachable;
    hide Is, IsFree, Decode, Conserved, Marked;
  }

  /** A command that is being copied stays what it is until it is cleared. */
  lemma CopiesAreIntact(s: State, l: Label)
    requires Reachable(s) && (s.core.Copy? || s.core.Clear?) && l != CoreStep
    ensures s.core.i < SLOTS && Step(s, l).core == s.core && Step(s, l).cells[s.core.i] == s.cells[s.core.i]
  {
    ReachableIsGood(s);
    hide Reachable;
    KindsDiffer(s.cells[s.core.i]);
    hide Is, IsFree, Decode, Conserved, Marked, CommandHeader;
  }

  // ---------------------------------------------------------------- implementation

  /** The commands in the first k slots, in the order of the slots. */
  function CommandsIn(cells: seq<Cell>, k: nat): seq<Command>
    requires k <= |cells|
  {
    if k == 0 then []
    else if Is(FromLinux, cells[k - 1]) then CommandsIn(cells, k - 1) + [Decode(cells[k - 1])]
    else CommandsIn(cells, k - 1)
  }

  /** The slots as this core finds them, between the steps of the other one. */
  class SlotArea {
    const cells: array<Cell>

    constructor (cells: array<Cell>)
      ensures this.cells == cells
    {
      this.cells := cells;
    }

    /** receive_commands: the commands of the first slots up to some slot, in
        order, and exactly those slots are cleared. It goes on to the last slot
        unless the capacity is used up. */
    method ReceiveCommands(commands: array<Command>, capacity: nat) returns (count: nat, ghost upTo: nat)
      requires cells.Length == SLOTS && capacity <= commands.Length && commands as object != cells as object
      modifies cells, commands
      ensures count <= capacity && upTo <= SLOTS && (upTo == SLOTS || count == capacity)
      ensures commands[..count] == CommandsIn(old(cells[..]), upTo)
      ensures forall i :: 0 <= i < SLOTS ==>
                cells[i] == if i < upTo && Is(FromLinux, old(cells[i])) then EMPTY else old(cells[i])
    {
      hide Decode, LinuxValid, RtosValid;
      count, upTo := 0, 0;
      if capacity == 0 {
        return;
      }
      ghost var was := cells[..];
      var slot := 0;
      while slot < SLOTS && count < capacity
        invariant upTo == slot <= SLOTS && count <= capacity
        invariant commands[..count] == CommandsIn(was, slot)
        invariant forall i :: 0 <= i < SLOTS ==>
                    cells[i] == if i < slot && Is(FromLinux, was[i]) then EMPTY else was[i]
      {
        if LinuxValid(cells[slot].header) == 1 && RtosValid(cells[slot].header) == 0 {
          commands[count] := Decode(cells[slot]);
          cells[slot] := EMPTY;
          count := count + 1;
        }
        slot := slot + 1;
        upTo := slot;
      }
    }

    /** sg2002_rtos_mailbox_send: the reply goes into the first free slot, or
        nowhere; no other slot changes. */
    method Send(command: Command) returns (status: int, ghost at: nat)
      requires cells.Length == SLOTS
      modifies cells
      ensures status == 0 || status == -1
      ensures status == 0 <==> exists i :: 0 <= i < SLOTS && IsFree(old(cells[i]))
      ensures status == 0 ==>
                && at < SLOTS && IsFree(old(cells[at])) && (forall j :: 0 <= j < at ==> !IsFree(old(cells[j])))
                && cells[..] == old(cells[..])[at := Encode(Marked(FromRtos, command))]
                && Decode(cells[at]) ==
                     Command(command.ip, command.cmd, command.block, 0, 1, command.param)
      ensures status == -1 ==> cells[..] == old(cells[..])
    {
      hide CommandHeader, LinuxValid, RtosValid, Decode;
      var reply := command.(linuxValid := 0, rtosValid := 1);
      var slot := 0;
      at := 0;
      while slot < SLOTS
        invariant slot <= SLOTS && cells[..] == old(cells[..])
        invariant forall j :: 0 <= j < slot ==> !IsFree(cells[j])
      {
        if LinuxValid(cells[slot].header) == 0 && RtosValid(cells[slot].header) == 0 {
          cells[slot] := cells[slot].(param := reply.param);
          cells[slot] := cells[slot].(header := CommandHeader(reply));
          at := slot;
          Marks(FromRtos, command);
          MarksOnly(command);
          assert cells[at] == Encode(Marked(FromRtos, command));
          return 0, at;
        }
        slot := slot + 1;
      }
      status := -1;
    }
  }
}
