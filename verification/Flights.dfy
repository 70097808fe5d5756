/** Messages that are out on the channel, as its clients see them: with the
    firmware, answered, reaped, dealt with. */
module Flights {
  import opened Wrap
  import opened Shm
  import opened App

  /** Where a message is: with the firmware, answered, reaped but not yet
      looked at, or dealt with. */
  datatype Place = Sent | Replied | Held | Consumed

  /** A message and whose request it is or answers; the program does not look
      at the owner. */
  datatype Flight = Flight(owner: nat, slot: Slot, place: Place)

  predicate InRange(flights: seq<Flight>, held: seq<nat>) {
    forall i :: 0 <= i < |held| ==> held[i] < |flights|
  }

  predicate AnyReplied(flights: seq<Flight>) {
    exists k :: 0 <= k < |flights| && flights[k].place == Replied
  }

  function SlotsOf(flights: seq<Flight>, held: seq<nat>): (r: seq<Slot>)
    requires InRange(flights, held)
    ensures |r| == |held|
  {
    seq(|held|, i requires 0 <= i < |held| => flights[held[i]].slot)
  }

  /** The reaped responses have been dealt with. */
  function Dealt(flights: seq<Flight>): (r: seq<Flight>)
    ensures |r| == |flights|
  {
    seq(|flights|, i requires 0 <= i < |flights| =>
      if flights[i].place == Held then flights[i].(place := Consumed) else flights[i])
  }

  /** The driver assigns nonzero sequences that are pairwise different and
      different from those of all messages it still has. */
  predicate FreshBatch(flights: seq<Flight>, sequences: seq<u32>) {
    && (forall i :: 0 <= i < |sequences| ==> sequences[i] != 0)
    && (forall i, j :: 0 <= i < j < |sequences| ==> sequences[i] != sequences[j])
    && (forall i, k :: 0 <= i < |sequences| && 0 <= k < |flights| ==>
          flights[k].place == Sent || flights[k].place == Replied ==>
          flights[k].slot.sequence != sequences[i])
  }

  /** A batch of answered messages, each once. */
  predicate Reapable(flights: seq<Flight>, held: seq<nat>) {
    && (forall i :: 0 <= i < |held| ==> held[i] < |flights| && flights[held[i]].place == Replied)
    && (forall i, j :: 0 <= i < j < |held| ==> held[i] != held[j])
  }

  function Hold(flights: seq<Flight>, held: seq<nat>): (r: seq<Flight>)
    ensures |r| == |flights|
  {
    seq(|flights|, i requires 0 <= i < |flights| =>
      if i in held then flights[i].(place := Held) else flights[i])
  }

  /** The firmware answers a message. */
  function AnswerOne(flights: seq<Flight>, gpio: Gpio, k: nat): (r: (seq<Flight>, Gpio))
    ensures |r.0| == |flights|
  {
    if k < |flights| && flights[k].place == Sent && Sendable(flights[k].slot) then
      var r := Respond(flights[k].slot, gpio);
      (flights[k := Flight(flights[k].owner, r.0, Replied)], r.1)
    else (flights, gpio)
  }

  /** The held messages are these, each once. */
  predicate HeldOk(held: seq<nat>, flights: seq<Flight>) {
    && InRange(flights, held)
    && (forall i, j :: 0 <= i < j < |held| ==> held[i] != held[j])
    && (forall k :: 0 <= k < |flights| ==> (flights[k].place == Held <==> k in held))
  }

  /** The reaped messages are held by the dispatcher. */
  lemma HoldIsHeld(flights: seq<Flight>, held: seq<nat>)
    requires Reapable(flights, held) && HeldOk([], flights)
    ensures HeldOk(held, Hold(flights, held))
  {
  }
}
