/**
 * The provider's file handlers and the memory they may hold: handleFile, fileRequestWeight and the slots, in every
 * interleaving.
 */
module FileBudget {
  import opened Files
  import opened Sums
  import Frames

  const FILE_SLOTS: nat := 32
  const MAX_IN_FLIGHT: nat := 0x400_0000

  /** fileRequestWeight: what comes in, and a block that may go out. */
  function Weight(dataLength: int, rawDataLength: int): (w: int)
    ensures w <= 2 * Frames.MAX_PAYLOAD
    ensures w > 0 <==> 0 <= Max(dataLength, rawDataLength) <= Frames.MAX_PAYLOAD
    ensures w > 0 ==> w >= dataLength + 0x10_0000 && w >= rawDataLength + 0x10_0000
    ensures w > 0 ==> w == dataLength + 0x10_0000 || w == rawDataLength + 0x10_0000
  {
    var incoming := Max(dataLength, rawDataLength);
    if incoming < 0 || incoming > Frames.MAX_PAYLOAD then -1 else incoming + Frames.MAX_PAYLOAD
  }

  /** Every request that WriteRequest produces passes the check. */
  lemma WrittenRequestsPass<F(!new)>(codec: Frames.Codec<F>, fields: F, data: seq<Byte>)
    requires Frames.Lawful(codec) && Frames.Message(codec, fields, data, Frames.MAX_PAYLOAD).Some?
    ensures var h := Frames.Sealed(codec, fields, data);
            0 < Weight(h.dataLength, h.rawDataLength) <= MAX_IN_FLIGHT
  {
  }

  /**
   * Where a handler is: before its slot, with a slot, waiting for the budget, at work, about to return its slot, or
   * gone.
   */
  datatype Stage = Entering | Weighing | Acquiring | Handling | Leaving | Gone

  datatype Handler = Handler(stage: Stage, dataLength: int, rawDataLength: int)

  /** The channel of slots and the semaphore, as the numbers of units taken from them. */
  datatype System = System(slots: int, held: int, handlers: map<nat, Handler>)

  /**
   * Cancel is a context that ends while the handler waits. Finish is any way a handler at work can end: the deferred
   * calls return its weight first, and then, in Leave, its slot.
   */
  datatype Event =
    | Arrive(id: nat, dataLength: int, rawDataLength: int)
    | Enter(id: nat)
    | Weigh(id: nat)
    | Acquire(id: nat)
    | Cancel(id: nat)
    | Finish(id: nat)
    | Leave(id: nat)

  function WeightOf(h: Handler): int {
    Weight(h.dataLength, h.rawDataLength)
  }

  /** When a step can be taken. Only Acquire may have to wait. */
  predicate Ready(s: System, e: Event) {
    match e
    case Arrive(id, _, _) => id !in s.handlers
    case Enter(id) => id in s.handlers && s.handlers[id].stage.Entering?
    case Weigh(id) => id in s.handlers && s.handlers[id].stage.Weighing?
    case Acquire(id) =>
      && id in s.handlers && s.handlers[id].stage.Acquiring?
      && s.held + WeightOf(s.handlers[id]) <= MAX_IN_FLIGHT
    case Cancel(id) => id in s.handlers && s.handlers[id].stage.Acquiring?
    case Finish(id) => id in s.handlers && s.handlers[id].stage.Handling?
    case Leave(id) => id in s.handlers && s.handlers[id].stage.Leaving?
  }

  function At(s: System, id: nat, stage: Stage, slots: int, held: int): System
    requires id in s.handlers
  {
    System(s.slots + slots, s.held + held, s.handlers[id := s.handlers[id].(stage := stage)])
  }

  function Next(s: System, e: Event): System
    requires Ready(s, e)
  {
    match e
    case Arrive(id, d, r) => s.(handlers := s.handlers[id := Handler(Entering, d, r)])
    case Enter(id) => if s.slots < FILE_SLOTS then At(s, id, Weighing, 1, 0) else At(s, id, Gone, 0, 0)
    case Weigh(id) =>
      var w := WeightOf(s.handlers[id]);
      if w <= 0 || w > MAX_IN_FLIGHT then At(s, id, Leaving, 0, 0) else At(s, id, Acquiring, 0, 0)
    case Acquire(id) => At(s, id, Handling, 0, WeightOf(s.handlers[id]))
    case Cancel(id) => At(s, id, Leaving, 0, 0)
    case Finish(id) => At(s, id, Leaving, 0, -WeightOf(s.handlers[id]))
    case Leave(id) => At(s, id, Gone, -1, 0)
  }

  ghost predicate Run(states: seq<System>, events: seq<Event>) {
    && |states| == |events| + 1 && states[0] == System(0, 0, map[])
    && forall i :: 0 <= i < |events| ==> Ready(states[i], events[i]) && states[i + 1] == Next(states[i], events[i])
  }

  predicate Slotted(h: Handler) {
    h.stage.Weighing? || h.stage.Acquiring? || h.stage.Handling? || h.stage.Leaving?
  }

  function Holders(handlers: map<nat, Handler>): set<nat> {
    set id | id in handlers && Slotted(handlers[id])
  }

  function Share(h: Handler): nat {
    if h.stage.Handling? then Max(0, WeightOf(h)) else 0
  }

  function Shares(handlers: map<nat, Handler>): map<nat, nat> {
    map id | id in handlers :: Share(handlers[id])
  }

  /** Slots and budget are exactly what the handlers hold. */
  ghost predicate Invariant(s: System) {
    && s.slots == |Holders(s.handlers)| <= FILE_SLOTS
    && s.held == Sum(Shares(s.handlers))
    && forall id :: id in s.handlers && (s.handlers[id].stage.Acquiring? || s.handlers[id].stage.Handling?) ==>
        WeightOf(s.handlers[id]) > 0
  }

  lemma HoldersUpdate(handlers: map<nat, Handler>, id: nat, h: Handler)
    ensures |Holders(handlers[id := h])| ==
              |Holders(handlers)| + (if Slotted(h) then 1 else 0)
              - if id in handlers && Slotted(handlers[id]) then 1 else 0
  {
    var before, after := Holders(handlers), Holders(handlers[id := h]);
    assert after - {id} == before - {id};
    assert after == if Slotted(h) then (before - {id}) + {id} else before - {id};
    assert id in before <==> id in handlers && Slotted(handlers[id]);
  }

  lemma SharesUpdate(handlers: map<nat, Handler>, id: nat, h: Handler)
    ensures Sum(Shares(handlers[id := h])) ==
              Sum(Shares(handlers)) + Share(h) - if id in handlers then Share(handlers[id]) else 0
  {
    SumUpdate(Shares(handlers), id, Share(h));
    assert Shares(handlers[id := h]) == Shares(handlers)[id := Share(h)];
  }

  lemma StepKeeps(s: System, e: Event)
    requires Invariant(s) && Ready(s, e)
    ensures Invariant(Next(s, e))
  {
    hide Weight, Holders, Shares, Sum;
    var h := Next(s, e).handlers[e.id];
    HoldersUpdate(s.handlers, e.id, h);
    SharesUpdate(s.handlers, e.id, h);
  }

  lemma {:induction false} RunInvariant(states: seq<System>, events: seq<Event>, i: nat)
    requires Run(states, events) && i < |states|
    ensures Invariant(states[i])
  {
    if i == 0 {
      assert Holders(map[]) == {} && Shares(map[]) == map[];
    } else {
      RunInvariant(states, events, i - 1);
      StepKeeps(states[i - 1], events[i - 1]);
    }
  }

  /** The weights of the handlers at work, without one that holds a slot but no budget yet. */
  lemma HeldBound(s: System, id: nat)
    requires Invariant(s) && id in s.handlers && Slotted(s.handlers[id]) && !s.handlers[id].stage.Handling?
    ensures 0 <= s.held <= MAX_IN_FLIGHT - 2 * Frames.MAX_PAYLOAD
  {
    var others := Holders(s.handlers) - {id};
    SumBound(Shares(s.handlers), others, 2 * Frames.MAX_PAYLOAD);
  }

  /** In every interleaving the weights in flight stay within 64 MiB, and the slots within 32. */
  lemma WithinBudget(states: seq<System>, events: seq<Event>, i: nat)
    requires Run(states, events) && i < |states|
    ensures 0 <= states[i].slots <= 32 && 0 <= states[i].held <= 64 * 1024 * 1024
  {
    RunInvariant(states, events, i);
    SumBound(Shares(states[i].handlers), Holders(states[i].handlers), 2 * Frames.MAX_PAYLOAD);
  }

  /** Acquiring the payload budget never has to wait. */
  lemma AcquireNeverWaits(states: seq<System>, events: seq<Event>, i: nat, id: nat)
    requires Run(states, events) && i < |states|
    requires id in states[i].handlers && states[i].handlers[id].stage.Acquiring?
    ensures Ready(states[i], Acquire(id))
  {
    RunInvariant(states, events, i);
    HeldBound(states[i], id);
  }

  /** A handler never gives back more than is held: neither the receive from the channel nor Release can fail. */
  lemma ReleasesWhatIsHeld(states: seq<System>, events: seq<Event>, i: nat, id: nat)
    requires Run(states, events) && i < |states| && id in states[i].handlers && Slotted(states[i].handlers[id])
    ensures states[i].slots >= 1
    ensures states[i].handlers[id].stage.Handling? ==> 0 < WeightOf(states[i].handlers[id]) <= states[i].held
  {
    var s := states[i];
    RunInvariant(states, events, i);
    assert id in Holders(s.handlers);
    SumWith(Shares(s.handlers), id);
  }

  /** Every exit returns slot and weight: when all handlers are gone, nothing is held. */
  lemma AllGoneNothingHeld(states: seq<System>, events: seq<Event>, i: nat)
    requires Run(states, events) && i < |states|
    requires forall id :: id in states[i].handlers ==> states[i].handlers[id].stage.Gone?
    ensures states[i].slots == 0 && states[i].held == 0
  {
    RunInvariant(states, events, i);
    assert Holders(states[i].handlers) == {};
    SumBound(Shares(states[i].handlers), {}, 0);
  }

  /** What a handler with these lengths holds while it works: what comes in, and a block that may go out. */
  function Load(dataLength: int, rawDataLength: int): int {
    (if dataLength < rawDataLength then rawDataLength else dataLength) + 0x10_0000
  }

  predicate InBounds(dataLength: int, rawDataLength: int) {
    (0 <= dataLength || 0 <= rawDataLength) && dataLength <= 0x10_0000 && rawDataLength <= 0x10_0000
  }

  /**
   * In every reachable state a request within bounds that finds one of the 32 slots free is weighed, gets its weight at
   * once and is at work; and when it ends, slot and weight are back.
   */
  lemma RequestIsServed(states: seq<System>, events: seq<Event>, i: nat, id: nat)
    requires Run(states, events) && i < |states|
    requires id in states[i].handlers && states[i].handlers[id].stage.Entering?
    requires InBounds(states[i].handlers[id].dataLength, states[i].handlers[id].rawDataLength) && states[i].slots < 32
    ensures var s, h := states[i], states[i].handlers[id];
            && Ready(s, Enter(id)) && Ready(Next(s, Enter(id)), Weigh(id))
            && Ready(Next(Next(s, Enter(id)), Weigh(id)), Acquire(id))
            && var working := Next(Next(Next(s, Enter(id)), Weigh(id)), Acquire(id));
               && working.handlers == s.handlers[id := h.(stage := Handling)]
               && working.slots == s.slots + 1 && working.held == s.held + Load(h.dataLength, h.rawDataLength)
               && Ready(working, Finish(id)) && Ready(Next(working, Finish(id)), Leave(id))
               && Next(Next(working, Finish(id)), Leave(id)) == s.(handlers := s.handlers[id := h.(stage := Gone)])
  {
    var s, h := states[i], states[i].handlers[id];
    RunInvariant(states, events, i);
    var entered := Next(s, Enter(id));
    StepKeeps(s, Enter(id));
    HeldBound(entered, id);
  }

  /** A request that finds no slot is gone at once, and one out of bounds leaves without any weight. */
  lemma RequestIsRefused(states: seq<System>, events: seq<Event>, i: nat, id: nat)
    requires Run(states, events) && i < |states| && id in states[i].handlers
    ensures var s, h := states[i], states[i].handlers[id];
            && (h.stage.Entering? && s.slots >= 32 ==>
                  Next(s, Enter(id)) == s.(handlers := s.handlers[id := h.(stage := Gone)]))
            && (h.stage.Weighing? && !InBounds(h.dataLength, h.rawDataLength) ==>
                  Next(s, Weigh(id)) == s.(handlers := s.handlers[id := h.(stage := Leaving)]))
            && (h.stage.Acquiring? ==>
                  Next(s, Cancel(id)) == s.(handlers := s.handlers[id := h.(stage := Leaving)]))
  {
  }
}
