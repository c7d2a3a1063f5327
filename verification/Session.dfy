/**
 * Admission of provider clients: AcceptWhen (pkg/transport/server.go), serveSession (pkg/server/session.go) and the
 * accept loop (pkg/server/run.go), as every interleaving of any number of connections.
 */
module Session {
  import opened Files

  /** A handshake that could be read: whether ValidateHandshake accepts it, and the key it carries. */
  datatype Handshake = Handshake(valid: bool, key: string)

  /** Where a connection's handler is. Leaving runs the deferred calls. */
  datatype Pc =
    | Reading | Checking | Authorized | Judging | Acking | Opening
    | Mounting | Networking | Resolving | Serving | Releasing | Leaving | Returned

  /** A handler; `released` is the state of its sync.Once. */
  datatype Handler = Handler(pc: Pc, handshake: Option<Handshake>, admitted: bool, released: bool)

  /** What the world answers to one step: whether the call succeeds, and the handshake that arrives. */
  datatype Input = Input(ok: bool, handshake: Handshake)

  datatype System = System(active: bool, handlers: map<nat, Handler>)

  datatype Event = Connect(id: nat) | Act(id: nat, input: Input)

  const HANDSHAKE_SLOTS: nat := 32

  predicate Authentic(h: Handler, credential: string) {
    h.handshake.Some? && h.handshake.value.valid && h.handshake.value.key == credential
  }

  /** releaseSession: clears the flag the first time, does nothing afterwards or without an admission. */
  function Release(h: Handler, active: bool): (Handler, bool) {
    if h.admitted && !h.released then (h.(released := true), false) else (h, active)
  }

  function Go(h: Handler, ok: bool, next: Pc, otherwise: Pc): Handler {
    h.(pc := if ok then next else otherwise)
  }

  /** One step of a handler, in the order of the source; returns the new value of the flag. */
  function Move(h: Handler, active: bool, input: Input, credential: string): (Handler, bool) {
    match h.pc
    case Reading =>
      var handshake := if input.ok then Some(input.handshake) else None;
      (Go(h, input.ok, Checking, Leaving).(handshake := handshake), active)
    case Checking => (Go(h, Authentic(h, credential) && input.ok, Authorized, Leaving), active)
    case Authorized => if active then (h.(pc := Leaving), active) else (h.(pc := Judging, admitted := true), true)
    case Judging => (Go(h, input.ok, Acking, Leaving), active)
    case Acking => (Go(h, input.ok, Opening, Leaving), active)
    case Opening => (Go(h, input.ok, Mounting, Leaving), active)
    case Mounting => (Go(h, input.ok, Networking, Leaving), active)
    case Networking => (Go(h, input.ok, Resolving, Releasing), active)
    case Resolving => (Go(h, input.ok, Serving, Releasing), active)
    case Serving => (h.(pc := Releasing), active)
    case Releasing => var (r, a) := Release(h, active); (r.(pc := Leaving), a)
    case Leaving => var (r, a) := Release(h, active); (r.(pc := Returned), a)
    case Returned => (h, active)
  }

  /** Connections whose handler has not returned; each holds a handshake slot. */
  function Live(handlers: map<nat, Handler>): set<nat> {
    set id | id in handlers && handlers[id].pc != Returned
  }

  /** A connection that finds no free slot is closed at once. */
  function Next(s: System, e: Event, credential: string): System {
    match e
    case Connect(id) =>
      if id !in s.handlers && |Live(s.handlers)| < HANDSHAKE_SLOTS
      then s.(handlers := s.handlers[id := Handler(Reading, None, false, false)]) else s
    case Act(id, input) =>
      if id in s.handlers then
        var (h, active) := Move(s.handlers[id], s.active, input, credential);
        System(active, s.handlers[id := h])
      else s
  }

  function After(events: seq<Event>, credential: string): System {
    if events == [] then System(false, map[])
    else Next(After(events[..|events| - 1], credential), events[|events| - 1], credential)
  }

  /** A session that was admitted and has not given its admission back. */
  predicate Holds(s: System, id: nat) {
    id in s.handlers && s.handlers[id].admitted && !s.handlers[id].released
  }

  /** What the handler's place in the code says about its admission. */
  predicate InPlace(h: Handler, credential: string) {
    match h.pc
    case Reading => h.handshake.None? && !h.admitted && !h.released
    case Checking => !h.admitted && !h.released
    case Authorized => Authentic(h, credential) && !h.admitted && !h.released
    case Leaving => (h.admitted ==> Authentic(h, credential)) && (h.released ==> h.admitted)
    case Returned => (h.admitted ==> Authentic(h, credential)) && h.released == h.admitted
    case _ => Authentic(h, credential) && h.admitted && !h.released
  }

  ghost predicate Invariant(s: System, credential: string) {
    && (forall id :: id in s.handlers ==> InPlace(s.handlers[id], credential))
    && (forall i, j :: Holds(s, i) && Holds(s, j) ==> i == j)
    && (s.active <==> exists id :: Holds(s, id))
    && |Live(s.handlers)| <= HANDSHAKE_SLOTS
  }

  lemma MoveInPlace(h: Handler, active: bool, input: Input, credential: string)
    requires InPlace(h, credential)
    ensures InPlace(Move(h, active, input, credential).0, credential)
  {
  }

  /** What one step of a handler does to the flag, seen from its own admission. */
  lemma MoveFlag(h: Handler, active: bool, input: Input, credential: string)
    requires InPlace(h, credential)
    ensures var (h', active') := Move(h, active, input, credential);
            var held, holds := h.admitted && !h.released, h'.admitted && !h'.released;
            && (held && holds ==> active' == active)
            && (held && !holds ==> !active')
            && (!held && holds ==> !active && active')
            && (!held && !holds ==> active' == active)
            && (h.released ==> h'.released) && (h.admitted ==> h'.admitted)
  {
  }

  lemma LiveAct(handlers: map<nat, Handler>, id: nat, h: Handler)
    requires id in handlers && (handlers[id].pc.Returned? ==> h.pc.Returned?)
    ensures |Live(handlers[id := h])| <= |Live(handlers)|
  {
    var before, after := Live(handlers), Live(handlers[id := h]);
    assert before == after + (before - after);
  }

  lemma LiveConnect(handlers: map<nat, Handler>, id: nat, h: Handler)
    requires id !in handlers
    ensures |Live(handlers[id := h])| <= |Live(handlers)| + 1
  {
    assert Live(handlers[id := h]) <= Live(handlers) + {id};
    assert Live(handlers) + {id} == Live(handlers[id := h]) + (Live(handlers) + {id} - Live(handlers[id := h]));
  }

  lemma StepKeeps(s: System, e: Event, credential: string)
    requires Invariant(s, credential)
    ensures Invariant(Next(s, e, credential), credential)
  {
    hide Move, InPlace, Live, Authentic;
    var s' := Next(s, e, credential);
    if e.id in s.handlers && e.Act? {
      var h := s.handlers[e.id];
      MoveInPlace(h, s.active, e.input, credential);
      MoveFlag(h, s.active, e.input, credential);
      MoveReturns(h, s.active, e.input, credential);
      LiveAct(s.handlers, e.id, s'.handlers[e.id]);
      assert forall id :: id != e.id ==> (Holds(s', id) <==> Holds(s, id));
      assert Holds(s, e.id) ==> s.active;
      if s'.active && !Holds(s', e.id) {
        var id :| Holds(s, id);
        assert Holds(s', id);
      }
    } else if e.id !in s.handlers && e.Connect? {
      var h := Handler(Reading, None, false, false);
      LiveConnect(s.handlers, e.id, h);
      ReadingInPlace(credential);
      assert forall id :: Holds(s', id) <==> Holds(s, id);
    }
  }

  lemma MoveReturns(h: Handler, active: bool, input: Input, credential: string)
    ensures h.pc.Returned? ==> Move(h, active, input, credential).0.pc.Returned?
  {
  }

  lemma ReadingInPlace(credential: string)
    ensures InPlace(Handler(Reading, None, false, false), credential)
  {
  }

  /** In every run: the flag is set exactly while one admitted session is unreleased. */
  lemma {:induction false} RunInvariant(events: seq<Event>, credential: string)
    ensures Invariant(After(events, credential), credential)
  {
    if events != [] {
      RunInvariant(events[..|events| - 1], credential);
      StepKeeps(After(events[..|events| - 1], credential), events[|events| - 1], credential);
    }
  }

  /** From admission to the end of serving, a handler is alone. */
  lemma ServedAlone(events: seq<Event>, credential: string, i: nat, j: nat)
    requires i in After(events, credential).handlers && j in After(events, credential).handlers
    requires Between(After(events, credential).handlers[i].pc) && Between(After(events, credential).handlers[j].pc)
    ensures i == j && After(events, credential).active
  {
    RunInvariant(events, credential);
    var s := After(events, credential);
    assert Holds(s, i) && Holds(s, j);
  }

  /** The stages between admission and release. */
  predicate Between(pc: Pc) {
    pc.Judging? || pc.Acking? || pc.Opening? || pc.Mounting? || pc.Networking? || pc.Resolving? || pc.Serving?
  }

  /** Admission only after authentication: the handshake that arrived was valid and carried the very credential. */
  lemma AdmittedIsAuthentic(events: seq<Event>, credential: string, id: nat) returns (k: nat)
    requires id in After(events, credential).handlers && After(events, credential).handlers[id].admitted
    ensures After(events, credential).handlers[id].handshake == Some(Handshake(true, credential))
    ensures k < |events| && events[k] == Act(id, Input(true, Handshake(true, credential)))
  {
    RunInvariant(events, credential);
    k := Received(events, credential, id);
  }

  /** What a handler knows of a handshake is what arrived for it. */
  lemma {:induction false} Received(events: seq<Event>, credential: string, id: nat) returns (k: nat)
    requires id in After(events, credential).handlers && After(events, credential).handlers[id].handshake.Some?
    ensures k < |events|
    ensures events[k] == Act(id, Input(true, After(events, credential).handlers[id].handshake.value))
  {
    hide Next;
    var n := |events| - 1;
    var before := After(events[..n], credential);
    HandshakeStep(before, events[n], credential, id);
    if id in before.handlers && before.handlers[id].handshake == After(events, credential).handlers[id].handshake {
      k := Received(events[..n], credential, id);
    } else {
      k := n;
    }
  }

  lemma HandshakeStep(s: System, e: Event, credential: string, id: nat)
    requires id in Next(s, e, credential).handlers && Next(s, e, credential).handlers[id].handshake.Some?
    ensures var handshake := Next(s, e, credential).handlers[id].handshake;
            || (id in s.handlers && s.handlers[id].handshake == handshake)
            || e == Act(id, Input(true, handshake.value))
  {
  }

  /** Without the right handshake a handler gets no further than the check, and is never admitted. */
  lemma StrangersStayOut(events: seq<Event>, credential: string, id: nat)
    requires id in After(events, credential).handlers
    requires After(events, credential).handlers[id].handshake != Some(Handshake(true, credential))
    ensures var h := After(events, credential).handlers[id];
            !h.admitted && (h.pc.Reading? || h.pc.Checking? || h.pc.Leaving? || h.pc.Returned?)
  {
    RunInvariant(events, credential);
  }

  /** With the right one it passes the check, and is admitted exactly if nobody else is. */
  lemma GuestsComeIn(events: seq<Event>, credential: string, id: nat, input: Input)
    requires id in After(events, credential).handlers
    ensures var before, after := After(events, credential), After(events + [Act(id, input)], credential);
            var h, h' := before.handlers[id], after.handlers[id];
            && (h.pc.Reading? ==>
                  h' == (if input.ok then Handler(Checking, Some(input.handshake), false, false)
                         else Handler(Leaving, None, false, false)))
            && (h.pc.Checking? ==>
                  h'.pc == if h.handshake == Some(Handshake(true, credential)) && input.ok then Authorized else Leaving)
            && (h.pc.Authorized? && !before.active ==> h'.pc.Judging? && h'.admitted && after.active)
            && (h.pc.Authorized? && before.active ==> h'.pc.Leaving? && !h'.admitted && after.active)
            && (h.pc.Releasing? ==> h'.pc.Leaving? && h'.released && !after.active)
            && (h.pc.Leaving? ==> h'.pc.Returned?)
  {
    assert (events + [Act(id, input)])[..|events|] == events;
    RunInvariant(events, credential);
    if After(events, credential).handlers[id].pc.Releasing? {
      assert Holds(After(events, credential), id);
    }
  }

  /** The stages of an admitted session; once the mount is there, a failure gives the admission back before leaving. */
  lemma StagesInOrder(h: Handler, active: bool, input: Input, credential: string)
    ensures var h' := Move(h, active, input, credential).0;
            && (input.ok ==>
                  && (h.pc.Judging? ==> h'.pc.Acking?) && (h.pc.Acking? ==> h'.pc.Opening?)
                  && (h.pc.Opening? ==> h'.pc.Mounting?) && (h.pc.Mounting? ==> h'.pc.Networking?)
                  && (h.pc.Networking? ==> h'.pc.Resolving?) && (h.pc.Resolving? ==> h'.pc.Serving?))
            && (!input.ok ==>
                  && (h.pc.Judging? || h.pc.Acking? || h.pc.Opening? || h.pc.Mounting? ==> h'.pc.Leaving?)
                  && (h.pc.Networking? || h.pc.Resolving? ==> h'.pc.Releasing?))
            && (h.pc.Serving? ==> h'.pc.Releasing?)
  {
  }

  /** A connection gets a handler exactly if fewer than 32 are live. */
  lemma SlotForEach(events: seq<Event>, credential: string, id: nat)
    requires id !in After(events, credential).handlers
    ensures var before, after := After(events, credential), After(events + [Connect(id)], credential);
            var live := set i | i in before.handlers && !before.handlers[i].pc.Returned?;
            && after.active == before.active
            && after.handlers ==
               if |live| < 32 then before.handlers[id := Handler(Reading, None, false, false)] else before.handlers
  {
    assert (events + [Connect(id)])[..|events|] == events;
    var before := After(events, credential);
    assert Live(before.handlers) == set i | i in before.handlers && !before.handlers[i].pc.Returned?;
  }

  /** Once every handler has returned, by whatever path, nobody holds the session. */
  lemma AllReturnedIsFree(events: seq<Event>, credential: string)
    requires Live(After(events, credential).handlers) == {}
    ensures !After(events, credential).active
  {
    RunInvariant(events, credential);
    var s := After(events, credential);
    assert forall id :: Holds(s, id) ==> id in Live(s.handlers);
  }

  /** Whatever another session does, releases repeated or not, a session that holds the admission keeps it. */
  lemma OthersCannotRelease(events: seq<Event>, credential: string, e: Event, holder: nat)
    requires Holds(After(events, credential), holder) && e.id != holder
    ensures Holds(After(events + [e], credential), holder) && After(events + [e], credential).active
  {
    assert (events + [e])[..|events|] == events;
    RunInvariant(events + [e], credential);
    assert Holds(After(events + [e], credential), holder);
  }

  /** Between the admissions of two sessions lies the release of the first. */
  lemma {:induction false} HeldUntilReleased(events: seq<Event>, more: seq<Event>, credential: string, i: nat)
    requires Holds(After(events, credential), i)
    ensures i in After(events + more, credential).handlers
    ensures After(events + more, credential).handlers[i].released || Holds(After(events + more, credential), i)
  {
    if more == [] {
      assert events + more == events;
    } else {
      var front, last := more[..|more| - 1], more[|more| - 1];
      HeldUntilReleased(events, front, credential, i);
      assert (events + more)[..|events + more| - 1] == events + front;
      RunInvariant(events + front, credential);
      var s := After(events + front, credential);
      if last.Act? {
        MoveFlag(s.handlers[i], s.active, last.input, credential);
      }
    }
  }

  lemma SecondAdmissionAfterRelease(events: seq<Event>, more: seq<Event>, credential: string, i: nat, j: nat)
    requires Holds(After(events, credential), i) && Holds(After(events + more, credential), j) && i != j
    ensures i in After(events + more, credential).handlers && After(events + more, credential).handlers[i].released
  {
    HeldUntilReleased(events, more, credential, i);
    RunInvariant(events + more, credential);
  }

  /** sessionState with its mutex: the two locked sections. */
  class SessionState {
    var active: bool

    constructor ()
      ensures !active
    {
      active := false;
    }

    /** The admit callback. */
    method Admit() returns (ok: bool)
      modifies this
      ensures ok == !old(active) && active
    {
      if active {
        return false;
      }
      active := true;
      return true;
    }
  }

  /** What serveSession keeps of an admission; `done` is the sync.Once. */
  class Admission {
    const state: SessionState
    const admitted: bool
    var done: bool

    constructor (state: SessionState, admitted: bool)
      ensures this.state == state && this.admitted == admitted && !done
    {
      this.state, this.admitted, this.done := state, admitted, false;
    }

    /** releaseSession agrees with the step of the model. */
    method ReleaseSession(ghost h: Handler)
      requires h.admitted == admitted && h.released == (admitted && done)
      modifies this, state
      ensures var (h', active') := Release(h, old(state.active));
              state.active == active' && h'.released == (admitted && done)
      ensures done == (old(done) || admitted)
      ensures state.active == (old(state.active) && !(admitted && !old(done)))
    {
      if admitted {
        if !done {
          done := true;
          state.active := false;
        }
      }
    }
  }
}
