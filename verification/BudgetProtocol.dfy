/**
 * The write budget that all nodes share, in every interleaving of bufferWrite and flushWritesLocked on different nodes.
 */
module BudgetProtocol {
  import opened Sums
  import R = RemoteNode

  /**
   * What a thread that has the node's writeMu may be in the middle of: a unit taken for a block that is not in the map
   * yet, or a block deleted whose unit is not returned yet.
   */
  datatype Transit = Nothing | Taken | Deleted

  datatype Node = Node(pending: nat, transit: Transit)

  datatype System = System(held: int, nodes: map<nat, Node>)

  /** TryAcquire either takes a unit or is refused; a node with eight blocks is flushed first. */
  datatype Event = Create(id: nat) | TryAcquire(id: nat) | Insert(id: nat) | Delete(id: nat) | Release(id: nat)

  predicate Ready(s: System, e: Event) {
    match e
    case Create(id) => id !in s.nodes
    case TryAcquire(id) => id in s.nodes && s.nodes[id].transit.Nothing? && s.nodes[id].pending < R.MAX_PENDING_BLOCKS
    case Insert(id) => id in s.nodes && s.nodes[id].transit.Taken?
    case Delete(id) => id in s.nodes && s.nodes[id].transit.Nothing? && s.nodes[id].pending > 0
    case Release(id) => id in s.nodes && s.nodes[id].transit.Deleted?
  }

  function Next(s: System, e: Event): System
    requires Ready(s, e)
  {
    match e
    case Create(id) => s.(nodes := s.nodes[id := Node(0, Nothing)])
    case TryAcquire(id) =>
      if s.held < R.MAX_TOTAL_BLOCKS then System(s.held + 1, s.nodes[id := s.nodes[id].(transit := Taken)]) else s
    case Insert(id) => s.(nodes := s.nodes[id := Node(s.nodes[id].pending + 1, Nothing)])
    case Delete(id) => s.(nodes := s.nodes[id := Node(s.nodes[id].pending - 1, Deleted)])
    case Release(id) => System(s.held - 1, s.nodes[id := s.nodes[id].(transit := Nothing)])
  }

  ghost predicate Run(states: seq<System>, events: seq<Event>) {
    && |states| == |events| + 1 && states[0] == System(0, map[])
    && forall i :: 0 <= i < |events| ==> Ready(states[i], events[i]) && states[i + 1] == Next(states[i], events[i])
  }

  function Units(n: Node): nat {
    n.pending + if n.transit.Nothing? then 0 else 1
  }

  function Held(nodes: map<nat, Node>): map<nat, nat> {
    map id | id in nodes :: Units(nodes[id])
  }

  ghost predicate Invariant(s: System) {
    && s.held == Sum(Held(s.nodes)) <= R.MAX_TOTAL_BLOCKS
    && forall id :: id in s.nodes ==> Units(s.nodes[id]) <= R.MAX_PENDING_BLOCKS
  }

  lemma StepKeeps(s: System, e: Event)
    requires Invariant(s) && Ready(s, e)
    ensures Invariant(Next(s, e))
  {
    hide Held, Sum;
    var n := Next(s, e).nodes[e.id];
    HeldUpdate(s.nodes, e.id, n);
    if Next(s, e) != s {
      assert Next(s, e).nodes == s.nodes[e.id := n];
    }
  }

  lemma HeldUpdate(nodes: map<nat, Node>, id: nat, n: Node)
    ensures Sum(Held(nodes[id := n])) == Sum(Held(nodes)) + Units(n) - if id in nodes then Units(nodes[id]) else 0
  {
    SumUpdate(Held(nodes), id, Units(n));
    assert Held(nodes[id := n]) == Held(nodes)[id := Units(n)];
  }

  lemma {:induction false} RunInvariant(states: seq<System>, events: seq<Event>, i: nat)
    requires Run(states, events) && i < |states|
    ensures Invariant(states[i])
  {
    if i == 0 {
      assert Held(map[]) == map[];
    } else {
      RunInvariant(states, events, i - 1);
      StepKeeps(states[i - 1], events[i - 1]);
    }
  }

  /** No release returns more than was acquired, on whatever path it is reached. */
  lemma ReleaseCovered(states: seq<System>, events: seq<Event>, i: nat, id: nat)
    requires Run(states, events) && i < |states| && Ready(states[i], Release(id))
    ensures states[i].held >= 1
  {
    RunInvariant(states, events, i);
    SumWith(Held(states[i].nodes), id);
  }

  /** While no node is in the middle of an operation, the units held are exactly the pending blocks. */
  lemma HeldIsPending(states: seq<System>, events: seq<Event>, i: nat)
    requires Run(states, events) && i < |states|
    requires forall id :: id in states[i].nodes ==> states[i].nodes[id].transit.Nothing?
    ensures states[i].held == Sum(map id | id in states[i].nodes :: states[i].nodes[id].pending) <= R.MAX_TOTAL_BLOCKS
    ensures forall id :: id in states[i].nodes ==> states[i].nodes[id].pending <= R.MAX_PENDING_BLOCKS
  {
    RunInvariant(states, events, i);
    assert Held(states[i].nodes) == map id | id in states[i].nodes :: states[i].nodes[id].pending;
  }

  /** A unit is taken exactly if fewer than 128 are held; with its block it goes into the map, and with it it leaves. */
  lemma UnitForBlock(states: seq<System>, events: seq<Event>, i: nat, id: nat)
    requires Run(states, events) && i < |states| && id in states[i].nodes && states[i].nodes[id].transit.Nothing?
    requires states[i].nodes[id].pending < 8
    ensures var s, n := states[i], states[i].nodes[id];
            && Ready(s, TryAcquire(id))
            && (s.held >= 128 ==> Next(s, TryAcquire(id)) == s)
            && (s.held < 128 ==>
                  var taken := Next(s, TryAcquire(id));
                  && taken.held == s.held + 1 && Ready(taken, Insert(id))
                  && var full := Next(taken, Insert(id));
                     && full == System(s.held + 1, s.nodes[id := Node(n.pending + 1, Nothing)])
                     && Ready(full, Delete(id)) && Ready(Next(full, Delete(id)), Release(id))
                     && Next(full, Delete(id)).held == full.held
                     && Next(Next(full, Delete(id)), Release(id)) == s)
  {
    assert states[i].nodes[id := states[i].nodes[id]] == states[i].nodes;
  }
}
