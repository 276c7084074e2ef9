/**
 * All replicas of a cluster together. They exchange nothing but what they sent themselves, so
 * that the contents of messages need no further assumption.
 */
module DamysusCluster {
  import opened DamysusTypes
  import opened DamysusSystem
  import opened DamysusSafety
  import opened DamysusDelivery
  import opened DamysusRuns
  import opened DamysusLocal
  import opened DamysusReplicaSteps
  import opened DamysusReplica
  import opened ReplicaSets

  ghost function Footprint(r: Replica): set<object> {
    {r} + r.Parts()
  }

  ghost function Objects(rs: seq<Replica>): set<object> {
    set i, o | 0 <= i < |rs| && o in Footprint(rs[i]) :: o
  }

  ghost function OtherReplicas(rs: seq<Replica>, j: nat): set<object> {
    set i | 0 <= i < |rs| && i != j :: rs[i]
  }

  ghost predicate Apart(rs: seq<Replica>) {
    forall i, j :: 0 <= i < j < |rs| ==> Footprint(rs[i]) !! Footprint(rs[j])
  }

  /** A replica in its place in the cluster, with no own vote left to count. A lone replica has its own key and is in view 0. */
  ghost predicate InPlace(rs: seq<Replica>, i: nat, s: System)
    requires i < |rs|
    reads Footprint(rs[i])
  {
    && rs[i].me == i && rs[i].n == |rs| && rs[i].sys == s && rs[i].Ready() && OwnVotesUsed(rs[i].Here(), {})
    && (|rs| == 1 ==> rs[i].view == 0 && i in rs[i].enclave.peers)
  }

  /** All replicas are between two handler calls and see the same state of the system. */
  ghost predicate Running(rs: seq<Replica>, s: System)
    reads Objects(rs)
  {
    Apart(rs) && forall i :: 0 <= i < |rs| ==> InPlace(rs, i, s)
  }

  /** The parts of two replicas are different objects. */
  lemma Separate(rs: seq<Replica>, i: nat, k: nat)
    requires Apart(rs) && i < |rs| && k < |rs| && i != k
    ensures Footprint(rs[i]) !! Footprint(rs[k]) && rs[k] !in Footprint(rs[i])
  {
  }

  /** Replica `j` has moved on by itself, and another one takes note. */
  ghost method TakeNote(rs: seq<Replica>, k: nat, j: nat, s: System, t: System)
    requires k < |rs| && k != j && InPlace(rs, k, s) && Evolves(s, t, j)
    modifies rs[k]
    ensures InPlace(rs, k, t) && rs[k].Here() == old(rs[k].Here()) && rs[k].delivery == old(rs[k].delivery)
  {
    hide Evolves, OwnVotesUsed;
    rs[k].Observe(t, j);
  }

  /** Nothing else changes for that. */
  ghost method NoteOne(rs: seq<Replica>, k: nat, j: nat, s: System, t: System)
    requires Apart(rs) && k < |rs| && k != j && InPlace(rs, k, s) && Evolves(s, t, j)
    modifies rs[k]
    ensures InPlace(rs, k, t) && forall i :: 0 <= i < |rs| ==> rs[i].Here() == old(rs[i].Here())
    ensures forall i :: 0 <= i < |rs| ==> rs[i].delivery == old(rs[i].delivery)
    ensures forall i, u :: 0 <= i < |rs| && i != k ==> InPlace(rs, i, u) == old(InPlace(rs, i, u))
    ensures forall i :: 0 <= i < |rs| && i != k ==> rs[i].sys == old(rs[i].sys)
  {
    hide Evolves, InPlace;
    assert rs[k] in Footprint(rs[k]);
    TakeNote(rs, k, j, s, t);
    forall i | 0 <= i < |rs| && i != k
      ensures rs[i].Here() == old(rs[i].Here()) && rs[i].sys == old(rs[i].sys) && rs[i].delivery == old(rs[i].delivery)
      ensures forall u :: InPlace(rs, i, u) == old(InPlace(rs, i, u))
    {
      Separate(rs, i, k);
      assert rs[i] in Footprint(rs[i]) && rs[k] !in rs[i].Parts();
      hide *;
    }
  }

  ghost method Share(rs: seq<Replica>, j: nat, s: System)
    requires Apart(rs) && j < |rs| && Evolves(s, rs[j].sys, j) && InPlace(rs, j, rs[j].sys)
    requires forall i :: 0 <= i < |rs| && i != j ==> InPlace(rs, i, s)
    modifies OtherReplicas(rs, j)
    ensures Running(rs, rs[j].sys) && rs[j].sys == old(rs[j].sys)
    ensures forall i :: 0 <= i < |rs| ==> rs[i].Here() == old(rs[i].Here())
    ensures forall i :: 0 <= i < |rs| ==> rs[i].delivery == old(rs[i].delivery)
  {
    hide Evolves, InPlace, Footprint, Apart;
    var t := rs[j].sys;
    for k := 0 to |rs|
      invariant rs[j].sys == t && InPlace(rs, j, t)
      invariant forall i :: 0 <= i < k ==> InPlace(rs, i, t)
      invariant forall i :: k <= i < |rs| && i != j ==> InPlace(rs, i, s)
      invariant forall i :: 0 <= i < |rs| ==> rs[i].Here() == old(rs[i].Here())
      invariant forall i :: 0 <= i < |rs| ==> rs[i].delivery == old(rs[i].delivery)
    {
      if k != j {
        NoteOne(rs, k, j, s, t);
      }
    }
  }

  // ---------------------------------------------------------------------------------------------
  // What can happen to a cluster

  datatype Event =
    | Deliver(from: ReplicaId, to: ReplicaId, index: nat)
    | ViewTimeout(at: ReplicaId)
    | BlockTimeout(at: ReplicaId)
    | ClientRequest(at: ReplicaId)

  /** The message at an index of a replica's outbox, unless it is for somebody else. */
  predicate Receives(rs: seq<Replica>, e: Event)
    requires e.Deliver?
    reads rs
  {
    && e.from < |rs| && e.to < |rs| && e.index < |rs[e.from].outbox|
    && (rs[e.from].outbox[e.index].destination.Broadcast? ||
        rs[e.from].outbox[e.index].destination == Destination.Unicast(e.to))
  }

  lemma SentIsDeliverable(l: Local, s: System, k: nat)
    requires Synced(l, s) && k < |l.outbox|
    ensures Deliverable(s, l.me, l.outbox[k].message)
  {
    hide Reachable;
    assert l.outbox[k] in l.outbox;
  }

  /** A message is taken in, a view is given up by those who do not lead it, and a block is proposed once there is a quorum. */
  ghost predicate TakesEffect(e: Event, sent: seq<Envelope>, l: Local, l': Local) {
    match e
    case Deliver(from, _, index) => index < |sent| ==> Received(from, sent[index].message, l, l')
    case ViewTimeout(_) => l.n > 1 && l.view > 0 && Leader(l.view, l.n) != l.me ==> l'.view > l.view
    case BlockTimeout(_) => l.mayPropose ==> l'.view > l.view
    case ClientRequest(_) => true
  }

  /** What the sender of a message that is delivered has sent. */
  function SentBy(rs: seq<Replica>, e: Event): seq<Envelope>
    reads rs
  {
    if e.Deliver? && e.from < |rs| then rs[e.from].outbox else []
  }

  /** One replica handles an event, together with all it sends itself because of it. */
  method Handle(rs: seq<Replica>, j: nat, e: Event, ghost s: System)
    requires Apart(rs) && j < |rs| && InPlace(rs, j, s)
    requires match e case Deliver(from, to, index) => to == j && Receives(rs, e) && InPlace(rs, from, s)
                     case ViewTimeout(at) => at == j case BlockTimeout(at) => at == j case ClientRequest(at) => at == j
    modifies Footprint(rs[j])
    ensures InPlace(rs, j, rs[j].sys) && Evolves(s, rs[j].sys, j)
    ensures old(rs[j].delivery) <= rs[j].delivery
    ensures NothingLost(old(rs[j].Here()), rs[j].Here())
    ensures TakesEffect(e, old(SentBy(rs, e)), old(rs[j].Here()), rs[j].Here())
  {
    hide Synced, Evolves, Apart, NothingLost, OwnVotesUsed, Received, Handled, Timed, Leader;
    EvolvesNot(s, j);
    NothingLostYet(rs[j].Here());
    match e
    case Deliver(from, to, index) =>
      SentIsDeliverable(rs[from].Here(), s, index);
      rs[j].HandlePeerMessage(from, rs[from].outbox[index].message);
    case ViewTimeout(_) =>
      if |rs| > 1 && rs[j].view > 0 {
        rs[j].OnViewTimeout();
      }
    case BlockTimeout(_) =>
      rs[j].OnBlockTimeout();
    case ClientRequest(_) =>
      rs[j].OnClientRequest();
  }

  /** Handling an event at one replica leaves all others where they are. */
  method HandleAlone(rs: seq<Replica>, j: nat, e: Event, ghost s: System)
    requires Running(rs, s) && j < |rs|
    requires match e case Deliver(from, to, index) => to == j && Receives(rs, e)
                     case ViewTimeout(at) => at == j case BlockTimeout(at) => at == j case ClientRequest(at) => at == j
    modifies Footprint(rs[j])
    ensures InPlace(rs, j, rs[j].sys) && Evolves(s, rs[j].sys, j)
    ensures old(rs[j].delivery) <= rs[j].delivery
    ensures NothingLost(old(rs[j].Here()), rs[j].Here())
    ensures TakesEffect(e, old(SentBy(rs, e)), old(rs[j].Here()), rs[j].Here())
    ensures forall i :: 0 <= i < |rs| && i != j ==>
              InPlace(rs, i, s) && rs[i].delivery == old(rs[i].delivery) && rs[i].Here() == old(rs[i].Here())
  {
    hide Evolves, InPlace, NothingLost, TakesEffect;
    Handle(rs, j, e, s);
    forall i | 0 <= i < |rs| && i != j
      ensures rs[i].delivery == old(rs[i].delivery) && rs[i].Here() == old(rs[i].Here())
      ensures InPlace(rs, i, s) == old(InPlace(rs, i, s))
    {
      Separate(rs, i, j);
      assert rs[i] in Footprint(rs[i]);
      assert forall o :: o in rs[i].Parts() ==> o in Footprint(rs[i]);
      hide *;
    }
  }

  /** The replica an event happens at. */
  function At(e: Event): ReplicaId {
    if e.Deliver? then e.to else e.at
  }

  predicate Possible(rs: seq<Replica>, e: Event)
    reads rs
  {
    At(e) < |rs| && (e.Deliver? ==> Receives(rs, e))
  }

  /** An event at a replica of the cluster, or none when there is no such replica or message. */
  method Happen(rs: seq<Replica>, e: Event, ghost s: System) returns (ghost t: System)
    requires Running(rs, s)
    modifies Objects(rs)
    ensures Running(rs, t)
    ensures forall i :: 0 <= i < |rs| ==> old(rs[i].delivery) <= rs[i].delivery && NothingLost(old(rs[i].Here()), rs[i].Here())
    ensures old(Possible(rs, e)) ==> TakesEffect(e, old(SentBy(rs, e)), old(rs[At(e)].Here()), rs[At(e)].Here())
  {
    hide Evolves, InPlace, Footprint, Apart, Objects, OtherReplicas, NothingLost, TakesEffect, Receives, SentBy;
    forall i | 0 <= i < |rs| ensures NothingLost(rs[i].Here(), rs[i].Here()) {
      NothingLostYet(rs[i].Here());
    }
    var j := At(e);
    if Possible(rs, e) {
      InObjects(rs, j);
      HandleAlone(rs, j, e, s);
      t := rs[j].sys;
      Share(rs, j, s);
    } else {
      t := s;
    }
  }

  lemma InObjects(rs: seq<Replica>, j: nat)
    requires j < |rs|
    ensures Footprint(rs[j]) <= Objects(rs) && OtherReplicas(rs, j) <= Objects(rs)
  {
    forall i | 0 <= i < |rs| ensures rs[i] in Objects(rs) {
      assert rs[i] in Footprint(rs[i]);
    }
  }

  // ---------------------------------------------------------------------------------------------
  // Whole runs of a cluster

  /** A new replica next to those that exist already. */
  lemma ApartFurther(rs: seq<Replica>, r: Replica)
    requires Apart(rs) && Footprint(r) !! Objects(rs)
    ensures Apart(rs + [r]) && Objects(rs + [r]) == Objects(rs) + Footprint(r)
  {
    var all := rs + [r];
    forall i, j | 0 <= i < j < |all| ensures Footprint(all[i]) !! Footprint(all[j]) {
      assert i < |rs| && Footprint(all[i]) <= Objects(rs);
    }
    forall o ensures o in Objects(all) <==> o in Objects(rs) || o in Footprint(r) {
      assert all[|rs|] == r;
      if o in Objects(rs) {
        var i :| 0 <= i < |rs| && o in Footprint(rs[i]);
        assert all[i] == rs[i];
      }
    }
  }

  ghost predicate New(r: Replica, i: nat, n: nat)
    reads Footprint(r)
  {
    r.me == i && r.n == n && r.sys == Initial(n) && r.Ready() && r.Here() == StartLocal(n, i)
  }

  method NewReplica(i: nat, n: nat) returns (r: Replica)
    requires i < n
    ensures New(r, i, n) && fresh(Footprint(r))
  {
    r := new Replica(i, n);
  }

  lemma AllAllocated(rs: seq<Replica>)
    ensures forall o :: o in Objects(rs) ==> allocated(o)
    ensures forall i, o :: 0 <= i < |rs| && o in Footprint(rs[i]) ==> allocated(o)
  {
  }

  method AddReplica(rs: seq<Replica>, n: nat) returns (all: seq<Replica>)
    requires |rs| < n && Apart(rs) && forall i :: 0 <= i < |rs| ==> New(rs[i], i, n)
    ensures |all| == |rs| + 1 && Apart(all) && fresh(Objects(all) - Objects(rs))
    ensures forall i :: 0 <= i < |all| ==> New(all[i], i, n)
  {
    hide New, Objects, Footprint, Apart;
    AllAllocated(rs);
    var r := NewReplica(|rs|, n);
    ApartFurther(rs, r);
    all := rs + [r];
    forall i | 0 <= i < |rs| ensures New(all[i], i, n) {
      assert all[i] == rs[i];
    }
  }

  method Create(n: nat) returns (rs: seq<Replica>)
    ensures |rs| == n && Apart(rs) && fresh(Objects(rs)) && forall i :: 0 <= i < n ==> New(rs[i], i, n)
  {
    hide New, Apart, Objects, Footprint;
    rs := [];
    NoObjects();
    for k := 0 to n
      invariant |rs| == k && Apart(rs) && fresh(Objects(rs))
      invariant forall i :: 0 <= i < k ==> New(rs[i], i, n)
    {
      rs := AddReplica(rs, n);
    }
  }

  lemma NoObjects()
    ensures Apart([]) && Objects([]) == {}
  {
  }

  // ---------------------------------------------------------------------------------------------
  // Single handler calls and exactly what they do

  datatype Command = Greet | Take(from: ReplicaId, message: Message) | BlockTimer

  /** The message a command hands over was sent to the replica. */
  ghost predicate Due(rs: seq<Replica>, j: nat, cmd: Command)
    requires j < |rs|
    reads rs, rs[j].enclave
  {
    match cmd
    case Greet => j !in rs[j].enclave.peers
    case Take(from, m) =>
      && from < |rs|
      && (Envelope(Destination.Broadcast, from, m) in rs[from].outbox || Envelope(Destination.Unicast(j), from, m) in rs[from].outbox)
    case BlockTimer => true
  }

  /** What a command makes of a replica without buffered messages and of the system. */
  ghost predicate Performed(cmd: Command, l: Local, s: System, l': Local, t: System) {
    match cmd
    case Greet =>
      && JoinedAs(l, s, l'.(outbox := l.outbox), t, l.me)
      && l'.outbox == l.outbox + [Envelope(Destination.Broadcast, l.me, Handshake(l.me))]
    case Take(from, m) => Handled(from, m, l, s, l', t)
    case BlockTimer => Timed(l, s, l', t)
  }

  lemma WasSent(l: Local, s: System, to: Destination, m: Message)
    requires Synced(l, s) && Envelope(to, l.me, m) in l.outbox
    ensures Deliverable(s, l.me, m)
  {
    hide Reachable;
  }

  method PerformAt(rs: seq<Replica>, j: nat, cmd: Command, ghost s: System)
    requires |rs| > 1 && j < |rs| && InPlace(rs, j, s) && Due(rs, j, cmd)
    requires cmd.Take? && cmd.from < |rs| ==> InPlace(rs, cmd.from, s)
    modifies Footprint(rs[j])
    ensures InPlace(rs, j, rs[j].sys) && Evolves(s, rs[j].sys, j)
    ensures Performed(cmd, old(rs[j].Here()), s, rs[j].Here(), rs[j].sys)
  {
    hide Synced, Evolves, JoinedAs, Handled, Timed, NothingLost, OwnVotesUsed, Received, SentToSelf, Deliverable;
    match cmd
    case Greet =>
      ghost var l := rs[j].Here();
      rs[j].InitHandshake();
      OwnVotesStay(l, rs[j].Here(), {});
      assert {} + Elements([]) == {};
    case Take(from, m) =>
      var to := if Envelope(Destination.Broadcast, from, m) in rs[from].outbox then Destination.Broadcast else Destination.Unicast(j);
      WasSent(rs[from].Here(), s, to, m);
      rs[j].HandlePeerMessage(from, m);
    case BlockTimer =>
      rs[j].OnBlockTimeout();
  }

  method PerformAlone(rs: seq<Replica>, j: nat, cmd: Command, ghost s: System)
    requires |rs| > 1 && Running(rs, s) && j < |rs| && Due(rs, j, cmd)
    modifies Footprint(rs[j])
    ensures InPlace(rs, j, rs[j].sys) && Evolves(s, rs[j].sys, j)
    ensures Performed(cmd, old(rs[j].Here()), s, rs[j].Here(), rs[j].sys)
    ensures forall i :: 0 <= i < |rs| && i != j ==> InPlace(rs, i, s) && rs[i].Here() == old(rs[i].Here())
  {
    hide Evolves, InPlace, Due, Performed;
    PerformAt(rs, j, cmd, s);
    forall i | 0 <= i < |rs| && i != j
      ensures rs[i].Here() == old(rs[i].Here()) && InPlace(rs, i, s) == old(InPlace(rs, i, s))
    {
      Separate(rs, i, j);
      assert rs[i] in Footprint(rs[i]);
      assert forall o :: o in rs[i].Parts() ==> o in Footprint(rs[i]);
      hide *;
    }
  }

  /** One handler call at one replica, of which all others take note. */
  method Perform(rs: seq<Replica>, j: nat, cmd: Command, ghost s: System) returns (ghost t: System)
    requires |rs| > 1 && Running(rs, s) && j < |rs| && Due(rs, j, cmd)
    modifies Objects(rs)
    ensures Running(rs, t) && Performed(cmd, old(rs[j].Here()), s, rs[j].Here(), t)
    ensures forall i :: 0 <= i < |rs| && i != j ==> rs[i].Here() == old(rs[i].Here())
  {
    hide Evolves, InPlace, Footprint, Apart, Objects, OtherReplicas, Due, Performed;
    InObjects(rs, j);
    PerformAlone(rs, j, cmd, s);
    t := rs[j].sys;
    Share(rs, j, s);
  }
}
