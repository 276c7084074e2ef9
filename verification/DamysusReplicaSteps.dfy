/**
 * The state of a replica as a value, how it relates to the step system, and how each change a
 * handler makes keeps that relation.
 */
module DamysusReplicaSteps {
  import opened Wrappers
  import opened ReplicaSets
  import opened DamysusTypes
  import opened DamysusSystem
  import opened DamysusInvariant
  import opened DamysusChain
  import opened DamysusSafety
  import opened DamysusRuns
  import opened DamysusBlockstore
  import opened DamysusDelivery
  import opened DamysusLocal
  import opened DamysusExecution
  import Enclave = DamysusEnclave

  datatype Local =
    Local(
      n: nat,
      me: ReplicaId,
      enclave: Enclave.Enclave,
      view: View,
      peersAdded: nat,
      store: Store,
      waitingBlocks: seq<Block>,
      waitingCommitments: seq<SignedCommitment>,
      commitments: seq<SignedCommitment>,
      senders: set<ReplicaId>,
      mayPropose: bool,
      requested: map<View, BlockHash>,
      delivered: Delivery,
      outbox: seq<Envelope>,
      open: map<View, set<ReplicaId>>)

  /** The replica has a key of every peer once its enclave has left view 0. */
  ghost predicate PeersOk(e: Enclave.Enclave, peersAdded: nat, n: nat) {
    && peersAdded == |e.peers|
    && e.peers <= Replicas(n)
    && (e.view > 0 ==> e.peers == Replicas(n))
  }

  ghost predicate SystemOk(s: System, n: nat, me: ReplicaId, e: Enclave.Enclave) {
    && Reachable(s)
    && me < n == s.n == |s.enclaves| == |s.executed|
    && s.enclaves[me] == e
  }

  /** The replica's state agrees with the system at the view its enclave has reached. */
  ghost predicate InStep(l: Local, s: System) {
    && SystemOk(s, l.n, l.me, l.enclave)
    && PeersOk(l.enclave, l.peersAdded, l.n)
    && StoreOk(s.ledger, l.store, l.enclave.view)
    && Requested(s.ledger, l.requested, l.store, l.enclave.view)
    && BlocksWaiting(s.ledger, l.waitingBlocks, l.enclave.view)
    && CommitmentsWaiting(s.usigs, l.waitingCommitments, l.n, l.me)
    && Executions(s.executed[l.me], l.store, l.delivered)
    && OutboxOk(s, l.outbox, l.me)
  }

  /** It is settled in its view: no waiting block belongs to it, and what was collected does. */
  ghost predicate Synced(l: Local, s: System) {
    && InStep(l, s)
    && l.view == l.enclave.view
    && BlocksWaiting(s.ledger, l.waitingBlocks, l.view + 1)
    && Collected(s.usigs, l.commitments, l.senders, l.view, l.n, l.me)
    && (l.mayPropose ==> l.view > 0 && Leader(l.view, l.n) == l.me && |l.commitments| >= QuorumSize(l.n))
  }

  /** Between two changes of view: the enclave is one view ahead and nothing is pending. */
  ghost predicate Moving(l: Local, s: System) {
    InStep(l, s) && l.enclave.view == l.view + 1 && !l.mayPropose
  }

  lemma SettledView(l: Local, s: System)
    requires Synced(l, s)
    ensures InStep(l, s) && l.view == l.enclave.view && l.me < s.n == l.n && Reachable(s)
    ensures |s.enclaves| == s.n && s.enclaves[l.me] == l.enclave
  {
  }

  /** What was issued stays issued. */
  lemma StaysIssued(s: System, t: System, i: ReplicaId, b: Block, c: SignedCommitment)
    requires Reachable(s) && Evolves(s, t, i)
    ensures b in s.ledger ==> b in t.ledger
    ensures c in s.usigs ==> c in t.usigs
  {
    EvolutionIsMonotone(s, t, i);
  }

  lemma MovingInStep(l: Local, s: System)
    requires Moving(l, s)
    ensures InStep(l, s) && l.enclave.view == l.view + 1 && l.me < s.n == l.n && Reachable(s)
  {
  }

  function StartLocal(n: nat, me: ReplicaId): Local {
    Local(n, me, Enclave.InitialEnclave(me, QuorumSize(n)), 0, 0, [Some(Entry(GENESIS, false))], [], [], [], {},
          false, map[], NOTHING, [], map[])
  }

  lemma InitialLocal(n: nat, me: ReplicaId)
    requires me < n
    ensures Synced(StartLocal(n, me), Initial(n))
  {
    var l := StartLocal(n, me);
    InitialReachable(n);
    hide Reachable;
    var s := Initial(n);
    assert PeersOk(l.enclave, 0, n) && SystemOk(s, n, me, l.enclave);
    assert StoreOk(s.ledger, l.store, 0) && Executions(s.executed[me], l.store, NOTHING) by {
      assert s.executed[me] == [] && DeliverBlocks(NOTHING, []) == NOTHING;
    }
    assert CreatorSet([]) == {};
  }

  // ---------------------------------------------------------------------------------------------
  // Sending and requesting

  lemma SendKeeps(l: Local, s: System, to: Destination, m: Message)
    requires InStep(l, s) && Deliverable(s, l.me, m) && Addressable(l.n, l.me, to, m)
    ensures var l' := l.(outbox := l.outbox + [Envelope(to, l.me, m)]);
            InStep(l', s) && (Synced(l, s) ==> Synced(l', s)) && (Moving(l, s) ==> Moving(l', s))
  {
  }

  /** What was sent stays sent. */
  ghost predicate Appended(outbox: seq<Envelope>, outbox': seq<Envelope>) {
    outbox <= outbox'
  }

  lemma AppendedNot(outbox: seq<Envelope>)
    ensures Appended(outbox, outbox)
  {
  }

  lemma AppendedOne(outbox: seq<Envelope>, e: Envelope)
    ensures Appended(outbox, outbox + [e]) && e in outbox + [e]
  {
  }

  /** Nothing was sent to a single replica. */
  ghost predicate OnlyBroadcasts(outbox: seq<Envelope>, outbox': seq<Envelope>) {
    outbox <= outbox' && forall k :: |outbox| <= k < |outbox'| ==> outbox'[k].destination.Broadcast?
  }

  /** The messages a replica sent to itself. */
  function ToSelf(sent: seq<Envelope>, me: ReplicaId): seq<Message> {
    if sent == [] then []
    else (if sent[0].destination == Destination.Unicast(me) then [sent[0].message] else []) + ToSelf(sent[1..], me)
  }

  /** A message that a replica may send to itself. */
  ghost predicate Reflectable(s: System, me: ReplicaId, m: Message) {
    Deliverable(s, me, m) && (m.RequestedBlock? || (m.Commit? && OwnVote(s.n, me, me, m.commitment)))
  }

  lemma {:induction false} ToSelfIsReflectable(s: System, sent: seq<Envelope>, me: ReplicaId)
    requires OutboxOk(s, sent, me)
    ensures forall m :: m in ToSelf(sent, me) ==> Reflectable(s, me, m)
  {
    hide Deliverable, OwnVote;
    if sent != [] {
      assert sent[0] in sent;
      assert forall e :: e in sent[1..] ==> e in sent;
      ToSelfIsReflectable(s, sent[1..], me);
    }
  }

  lemma SentIsReflectable(l: Local, s: System, start: nat)
    requires InStep(l, s) && start <= |l.outbox|
    ensures forall m :: m in ToSelf(l.outbox[start..], l.me) ==> Reflectable(s, l.me, m)
  {
    hide Reachable;
    assert forall e :: e in l.outbox[start..] ==> e in l.outbox;
    ToSelfIsReflectable(s, l.outbox[start..], l.me);
  }

  lemma {:induction false} BroadcastsAreNotToSelf(sent: seq<Envelope>, me: ReplicaId)
    requires forall k :: 0 <= k < |sent| ==> sent[k].destination.Broadcast?
    ensures ToSelf(sent, me) == []
  {
    if sent != [] {
      BroadcastsAreNotToSelf(sent[1..], me);
    }
  }

  lemma NothingToSelf(outbox: seq<Envelope>, outbox': seq<Envelope>, me: ReplicaId)
    requires OnlyBroadcasts(outbox, outbox')
    ensures |outbox| <= |outbox'| && ToSelf(outbox'[|outbox|..], me) == []
  {
    BroadcastsAreNotToSelf(outbox'[|outbox|..], me);
  }

  lemma ReflectableNow(s: System, me: ReplicaId, m: Message)
    requires Reflectable(s, me, m)
    ensures Deliverable(s, me, m) && (m.Commit? || m.RequestedBlock?)
  {
  }

  lemma DeliverableSender(s: System, from: ReplicaId, m: Message)
    requires Deliverable(s, from, m)
    ensures from < s.n
  {
  }

  lemma ReflectableStays(s: System, t: System, me: ReplicaId, pending: seq<Message>)
    requires Reachable(s) && Evolves(s, t, me) && forall m :: m in pending ==> Reflectable(s, me, m)
    ensures forall m :: m in pending ==> Reflectable(t, me, m)
  {
    hide Reachable, Evolves, OwnVote;
    EvolutionIsMonotone(s, t, me);
    forall m | m in pending ensures Reflectable(t, me, m) {
      DeliverableStays(s, t, me, me, m);
    }
  }

  /** What was delivered stays delivered. */
  lemma DeliveredStays(l: Local, s: System, l': Local, t: System)
    requires InStep(l, s) && InStep(l', t) && l'.me == l.me && Evolves(s, t, l.me)
    ensures l.delivered.log <= l'.delivered.log && l.enclave.peers <= l'.enclave.peers
  {
    hide Reachable, Evolves;
    EvolutionIsMonotone(s, t, l.me);
    DeliveryGrows(NOTHING, s.executed[l.me], t.executed[l.me]);
  }

  lemma OpenKeeps(l: Local, s: System, open: map<View, set<ReplicaId>>)
    ensures InStep(l, s) ==> InStep(l.(open := open), s)
    ensures Synced(l, s) ==> Synced(l.(open := open), s)
  {
  }

  lemma RequestKeeps(l: Local, s: System, v: View, hash: BlockHash)
    requires InStep(l, s) && v < l.enclave.view && Lookup(l.store, v).None? && Named(s.ledger, v, hash)
    ensures var l' := l.(requested := l.requested[v := hash]);
            InStep(l', s) && (Synced(l, s) ==> Synced(l', s))
  {
  }

  // ---------------------------------------------------------------------------------------------
  // Voting

  /** A block the replica may vote for: a known one, or the one it is about to propose. */
  ghost predicate Votable(s: System, me: ReplicaId, proposal: Option<Step>, b: Block) {
    match proposal
    case None => b in s.ledger
    case Some(step) =>
      && step.Propose? && step.replica == me && Enabled(s, step)
      && b == Proposal(s, me, step.commitments, step.parent, step.transactions)
  }

  lemma VotableIsSound(s: System, me: ReplicaId, proposal: Option<Step>, b: Block)
    requires Reachable(s) && me < s.n && Votable(s, me, proposal, b)
    ensures b.view > 0 && b.justification.Quorum?
    ensures b.Accumulator().NamedView() < b.view
    ensures Named(s.ledger, b.Accumulator().NamedView(), b.Accumulator().NamedHash())
    ensures ParentOk(s.ledger, b.view, b.parent)
  {
    ReachableInv(s);
    if proposal.Some? {
      ProposalOk(s, proposal.value);
    } else {
      KnownBlock(s, b);
    }
  }

  lemma KnownVotable(s: System, me: ReplicaId, proposal: Option<Step>, b: Block)
    requires Votable(s, me, proposal, b)
    ensures proposal.None? ==> b in s.ledger
    ensures proposal.Some? && me < |s.enclaves| ==> b.view == s.enclaves[me].view
  {
  }

  lemma KnownIsVotable(s: System, me: ReplicaId, b: Block)
    requires b in s.ledger
    ensures Votable(s, me, None, b)
  {
  }

  /** The replica's own view is free in its store, and nothing of it was requested. */
  lemma ViewIsFree(l: Local, s: System)
    requires Synced(l, s) && l.view > 0
    ensures Lookup(l.store, l.view).None? && l.view !in l.requested
  {
  }

  /** A replica that may propose leads its view, so no block of that view exists yet. */
  lemma ForeignViewIsQuiet(l: Local, s: System, b: Block)
    requires Synced(l, s) && b in s.ledger && b.view == l.view
    ensures !l.mayPropose
  {
    ForeignBlock(s, l.me, b);
  }

  /** The step by which the replica votes for a votable block of its view. */
  lemma VoteEnabled(l: Local, s: System, b: Block)
    requires Synced(l, s) && l.view > 0 && b in s.ledger && b.view == l.view
    ensures Enabled(s, Vote(l.me, b)) && b.justification.Quorum?
  {
    VoteSucceeds(s, l.me, b);
  }

  lemma OwnStepKeeps(l: Local, s: System, step: Step, e': Enclave.Enclave)
    requires Synced(l, s) && Enabled(s, step) && step.replica == l.me
    requires step.Propose? || step.Vote? || step.TimeOut?
    requires e' == Next(s, step).enclaves[l.me]
    requires e'.view == l.view + 1 && e'.peers == l.enclave.peers && l.enclave.peers == Replicas(l.n)
    ensures InStep(l.(enclave := e'), Next(s, step))
  {
    var t := Next(s, step);
    assert Reachable(t) && Monotone(s, t, l.me) by { StepFromReachable(s, step); }
    LocalStays(s, t, l.me, l.me, l.store, l.view, l.requested, l.waitingBlocks, l.view + 1, l.waitingCommitments, l.outbox);
    assert t.executed == s.executed;
  }

  /** A block of the replica's own view moves it on, whether the block is its own or a peer's. */
  lemma VoteMoves(l: Local, s: System, step: Step, block: Block)
    requires Synced(l, s) && !l.mayPropose && l.view > 0
    requires Enabled(s, step) && step.replica == l.me && block.justification.Quorum?
    requires step == Vote(l.me, block) ||
             (step.Propose? && block == Proposal(s, l.me, step.commitments, step.parent, step.transactions))
    ensures var r := Prepared(l.enclave, block);
            var t := Next(s, step);
            && r.1.Success?
            && Moving(l.(enclave := r.0), t)
            && block in t.ledger && r.1.value in t.usigs && r.1.value.kind.Usig? && r.1.value.view == l.view
  {
    hide Reachable;
    OwnStepKeeps(l, s, step, Prepared(l.enclave, block).0);
  }

  /** The step by which the replica votes for a votable block of its view. */
  lemma BallotFor(l: Local, s: System, proposal: Option<Step>, b: Block) returns (step: Step)
    requires Synced(l, s) && !l.mayPropose && b.view == l.view && Votable(s, l.me, proposal, b)
    ensures step == BallotStep(l.me, proposal, b)
    ensures step.replica == l.me && Enabled(s, step) && b.justification.Quorum?
    ensures var r := Prepared(l.enclave, b);
            var t := Next(s, step);
            && r.1.Success?
            && Moving(l.(enclave := r.0), t)
            && t.executed == s.executed
            && b in t.ledger && r.1.value in t.usigs && r.1.value.kind.Usig? && r.1.value.view == l.view
            && r.1.value.creator == l.me
  {
    hide Reachable;
    SettledView(l, s);
    EnclaveShape(s, l.me);
    VotableIsSound(s, l.me, proposal, b);
    if proposal.Some? {
      step := proposal.value;
    } else {
      VoteEnabled(l, s, b);
      step := Vote(l.me, b);
    }
    VoteMoves(l, s, step, b);
  }

  lemma TimeOutMoves(l: Local, s: System)
    requires Synced(l, s) && !l.mayPropose && l.enclave.peers == Replicas(l.n)
    ensures Enabled(s, TimeOut(l.me))
    ensures var r := Enclave.ReSignLastPrepared(l.enclave);
            var t := Next(s, TimeOut(l.me));
            && Moving(l.(enclave := r.0), t)
            && r.1.Success? && r.1.value in t.usigs && r.1.value.view == l.view && r.1.value.kind.Usig? && r.1.value.creator == l.me
            && (r.1.value.phase.NewView? <==> l.view > 0)
  {
    SettledView(l, s);
    EnclaveShape(s, l.me);
    OwnStepKeeps(l, s, TimeOut(l.me), Enclave.ReSignLastPrepared(l.enclave).0);
    assert Enclave.ReSignLastPrepared(l.enclave).1.value.phase.NewView? <==> l.view > 0 by {
      ReachableInv(s);
      ReSignIssues(s, l.me);
    }
  }

  // ---------------------------------------------------------------------------------------------
  // Executing

  /** The blocks the replica looks up to decide on an execution form a three-chain. */
  lemma StoredThreeChain(l: Local, s: System, b: Block) returns (j: Block, g: Block)
    requires InStep(l, s) && b in s.ledger && ChainStart(l.store, b).Some?
    ensures Chained(s.ledger) && ThreeChain(s.ledger, b, j, g) && g.view == ChainStart(l.store, b).value
    ensures Stored(l.store, j) && Stored(l.store, g)
  {
    hide Reachable;
    j := Lookup(l.store, b.Accumulator().NamedView()).value.block;
    g := Lookup(l.store, j.Accumulator().NamedView()).value.block;
    StoredJustifier(s, l.store, l.enclave.view, b);
    StoredJustifier(s, l.store, l.enclave.view, j);
  }

  lemma BacklogDescends(l: Local, s: System)
    requires InStep(l, s)
    ensures Descending(l.store)
  {
    StoreDescends(s, l.store, l.enclave.view);
  }

  /**
   * A chain of three is recognised exactly when its first two blocks are stored: the block proposed
   * and the two below it are linked by justification and parent.
   */
  lemma ChainStartExactly(l: Local, s: System, b: Block)
    requires InStep(l, s) && b in s.ledger
    ensures ChainStart(l.store, b).Some? <==>
              exists j: Block, g: Block :: ThreeChain(s.ledger, b, j, g) && Stored(l.store, j) && Stored(l.store, g)
    ensures forall j: Block, g: Block :: ThreeChain(s.ledger, b, j, g) && Stored(l.store, j) && Stored(l.store, g) ==>
              ChainStart(l.store, b) == Some(g.view)
  {
    hide InStep;
    if ChainStart(l.store, b).Some? {
      var j, g := StoredThreeChain(l, s, b);
      assert Stored(l.store, j);
    }
  }

  lemma OnlyGenesisIsUnjustified(l: Local, s: System, b: Block)
    requires InStep(l, s) && Known(s.ledger, b)
    ensures b == GENESIS || b.justification.Quorum?
  {
    hide Reachable;
    if b in s.ledger {
      KnownBlock(s, b);
    }
  }

  /**
   * When the block proposed completes a chain whose first two blocks are stored, and a way leads from
   * the first of them down to an executed block or genesis, that block is marked as executed.
   */
  lemma CompletedChainIsExecuted(l: Local, s: System, b: Block, j: Block, g: Block, vs: seq<View>)
    requires InStep(l, s) && ThreeChain(s.ledger, b, j, g) && Stored(l.store, j) && Stored(l.store, g)
    requires WayDown(l.store, g.view, vs)
    ensures Stored(StoreAfter(l.store, b), g) && (g == GENESIS || Lookup(StoreAfter(l.store, b), g.view).value.executed)
  {
    hide Backlog, InStep, WayDown, Descending, MarkAll;
    OnlyGenesisIsUnjustified(l, s, g);
    assert ChainStart(l.store, b) == Some(g.view) by {
      ChainStartExactly(l, s, b);
    }
    BacklogDescends(l, s);
    WayIsExecuted(l.store, g.view, vs);
    MarkAllMeaning(l.store, Backlog(l.store, g.view).value, g.view);
  }

  /** Executing the backlog of the first block of a chain found in the store is an execution step. */
  lemma ExecuteKeeps(l: Local, s: System, b: Block)
    requires Moving(l, s) && b in s.ledger && ExecutionDue(l.store, b)
    ensures Enabled(s, Execute(l.me, b))
    ensures Moving(l.(store := StoreAfter(l.store, b), delivered := DeliveredAfter(l.store, b, l.delivered)),
                   Next(s, Execute(l.me, b)))
  {
    hide Reachable, Requested, Executions, StoreOk, OutboxOk, Chained;
    var j, g := StoredThreeChain(l, s, b);
    ThreeChainIs(s.ledger, b, j, g);
    var step := Execute(l.me, b);
    var t := Next(s, step);
    var vs := Backlog(l.store, g.view).value;
    StepFromReachable(s, step);
    BacklogExecuted(s, l.store, l.enclave.view, s.executed[l.me], l.delivered, g);
    MarkedKeepsRequests(s.ledger, l.requested, l.store, l.enclave.view, vs);
    OutboxStays(s, t, l.me, l.outbox, l.me);
  }

  lemma MarkedKeepsRequests(ledger: Ledger, requested: map<View, BlockHash>, store: Store, view: View, vs: seq<View>)
    requires Requested(ledger, requested, store, view)
    ensures Requested(ledger, requested, MarkAll(store, vs), view)
  {
    forall v | v in requested ensures Lookup(MarkAll(store, vs), v).None? {
      MarkAllMeaning(store, vs, v);
    }
  }

  // ---------------------------------------------------------------------------------------------
  // Storing a block

  lemma InsertKeeps(l: Local, s: System, b: Block)
    requires InStep(l, s) && b in s.ledger && b.view < l.enclave.view
    requires Lookup(l.store, b.view).None? && b.view !in l.requested
    ensures var l' := l.(store := Inserted(l.store, b));
            InStep(l', s) && (Synced(l, s) ==> Synced(l', s)) && (Moving(l, s) ==> Moving(l', s))
  {
    hide Reachable;
    var l' := l.(store := Inserted(l.store, b));
    forall v: View
      ensures |l'.store| == if b.view < |l.store| then |l.store| else b.view + 1
      ensures Lookup(l'.store, v) == if v == b.view then Some(Entry(b, false)) else Lookup(l.store, v)
    {
      InsertedMeaning(l.store, b, v);
    }
    assert Executions(s.executed[l.me], l'.store, l.delivered);
    assert StoreOk(s.ledger, l'.store, l.enclave.view);
  }

  lemma ForgetRequestKeeps(l: Local, s: System, v: View)
    requires InStep(l, s)
    ensures var l' := l.(requested := l.requested - {v});
            InStep(l', s) && (Synced(l, s) ==> Synced(l', s))
  {
  }

  /** Storing a block that was voted for. */
  lemma InsertVotedKeeps(l: Local, s: System, b: Block)
    requires Moving(l, s) && b in s.ledger && b.view == l.view
    requires Lookup(l.store, b.view).None? && b.view !in l.requested
    ensures Moving(l.(store := Inserted(l.store, b)), s)
  {
    hide InStep;
    InsertKeeps(l, s, b);
  }

  lemma InsertOldKeeps(l: Local, s: System, b: Block)
    requires Synced(l, s) && b in s.ledger && b.view < l.view
    requires Lookup(l.store, b.view).None? && b.view !in l.requested
    ensures Synced(l.(store := Inserted(l.store, b)), s)
  {
    hide InStep;
    InsertKeeps(l, s, b);
  }

  // ---------------------------------------------------------------------------------------------
  // Entering a view

  /** Entering the next view while no waiting block belongs to it. */
  lemma EnterQuietly(l: Local, s: System)
    requires Moving(l, s) && forall b :: b in l.waitingBlocks ==> b.view != l.view + 1
    ensures Synced(l.(view := l.view + 1, commitments := [], senders := {}), s)
  {
    hide Reachable;
    assert CreatorSet([]) == {};
  }

  lemma MovingBlocks(l: Local, s: System)
    requires Moving(l, s)
    ensures forall b :: b in l.waitingBlocks ==> b.view >= l.view + 1
  {
    hide Reachable;
  }

  /** Entering the next view and taking the waiting block that belongs to it. */
  lemma EnterWithBlock(l: Local, s: System)
    requires Moving(l, s) && l.waitingBlocks != [] && l.waitingBlocks[0].view == l.view + 1
    requires forall k :: 0 < k < |l.waitingBlocks| ==> l.waitingBlocks[0].view < l.waitingBlocks[k].view
    ensures Synced(l.(view := l.view + 1, commitments := [], senders := {}, waitingBlocks := l.waitingBlocks[1..]), s)
    ensures l.waitingBlocks[0] in s.ledger
  {
    hide Reachable;
    var rest := l.waitingBlocks[1..];
    forall b | b in rest ensures b in l.waitingBlocks && b.view >= l.view + 2 {
      var k :| 0 <= k < |rest| && rest[k] == b;
      assert l.waitingBlocks[k + 1] == b;
    }
    assert l.waitingBlocks[0] in l.waitingBlocks;
    EnterQuietly(l.(waitingBlocks := rest), s);
  }

  lemma TakeCommitmentKeeps(l: Local, s: System)
    requires InStep(l, s) && l.waitingCommitments != []
    ensures var l' := l.(waitingCommitments := l.waitingCommitments[1..]);
            InStep(l', s) && (Synced(l, s) ==> Synced(l', s))
    ensures var c := l.waitingCommitments[0]; c in s.usigs && l.n > 0 && Leader(c.UsableFor(), l.n) == l.me
  {
    hide Reachable;
    assert forall c :: c in l.waitingCommitments[1..] ==> c in l.waitingCommitments;
    assert l.waitingCommitments[0] in l.waitingCommitments;
  }

  lemma KeepBlockKeeps(l: Local, s: System, b: Block, buffer: seq<Block>)
    requires Synced(l, s) && b in s.ledger && b.view > l.view
    requires multiset(buffer) == multiset(l.waitingBlocks) + multiset{b}
    ensures Synced(l.(waitingBlocks := buffer), s)
  {
    hide Reachable;
    forall x | x in buffer ensures x in l.waitingBlocks || x == b {
      assert x in multiset(buffer);
    }
  }

  lemma KeepCommitmentKeeps(l: Local, s: System, c: SignedCommitment, buffer: seq<SignedCommitment>)
    requires Synced(l, s) && c in s.usigs && Leader(c.UsableFor(), l.n) == l.me
    requires multiset(buffer) == multiset(l.waitingCommitments) + multiset{c}
    ensures Synced(l.(waitingCommitments := buffer), s)
  {
    hide Reachable;
    forall x | x in buffer ensures x in l.waitingCommitments || x == c {
      assert x in multiset(buffer);
    }
  }

  // ---------------------------------------------------------------------------------------------
  // Collecting commitments

  lemma CollectKeeps(l: Local, s: System, c: SignedCommitment)
    requires Synced(l, s) && c in s.usigs && c.UsableFor() == l.view && Leader(l.view, l.n) == l.me
    requires c.creator !in l.senders
    ensures Synced(l.(commitments := l.commitments + [c], senders := l.senders + {c.creator}), s)
  {
    hide Reachable;
    var cs := l.commitments + [c];
    assert forall k :: 0 <= k < |l.commitments| ==> cs[k] == l.commitments[k] && cs[k].creator in l.senders;
    assert cs[|l.commitments|] == c;
    assert CreatorSet(cs) == l.senders + {c.creator};
  }

  /** A commitment for a block that is stored with another hash. */
  predicate Diverges(store: Store, c: SignedCommitment) {
    Lookup(store, c.NamedView()).Some? && Lookup(store, c.NamedView()).value.block.Hash() != c.NamedHash()
  }

  /** The block a usig commitment stands for is known. */
  lemma UsigNames(s: System, c: SignedCommitment)
    requires Reachable(s) && c in s.usigs
    ensures Named(s.ledger, c.NamedView(), c.NamedHash())
  {
    ReachableInv(s);
    UsigNamesBlock(s.ledger, s.n, c);
  }

  lemma UsigNamesBlock(ledger: Ledger, n: nat, c: SignedCommitment)
    requires UsigOk(ledger, n, c)
    ensures Named(ledger, c.NamedView(), c.NamedHash())
  {
    if c.phase.Prepare? {
      var b :| Known(ledger, b) && VotesFor(c, b);
    }
  }

  /** No commitment ever diverges from a replica's store. */
  lemma NeverDiverges(l: Local, s: System, c: SignedCommitment)
    requires InStep(l, s) && c in s.usigs
    ensures !Diverges(l.store, c)
  {
    hide Reachable, Named;
    UsigNames(s, c);
    if Lookup(l.store, c.NamedView()).Some? {
      NamedBlock(s, Lookup(l.store, c.NamedView()).value.block, c.NamedHash());
    }
  }

  /** What was collected can be accumulated, and the accumulator can be proposed with the stored parent. */
  lemma ReadyToPropose(l: Local, s: System, txs: seq<Transaction>)
    requires Synced(l, s) && l.view > 0 && Leader(l.view, l.n) == l.me
    requires |l.commitments| >= QuorumSize(l.n) && SortedByLock(l.commitments)
    ensures Enclave.Accumulate(l.enclave, l.commitments).Success?
    ensures var parent := StoredParent(l.store, l.view);
            var block := Block(l.me, l.view, Quorum(Enclave.Accumulate(l.enclave, l.commitments).value), parent, txs);
            Votable(s, l.me, Some(Propose(l.me, l.commitments, parent, txs)), block)
  {
    hide Reachable;
    var cs, parent := l.commitments, StoredParent(l.store, l.view);
    AccumulateSucceeds(s, l.me, cs);
    assert ParentOk(s.ledger, l.view, parent) by {
      if Lookup(l.store, l.view - 1).Some? {
        assert Known(s.ledger, Lookup(l.store, l.view - 1).value.block);
      }
    }
    ProposeEnabled(s, l.me, cs, parent, txs);
  }

  /** The block of the view before as a parent, when it is stored. */
  function StoredParent(store: Store, view: View): Parent
    requires view > 0
  {
    if Lookup(store, view - 1).Some? then ParentHash(Lookup(store, view - 1).value.block.Hash()) else NoParent
  }

  /** As many creators as commitments means that no creator occurs twice. */
  lemma {:induction false} DistinctBySize(cs: seq<SignedCommitment>)
    ensures |CreatorSet(cs)| <= |cs|
    ensures |CreatorSet(cs)| == |cs| ==> Enclave.DistinctCreators(cs, 0)
    decreases |cs|
  {
    if cs != [] {
      var init, last := cs[..|cs| - 1], cs[|cs| - 1];
      DistinctBySize(init);
      assert forall k :: 0 <= k < |init| ==> init[k] == cs[k];
      assert CreatorSet(cs) == CreatorSet(init) + {last.creator};
    }
  }

  lemma PermutedCreators(cs: seq<SignedCommitment>, ds: seq<SignedCommitment>)
    requires multiset(cs) == multiset(ds)
    ensures |cs| == |ds| && CreatorSet(cs) == CreatorSet(ds)
    ensures Enclave.DistinctCreators(cs, 0) ==> Enclave.DistinctCreators(ds, 0)
  {
    assert |multiset(cs)| == |cs| && |multiset(ds)| == |ds|;
    forall id ensures id in CreatorSet(cs) <==> id in CreatorSet(ds) {
      SameCreators(cs, ds, id);
      SameCreators(ds, cs, id);
    }
    DistinctBySize(ds);
    if Enclave.DistinctCreators(cs, 0) {
      CreatorSetSize(cs);
    }
  }

  lemma SameCreators(cs: seq<SignedCommitment>, ds: seq<SignedCommitment>, id: ReplicaId)
    requires multiset(cs) == multiset(ds)
    ensures id in CreatorSet(cs) ==> id in CreatorSet(ds)
  {
    if id in CreatorSet(cs) {
      var k :| 0 <= k < |cs| && cs[k].creator == id;
      assert cs[k] in multiset(ds);
      assert cs[k] in ds;
    }
  }

  lemma PermuteKeeps(l: Local, s: System, cs: seq<SignedCommitment>)
    requires Synced(l, s) && multiset(cs) == multiset(l.commitments)
    ensures Synced(l.(commitments := cs), s)
  {
    hide Reachable;
    PermutedCreators(l.commitments, cs);
    forall c | c in cs ensures c in l.commitments {
      assert c in multiset(cs);
    }
  }

  lemma AskKeeps(l: Local, s: System, mayPropose: bool)
    requires Synced(l, s)
    requires mayPropose ==> l.view > 0 && Leader(l.view, l.n) == l.me && |l.commitments| >= QuorumSize(l.n)
    ensures Synced(l.(mayPropose := mayPropose), s)
  {
    hide Reachable;
  }

  // ---------------------------------------------------------------------------------------------
  // Peers

  /** A key arrives that the enclave did not have, which happens in view 0 only. */
  lemma PeerKeeps(l: Local, s: System, peer: ReplicaId)
    requires Synced(l, s) && peer < l.n && peer !in l.enclave.peers
    ensures l.view == 0 && Enabled(s, Join(l.me, peer))
    ensures var l' := l.(enclave := Enclave.AddPeer(l.enclave, peer, peer).0, peersAdded := l.peersAdded + 1);
            && Synced(l', Next(s, Join(l.me, peer))) && JoinedAs(l, s, l', Next(s, Join(l.me, peer)), peer)
            && (l'.peersAdded == l.n ==> l'.enclave.peers == Replicas(l.n))
  {
    hide Reachable;
    var step := Join(l.me, peer);
    var t := Next(s, step);
    StepFromReachable(s, step);
    LocalStays(s, t, l.me, l.me, l.store, l.view, l.requested, l.waitingBlocks, l.view, l.waitingCommitments, l.outbox);
    if l.peersAdded + 1 == l.n {
      SubsetSize(l.enclave.peers + {peer}, Replicas(l.n));
    }
  }

  /** In view 0 nothing was collected. */
  lemma StartIsQuiet(l: Local, s: System)
    requires Synced(l, s) && l.view == 0
    ensures !l.mayPropose
  {
  }

  /** A replica that has not left view 0 has executed and delivered nothing. */
  lemma StartDeliversNothing(l: Local, s: System)
    requires Synced(l, s) && l.view == 0
    ensures l.me < |s.executed| && s.executed[l.me] == [] && l.delivered == NOTHING
  {
    hide Reachable;
    assert s.executed[l.me] == [];
  }

  /** A replica that lacks a key has not counted all peers. */
  lemma PeersCounted(l: Local, s: System)
    requires Synced(l, s)
    ensures forall peer: ReplicaId :: peer < l.n && peer !in l.enclave.peers ==> l.peersAdded < l.n
  {
    hide Reachable;
    forall peer: ReplicaId | peer < l.n && peer !in l.enclave.peers ensures l.peersAdded < l.n {
      assert peer in Replicas(l.n);
      SubsetSize(l.enclave.peers, Replicas(l.n));
    }
  }

  lemma PeersOfSettled(l: Local, s: System)
    requires Synced(l, s) && l.view > 0
    ensures l.enclave.peers == Replicas(l.n)
  {
  }

  lemma MayPropose(l: Local, s: System)
    requires Synced(l, s) && l.mayPropose
    ensures l.view > 0 && Leader(l.view, l.n) == l.me && |l.commitments| >= QuorumSize(l.n)
  {
  }

  lemma FollowerIsQuiet(l: Local, s: System)
    requires Synced(l, s) && Leader(l.view, l.n) != l.me
    ensures !l.mayPropose
  {
  }

  // ---------------------------------------------------------------------------------------------
  // Steps of other replicas

  /** Whatever other replicas do, this replica's state keeps its meaning. */
  lemma OthersMove(l: Local, s: System, t: System, other: ReplicaId)
    requires Synced(l, s) && Evolves(s, t, other) && other != l.me
    ensures Synced(l, t)
  {
    hide Reachable, Evolves;
    EvolutionIsMonotone(s, t, other);
    ReachableFurther(s, t, other);
    LocalStays(s, t, other, l.me, l.store, l.view, l.requested, l.waitingBlocks, l.view, l.waitingCommitments, l.outbox);
    BlocksWaitingStays(s.ledger, t.ledger, l.waitingBlocks, l.view + 1);
  }

  // ---------------------------------------------------------------------------------------------
  // Blocks and commitments that arrive

  /** The block stored at the view of a known block is that block. */
  lemma StoredBlockIs(l: Local, s: System, b: Block)
    requires InStep(l, s) && Known(s.ledger, b) && Lookup(l.store, b.view).Some?
    ensures Lookup(l.store, b.view).value.block == b
  {
    hide Reachable;
    SameView(s, Lookup(l.store, b.view).value.block, b);
  }

  lemma StoredIsKnown(l: Local, s: System, v: View)
    requires InStep(l, s) && Lookup(l.store, v).Some?
    ensures Known(s.ledger, Lookup(l.store, v).value.block) && Lookup(l.store, v).value.block.view == v
  {
    hide Reachable;
  }

  /** A commitment whose creator was counted already is the one that was counted. */
  lemma CollectedIs(l: Local, s: System, c: SignedCommitment)
    requires Synced(l, s) && c in s.usigs && c.UsableFor() == l.view
    ensures c.creator in l.senders ==> c in l.commitments
  {
    hide Reachable, InStep;
    if c.creator in l.senders {
      SettledView(l, s);
      var k :| 0 <= k < |l.commitments| && l.commitments[k].creator == c.creator;
      assert l.commitments[k] in l.commitments;
      OnePerView(s, c, l.commitments[k]);
    }
  }

  lemma OnePerView(s: System, c: SignedCommitment, d: SignedCommitment)
    requires Reachable(s) && c in s.usigs && d in s.usigs && c.creator == d.creator && c.view == d.view
    ensures c == d
  {
    ReachableInv(s);
    hide Reachable, EnclavesOk, UsigsOk, LedgerOk, OneBlockPerView, LeadersMovedOn, ExecutedOk;
    assert InOrder(c, d);
  }

  /** A replica is never ahead of its own view, so its own commitments are never early. */
  lemma OwnIsNotEarly(l: Local, s: System, c: SignedCommitment)
    requires Synced(l, s) && c in s.usigs && c.creator == l.me
    ensures c.UsableFor() <= l.view
  {
    SettledView(l, s);
    ReachableInv(s);
    hide Reachable, EnclavesOk, UsigsOk, LedgerOk, OneBlockPerView, LeadersMovedOn, ExecutedOk, InStep;
    assert Past(c, s.enclaves[l.me]);
  }

  /** A quorum that a replica's own commitment completes has another member. */
  lemma OthersCollected(l: Local, s: System)
    requires Synced(l, s) && l.me !in l.senders && |l.commitments| + 1 >= QuorumSize(l.n) && l.n > 1
    ensures |l.senders - {l.me}| > 0
  {
    hide Reachable;
    CreatorSetSize(l.commitments);
    assert l.senders - {l.me} == l.senders;
  }

  lemma RequestedHash(l: Local, s: System, b: Block)
    requires InStep(l, s) && Known(s.ledger, b) && b.view in l.requested
    ensures l.requested[b.view] == b.Hash() && Lookup(l.store, b.view).None? && b.view < l.enclave.view && b != GENESIS
  {
    hide Reachable, Named;
    NamedBlock(s, b, l.requested[b.view]);
  }

  lemma NoBlockOfView(l: Local, s: System)
    requires Synced(l, s)
    ensures forall b :: b in l.waitingBlocks ==> b in s.ledger && b.view > l.view
  {
  }

  lemma WaitingCommitmentIs(l: Local, s: System, c: SignedCommitment, d: SignedCommitment)
    requires InStep(l, s) && c in s.usigs && d in l.waitingCommitments && c.view == d.view && c.creator == d.creator
    ensures c == d
  {
    hide Reachable;
    OnePerView(s, c, d);
  }

  lemma WaitingBlockIs(l: Local, s: System, b: Block, d: Block)
    requires InStep(l, s) && b in s.ledger && d in l.waitingBlocks && b.view == d.view
    ensures b == d
  {
    SameView(s, b, d);
  }

  /** An own vote for the current view counts. */
  lemma OwnVoteCounts(l: Local, s: System, c: SignedCommitment)
    requires Synced(l, s) && Reflectable(s, l.me, Commit(c))
    ensures c.UsableFor() <= l.view
    ensures c.UsableFor() == l.view ==> CountableBy(l.n, l.me, l.view, l.enclave, l.me, c)
  {
    hide Synced, InStep, Reachable, Leader;
    SettledView(l, s);
    IssuedUsig(s, c);
    OwnIsNotEarly(l, s, c);
    if l.view > 0 {
      PeersOfSettled(l, s);
    }
    ReachableInv(s);
    assert UsigOk(s.ledger, s.n, c);
  }

  /** A proposal with a proper accumulator and the leader's vote for it. */
  ghost predicate AcceptableTo(e: Enclave.Enclave, b: Block, prepare: SignedCommitment) {
    && b.justification.Quorum?
    && b.Accumulator().kind.Accumulator?
    && b.Accumulator().UsableFor() == b.view
    && e.Verifies(b.Accumulator())
    && prepare.kind.Usig? && prepare.phase.Prepare?
    && prepare.NamedHash() == b.Hash() && prepare.view == b.view
    && e.Verifies(prepare)
  }

  /** A commitment that may count for a proposal of a replica. */
  ghost predicate CountableBy(n: nat, me: ReplicaId, view: View, e: Enclave.Enclave, from: ReplicaId, c: SignedCommitment) {
    && from == c.creator
    && c.UsableFor() >= view
    && e.Verifies(c)
    && n > 0 && Leader(c.UsableFor(), n) == me
    && c.kind.Usig?
  }

  // ---------------------------------------------------------------------------------------------
  // What handlers do not lose

  /** A commitment is counted, unless the view it counts in has passed. */
  ghost predicate Used(l: Local, c: SignedCommitment) {
    c.UsableFor() < l.view || (c.UsableFor() == l.view && c in l.commitments)
  }

  /** A peer waits for the block of a view. */
  ghost predicate Asks(l: Local, v: View, peer: ReplicaId) {
    v in l.open && peer in l.open[v]
  }

  ghost predicate Answered(l: Local, v: View, peer: ReplicaId) {
    exists b: Block :: b.view == v && Envelope(Destination.Unicast(peer), l.me, RequestedBlock(b)) in l.outbox
  }

  /**
   * What was stored, sent or counted stays so, a buffered block is stored before it leaves the
   * buffer, a buffered commitment is counted, and an open request for a block is answered.
   */
  ghost predicate NothingLost(l: Local, l': Local) {
    && l'.me == l.me && l.view <= l'.view && StoreGrows(l.store, l'.store) && Appended(l.outbox, l'.outbox)
    && (forall b :: b in l.waitingBlocks ==> b in l'.waitingBlocks || Stored(l'.store, b))
    && (forall c :: c in l.waitingCommitments ==> c in l'.waitingCommitments || Used(l', c))
    && (l'.view == l.view ==> forall c :: c in l.commitments ==> c in l'.commitments)
    && (forall v: View, peer: ReplicaId :: Asks(l, v, peer) ==> Asks(l', v, peer) || Answered(l', v, peer))
  }

  lemma NothingLostYet(l: Local)
    ensures NothingLost(l, l)
  {
  }

  lemma NothingLostFurther(l: Local, l': Local, l'': Local)
    requires NothingLost(l, l') && NothingLost(l', l'')
    ensures NothingLost(l, l'')
  {
    forall b | b in l.waitingBlocks ensures b in l''.waitingBlocks || Stored(l''.store, b) {
    }
    forall v: View, peer: ReplicaId | Asks(l, v, peer) ensures Asks(l'', v, peer) || Answered(l'', v, peer) {
      if Answered(l', v, peer) {
        AnsweredStays(l', l'', v, peer);
      }
    }
  }

  lemma NothingLostParts(l: Local, l': Local)
    requires NothingLost(l, l')
    ensures l.view <= l'.view && StoreGrows(l.store, l'.store) && Appended(l.outbox, l'.outbox)
    ensures |l.outbox| <= |l'.outbox| && forall e :: e in l.outbox ==> e in l'.outbox
  {
  }

  lemma AnsweredStays(l: Local, l': Local, v: View, peer: ReplicaId)
    requires Answered(l, v, peer) && l'.me == l.me && Appended(l.outbox, l'.outbox)
    ensures Answered(l', v, peer)
  {
    var b: Block :| b.view == v && Envelope(Destination.Unicast(peer), l.me, RequestedBlock(b)) in l.outbox;
    assert Envelope(Destination.Unicast(peer), l'.me, RequestedBlock(b)) in l'.outbox;
  }

  lemma UsedStays(l: Local, l': Local, c: SignedCommitment)
    requires NothingLost(l, l') && Used(l, c)
    ensures Used(l', c)
  {
  }

  /** Changes to nothing that is buffered, counted or open. */
  lemma LosesNothing(l: Local, l': Local)
    requires l' == l.(enclave := l'.enclave, peersAdded := l'.peersAdded, store := l'.store, mayPropose := l'.mayPropose,
                      requested := l'.requested, delivered := l'.delivered, outbox := l'.outbox)
    requires StoreGrows(l.store, l'.store) && Appended(l.outbox, l'.outbox)
    ensures NothingLost(l, l')
  {
  }

  lemma EnteringLosesNothing(l: Local)
    ensures NothingLost(l, EnteredLocal(l))
  {
  }

  lemma CollectingLosesNothing(l: Local, c: SignedCommitment)
    ensures NothingLost(l, CollectedLocal(l, c))
  {
  }

  lemma PermutingLosesNothing(l: Local, cs: seq<SignedCommitment>)
    requires multiset(cs) == multiset(l.commitments)
    ensures NothingLost(l, l.(mayPropose := false, commitments := cs))
  {
    forall c | c in l.commitments ensures c in cs {
      assert c in multiset(l.commitments);
    }
  }

  /** A block taken from the buffer on entering a view is not lost when it is stored. */
  lemma EnteredBlockIsNotLost(l: Local, k: Local, l': Local)
    requires l.waitingBlocks != [] && k == EnteredLocal(l).(waitingBlocks := l.waitingBlocks[1..])
    requires NothingLost(k, l') && Stored(l'.store, l.waitingBlocks[0])
    ensures NothingLost(l, l')
  {
    forall b | b in l.waitingBlocks ensures b in l'.waitingBlocks || Stored(l'.store, b) {
      assert b == l.waitingBlocks[0] || b in k.waitingBlocks;
    }
    forall v: View, peer: ReplicaId | Asks(l, v, peer) ensures Asks(l', v, peer) || Answered(l', v, peer) {
      assert Asks(k, v, peer);
    }
  }

  /** A commitment taken from the buffer is not lost when it is used. */
  lemma TakenCommitmentIsNotLost(l: Local, l': Local)
    requires l.waitingCommitments != []
    requires NothingLost(l.(waitingCommitments := l.waitingCommitments[1..]), l') && Used(l', l.waitingCommitments[0])
    ensures NothingLost(l, l')
  {
    var k := l.(waitingCommitments := l.waitingCommitments[1..]);
    forall c | c in l.waitingCommitments ensures c in l'.waitingCommitments || Used(l', c) {
      assert c == l.waitingCommitments[0] || c in k.waitingCommitments;
    }
    forall v: View, peer: ReplicaId | Asks(l, v, peer) ensures Asks(l', v, peer) || Answered(l', v, peer) {
      assert Asks(k, v, peer);
    }
  }

  lemma BufferingLosesNothing(l: Local, blocks: seq<Block>, cs: seq<SignedCommitment>)
    requires (forall b :: b in l.waitingBlocks ==> b in blocks) && (forall c :: c in l.waitingCommitments ==> c in cs)
    ensures NothingLost(l, l.(waitingBlocks := blocks, waitingCommitments := cs))
  {
  }

  lemma OpeningLosesNothing(l: Local, v: View, peer: ReplicaId)
    ensures NothingLost(l, l.(open := l.open[v := (if v in l.open then l.open[v] else {}) + {peer}]))
  {
  }

  /** Requests for a block are closed once they are answered. */
  lemma AnsweringLosesNothing(l: Local, b: Block, l': Local)
    requires l' == l.(open := l.open - {b.view}, outbox := l'.outbox) && Appended(l.outbox, l'.outbox)
    requires forall peer: ReplicaId :: Asks(l, b.view, peer) ==> Envelope(Destination.Unicast(peer), l.me, RequestedBlock(b)) in l'.outbox
    ensures NothingLost(l, l')
  {
    forall v: View, peer: ReplicaId | Asks(l, v, peer) ensures Asks(l', v, peer) || Answered(l', v, peer) {
      if v == b.view {
        assert Envelope(Destination.Unicast(peer), l'.me, RequestedBlock(b)) in l'.outbox;
      }
    }
  }

  /** Once no buffered message is due, those that became due have been used. */
  lemma NothingIsDue(l: Local, l': Local, s: System)
    requires NothingLost(l, l') && Synced(l', s) && forall c :: c in l'.waitingCommitments ==> c.UsableFor() > l'.view
    ensures forall c :: c in l.waitingCommitments && c.UsableFor() == l'.view ==> c in l'.commitments
    ensures forall b :: b in l.waitingBlocks && b.view <= l'.view ==> Stored(l'.store, b)
  {
    hide InStep;
    NoBlockOfView(l', s);
  }

  // ---------------------------------------------------------------------------------------------
  // What becomes of a message

  /** A commitment that counts is kept or used, a block is kept or stored, and a request is answered or kept open. */
  ghost predicate Received(from: ReplicaId, m: Message, l: Local, l': Local) {
    match m
    case Commit(c) => CountableBy(l.n, l.me, l.view, l.enclave, from, c) ==> c in l'.waitingCommitments || Used(l', c)
    case NewBlock(b, prepare) => AcceptableTo(l.enclave, b, prepare) ==> b in l'.waitingBlocks || Stored(l'.store, b)
    case RequestedBlock(b) => b.view in l.requested ==> Stored(l'.store, b)
    case Handshake(_) => from in l'.enclave.peers
    case BlockRequest(v) => Asks(l', v, from) || Answered(l', v, from)
  }

  lemma ReceivedStays(from: ReplicaId, m: Message, l: Local, k: Local, l': Local)
    requires Received(from, m, l, k) && NothingLost(k, l') && k.enclave.peers <= l'.enclave.peers
    ensures Received(from, m, l, l')
  {
    hide CountableBy, AcceptableTo, Asks;
    match m
    case BlockRequest(v) =>
      if Answered(k, v, from) {
        AnsweredStays(k, l', v, from);
      }
    case _ =>
  }

  /** Apart from the given messages, own votes to the replica itself have been used: none that counts now is left out. */
  ghost predicate OwnVotesUsed(l: Local, but: set<Message>) {
    forall e :: e in l.outbox && e.destination == Destination.Unicast(l.me) && e.message.Commit? ==>
      e.message in but || Used(l, e.message.commitment)
  }

  ghost function Elements(ms: seq<Message>): set<Message> {
    set m | m in ms
  }

  /** What a replica sent to itself between two states. */
  function SentToSelf(l: Local, l': Local): seq<Message> {
    if |l.outbox| <= |l'.outbox| then ToSelf(l'.outbox[|l.outbox|..], l'.me) else []
  }

  lemma NothingSent(l: Local)
    ensures SentToSelf(l, l) == []
  {
    assert l.outbox[|l.outbox|..] == [];
  }

  lemma {:induction false} ToSelfHas(sent: seq<Envelope>, me: ReplicaId, k: nat)
    requires k < |sent| && sent[k].destination == Destination.Unicast(me)
    ensures sent[k].message in ToSelf(sent, me)
  {
    if k > 0 {
      ToSelfHas(sent[1..], me, k - 1);
    }
  }

  /** Only what was sent meanwhile is left. */
  lemma OwnVotesStay(l: Local, l': Local, but: set<Message>)
    requires NothingLost(l, l') && OwnVotesUsed(l, but)
    ensures OwnVotesUsed(l', but + Elements(SentToSelf(l, l')))
  {
    hide NothingLost;
    NothingLostParts(l, l');
    assert l'.me == l.me by { SameReplica(l, l'); }
    forall e | e in l'.outbox && e.destination == Destination.Unicast(l'.me) && e.message.Commit?
      ensures e.message in but + Elements(SentToSelf(l, l')) || Used(l', e.message.commitment)
    {
      var k :| 0 <= k < |l'.outbox| && l'.outbox[k] == e;
      if k < |l.outbox| {
        assert l.outbox[k] == e;
        if e.message !in but {
          UsedStays(l, l', e.message.commitment);
        }
      } else {
        assert l'.outbox[|l.outbox|..][k - |l.outbox|] == e;
        ToSelfHas(l'.outbox[|l.outbox|..], l'.me, k - |l.outbox|);
      }
    }
  }

  lemma SameReplica(l: Local, l': Local)
    requires NothingLost(l, l')
    ensures l'.me == l.me
  {
  }

  /** A message that was handled leaves what is pending after it and what was sent because of it. */
  lemma OneVoteLess(l: Local, pending: seq<Message>, later: set<Message>, sent: seq<Message>)
    requires pending != [] && OwnVotesUsed(l, Elements(pending) + later + Elements(sent))
    requires pending[0].Commit? ==> Used(l, pending[0].commitment)
    ensures OwnVotesUsed(l, Elements(sent) + (Elements(pending[1..]) + later))
  {
    assert forall m :: m in pending ==> m == pending[0] || m in pending[1..];
  }

  ghost predicate AllUsed(l: Local, pending: seq<Message>) {
    forall m :: m in pending && m.Commit? ==> Used(l, m.commitment)
  }

  lemma AllUsedOneMore(l: Local, l': Local, pending: seq<Message>)
    requires pending != [] && NothingLost(l, l') && AllUsed(l', pending[1..])
    requires pending[0].Commit? ==> Used(l, pending[0].commitment)
    ensures AllUsed(l', pending)
  {
    if pending[0].Commit? {
      UsedStays(l, l', pending[0].commitment);
    }
    assert forall m :: m in pending ==> m == pending[0] || m in pending[1..];
  }

  // ---------------------------------------------------------------------------------------------
  // What the handlers make of a replica that has no messages buffered

  /** A commitment on its way to the leader of the view it is usable for. */
  function VoteOf(n: nat, me: ReplicaId, c: SignedCommitment): Envelope
    requires n > 0
  {
    Envelope(Destination.Unicast(Leader(c.UsableFor(), n)), me, Commit(c))
  }

  predicate Unbuffered(l: Local) {
    l.waitingBlocks == [] && l.waitingCommitments == []
  }

  /** Parent and justification of a block are stored. */
  predicate Complete(store: Store, b: Block) {
    && b.view > 0 && b.justification.Quorum? && Lookup(store, b.Accumulator().NamedView()).Some?
    && (b.parent.ParentHash? ==> Lookup(store, b.view - 1).Some?)
  }

  function EnteredLocal(l: Local): Local {
    l.(view := l.view + 1, commitments := [], senders := {})
  }

  function JoinedLocal(l: Local, peer: ReplicaId): Local {
    l.(enclave := Enclave.AddPeer(l.enclave, peer, peer).0, peersAdded := l.peersAdded + 1)
  }

  function CollectedLocal(l: Local, c: SignedCommitment): Local {
    l.(commitments := l.commitments + [c], senders := l.senders + {c.creator})
  }

  /** The replica after giving up a view, before it enters the next one. */
  function LeftLocal(l: Local): Local
    requires l.n > 0
  {
    var r := Enclave.ReSignLastPrepared(l.enclave);
    l.(enclave := r.0, outbox := l.outbox + [VoteOf(l.n, l.me, r.1.value)])
  }

  /** The replica after voting for a block and storing it, before it enters the next view. */
  function VotedLocal(l: Local, b: Block): Local
    requires l.n > 0 && b.justification.Quorum? && Prepared(l.enclave, b).1.Success?
  {
    var r := Prepared(l.enclave, b);
    l.(enclave := r.0, store := Inserted(StoreAfter(l.store, b), b), delivered := DeliveredAfter(l.store, b, l.delivered),
       outbox := l.outbox + [VoteOf(l.n, l.me, r.1.value)])
  }

  function AnnouncedLocal(l: Local, b: Block, c: SignedCommitment): Local {
    l.(outbox := l.outbox + [Envelope(Destination.Broadcast, l.me, NewBlock(b, c))])
  }

  ghost function BallotStep(me: ReplicaId, proposal: Option<Step>, b: Block): Step {
    if proposal.Some? then proposal.value else Vote(me, b)
  }

  /** The system moved by a vote of a replica for a block and by the execution that calls for. */
  ghost predicate MovedBy(s: System, t: System, me: ReplicaId, step: Step, store: Store, b: Block) {
    && Enabled(s, step)
    && var u := Next(s, step);
    if ExecutionDue(store, b) then Enabled(u, Execute(me, b)) && t == Next(u, Execute(me, b)) else t == u
  }

  /** The commitment by which an enclave prepares a block. */
  ghost predicate PreparedAs(e: Enclave.Enclave, b: Block, c: SignedCommitment) {
    b.justification.Quorum? && Prepared(e, b).1 == Enclave.Issue.Success(c)
  }

  /** A replica votes for a block and stores it. */
  ghost predicate VotesAs(l: Local, s: System, l': Local, t: System, step: Step, b: Block) {
    && l.n > 0 && b.justification.Quorum? && Prepared(l.enclave, b).1.Success?
    && MovedBy(s, t, l.me, step, l.store, b)
    && l' == VotedLocal(l, b)
  }

  lemma VotedStepwise(l: Local, s: System, u: System, t: System, step: Step, b: Block, c: SignedCommitment, l': Local)
    requires l.n > 0 && PreparedAs(l.enclave, b, c) && Enabled(s, step) && u == Next(s, step)
    requires if ExecutionDue(l.store, b) then Enabled(u, Execute(l.me, b)) && t == Next(u, Execute(l.me, b)) else t == u
    requires l' == l.(enclave := Prepared(l.enclave, b).0, store := Inserted(StoreAfter(l.store, b), b),
                      delivered := DeliveredAfter(l.store, b, l.delivered), outbox := l.outbox + [VoteOf(l.n, l.me, c)])
    ensures VotesAs(l, s, l', t, step, b)
  {
    hide Enabled, Next;
  }

  /** A replica without buffered messages votes for a block and enters the next view. */
  ghost predicate Accepted(l: Local, s: System, l': Local, t: System, step: Step, b: Block) {
    && l.n > 0 && b.justification.Quorum? && Prepared(l.enclave, b).1.Success?
    && MovedBy(s, t, l.me, step, l.store, b)
    && (Complete(l.store, b) ==> l' == EnteredLocal(VotedLocal(l, b)))
  }

  lemma VoteThenEnter(l: Local, s: System, l': Local, t: System, step: Step, b: Block)
    requires VotesAs(l, s, l', t, step, b)
    ensures Accepted(l, s, EnteredLocal(l'), t, step, b)
  {
  }

  /** Requests for missing blocks do not change what a vote makes of the replica, when there are none. */
  lemma AcceptedAfterRequests(l: Local, k: Local, s: System, l': Local, t: System, step: Step, b: Block)
    requires Accepted(k, s, l', t, step, b) && k == l.(requested := k.requested, outbox := k.outbox)
    requires Complete(l.store, b) ==> k == l
    ensures Accepted(l, s, l', t, step, b)
  {
    hide MovedBy, VotedLocal;
  }

  lemma AcceptedIsProposed(l: Local, s: System, cs: seq<SignedCommitment>, txs: seq<Transaction>, l': Local, t: System,
                           b: Block, c: SignedCommitment)
    requires l.view > 0 && multiset(cs) == multiset(l.commitments) && PreparedAs(l.enclave, b, c)
    requires var step := Propose(l.me, cs, StoredParent(l.store, l.view), txs);
             && Accepted(l.(mayPropose := false, commitments := cs), s, l', t, step, b)
             && Votable(s, l.me, Some(step), b)
    ensures Proposed(l, s, AnnouncedLocal(l', b, c), t)
  {
    var step := Propose(l.me, cs, StoredParent(l.store, l.view), txs);
    assert ProposedAs(l, s, AnnouncedLocal(l', b, c), t, step, b);
  }

  /** A replica without buffered messages proposes block `b` from the commitments it collected. */
  ghost predicate ProposedAs(l: Local, s: System, l': Local, t: System, step: Step, b: Block) {
    && l.n > 0 && l.view > 0 && b.justification.Quorum? && Prepared(l.enclave, b).1.Success?
    && MovedBy(s, t, l.me, step, l.store, b)
    && step.Propose? && step.replica == l.me && multiset(step.commitments) == multiset(l.commitments)
    && step.parent == StoredParent(l.store, l.view)
    && b == Proposal(s, l.me, step.commitments, step.parent, step.transactions)
    && (Complete(l.store, b) ==>
          l' == AnnouncedLocal(EnteredLocal(VotedLocal(l.(mayPropose := false), b)), b, Prepared(l.enclave, b).1.value))
  }

  ghost predicate Proposed(l: Local, s: System, l': Local, t: System) {
    exists step, b :: ProposedAs(l, s, l', t, step, b)
  }

  ghost predicate JoinedAs(l: Local, s: System, l': Local, t: System, peer: ReplicaId) {
    Enabled(s, Join(l.me, peer)) && t == Next(s, Join(l.me, peer)) && l' == JoinedLocal(l, peer)
  }

  /** A replica without buffered messages gives up its view. */
  ghost predicate LeftAs(l: Local, s: System, l': Local, t: System) {
    l.n > 0 && Enabled(s, TimeOut(l.me)) && t == Next(s, TimeOut(l.me)) && l' == EnteredLocal(LeftLocal(l))
  }

  /** A replica without buffered messages receives the last key and leaves view 0. */
  ghost predicate StartedAs(l: Local, s: System, l': Local, t: System, peer: ReplicaId) {
    Enabled(s, Join(l.me, peer)) && LeftAs(JoinedLocal(l, peer), Next(s, Join(l.me, peer)), l', t)
  }

  /** A replica with a quorum waits for its timer or proposes. */
  ghost predicate Decided(l: Local, s: System, l': Local, t: System) {
    if l'.view == l.view then t == s && l' == l.(mayPropose := true) else Unbuffered(l) ==> Proposed(l, s, l', t)
  }

  lemma TakenInFirst(l: Local, s: System, c: SignedCommitment)
    requires |l.commitments| + 1 < QuorumSize(l.n)
    ensures TakenIn(l, s, CollectedLocal(l, c), s, c)
  {
  }

  lemma TakenInLast(l: Local, s: System, l': Local, t: System, c: SignedCommitment)
    requires |l.commitments| + 1 >= QuorumSize(l.n) && Decided(CollectedLocal(l, c), s, l', t) && Unbuffered(l)
    ensures TakenIn(l, s, l', t, c)
  {
    hide Proposed;
  }

  /** A replica without buffered messages collects a commitment, and waits or proposes once it has a quorum. */
  ghost predicate TakenIn(l: Local, s: System, l': Local, t: System, c: SignedCommitment) {
    if l'.view == l.view
    then t == s && l' == CollectedLocal(l, c).(mayPropose := l.mayPropose || |l.commitments| + 1 >= QuorumSize(l.n))
    else |l.commitments| + 1 >= QuorumSize(l.n) && Proposed(CollectedLocal(l, c), s, l', t)
  }

  /** What a message makes of a replica without buffered messages, before it handles what it sends itself. */
  ghost predicate HandledAs(from: ReplicaId, m: Message, l: Local, s: System, l': Local, t: System) {
    && l.view <= l'.view
    && (Unbuffered(l) ==>
      match m
      case Commit(c) =>
        CountableBy(l.n, l.me, l.view, l.enclave, from, c) && c.UsableFor() == l.view && c.creator !in l.senders ==>
          TakenIn(l, s, l', t, c)
      case NewBlock(b, prepare) =>
        AcceptableTo(l.enclave, b, prepare) && b.view == l.view && b.view !in l.open ==> Accepted(l, s, l', t, Vote(l.me, b), b)
      case Handshake(_) =>
        from !in l.enclave.peers ==>
          if l.peersAdded + 1 < l.n then JoinedAs(l, s, l', t, from) else StartedAs(l, s, l', t, from)
      case BlockRequest(_) => true
      case RequestedBlock(_) => true)
  }

  /** A vote for the current view that a replica has not counted, without completing a quorum. */
  ghost predicate OneOfMany(l: Local, c: SignedCommitment) {
    && Unbuffered(l) && CountableBy(l.n, l.me, l.view, l.enclave, l.me, c) && c.UsableFor() == l.view
    && c.creator !in l.senders && |l.commitments| + 1 < QuorumSize(l.n)
  }

  /** Nothing sent to itself changes nothing, and an own vote is counted. */
  ghost predicate ReflectedAs(l: Local, s: System, l': Local, t: System, pending: seq<Message>) {
    && l.view <= l'.view
    && (pending == [] ==> l' == l && t == s)
    && (|pending| == 1 && pending[0].Commit? && OneOfMany(l, pending[0].commitment) ==>
          l' == CollectedLocal(l, pending[0].commitment) && t == s)
  }

  lemma NothingReflected(l: Local, s: System, later: set<Message>)
    ensures ReflectedAs(l, s, l, s, []) && AllUsed(l, [])
    ensures OwnVotesUsed(l, Elements([]) + later) ==> OwnVotesUsed(l, later)
  {
    assert Elements([]) + later == later;
  }

  lemma ReflectedOnce(l: Local, s: System, k: Local, u: System, k': Local, u': System, l': Local, t: System, pending: seq<Message>)
    requires pending != [] && HandledAs(l.me, pending[0], l, s, k, u)
    requires ReflectedAs(k, u, k', u', SentToSelf(l, k)) && ReflectedAs(k', u', l', t, pending[1..])
    ensures ReflectedAs(l, s, l', t, pending)
  {
    hide CountableBy, AcceptableTo, Accepted, Proposed, JoinedAs, StartedAs;
    if |pending| == 1 && pending[0].Commit? && OneOfMany(l, pending[0].commitment) {
      assert k == CollectedLocal(l, pending[0].commitment) && u == s;
      assert k.outbox[|l.outbox|..] == [];
    }
  }

  /** What a message makes of a replica without buffered messages, with all that it sends itself. */
  ghost predicate Handled(from: ReplicaId, m: Message, l: Local, s: System, l': Local, t: System) {
    exists k: Local, u: System :: HandledAs(from, m, l, s, k, u) && ReflectedAs(k, u, l', t, SentToSelf(l, k))
  }

  /** What the timer for blocks makes of a replica without buffered messages, before it handles what it sends itself. */
  ghost predicate TimedAs(l: Local, s: System, l': Local, t: System) {
    if l.mayPropose then Unbuffered(l) ==> Proposed(l, s, l', t) else l' == l && t == s
  }

  ghost predicate Timed(l: Local, s: System, l': Local, t: System) {
    exists k: Local, u: System :: TimedAs(l, s, k, u) && ReflectedAs(k, u, l', t, SentToSelf(l, k))
  }
}
