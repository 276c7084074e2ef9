/**
 * What the fields of one replica mean in the step system, and how they change with it.
 */
module DamysusLocal {
  import opened Wrappers
  import opened ReplicaSets
  import opened DamysusTypes
  import opened DamysusSystem
  import opened DamysusInvariant
  import opened DamysusChain
  import opened DamysusSafety
  import opened DamysusRuns
  import opened DamysusBlockstore
  import opened DamysusDelivery
  import Enclave = DamysusEnclave

  // ---------------------------------------------------------------------------------------------
  // Fields of a replica at view `view`

  /** The store holds known blocks below the view, each at its own index, and genesis. */
  ghost predicate StoreOk(ledger: Ledger, store: Store, view: View) {
    && |store| > 0
    && |store| <= (if view == 0 then 1 else view)
    && Lookup(store, 0) == Some(Entry(GENESIS, false))
    && forall v: View :: Lookup(store, v).Some? ==>
         Known(ledger, Lookup(store, v).value.block) && Lookup(store, v).value.block.view == v
  }

  ghost predicate BlocksWaiting(ledger: Ledger, blocks: seq<Block>, least: View) {
    forall b :: b in blocks ==> b in ledger && b.view >= least
  }

  ghost predicate CommitmentsWaiting(usigs: set<SignedCommitment>, cs: seq<SignedCommitment>, n: nat, me: ReplicaId) {
    forall c :: c in cs ==> c in usigs && n > 0 && Leader(c.UsableFor(), n) == me
  }

  /** The commitments collected for a proposal in the current view. */
  ghost predicate Collected(usigs: set<SignedCommitment>, cs: seq<SignedCommitment>, senders: set<ReplicaId>,
                            view: View, n: nat, me: ReplicaId)
  {
    && (forall c :: c in cs ==> c in usigs && c.UsableFor() == view)
    && Enclave.DistinctCreators(cs, 0)
    && senders == CreatorSet(cs)
    && (cs != [] ==> n > 0 && Leader(view, n) == me)
  }

  /** Requested blocks exist, are of earlier views and are missing in the store. */
  ghost predicate Requested(ledger: Ledger, requested: map<View, BlockHash>, store: Store, view: View) {
    forall v :: v in requested ==> v < view && Lookup(store, v).None? && Named(ledger, v, requested[v])
  }

  /** The blocks marked as executed are those the system has this replica execute. */
  ghost predicate Executions(executed: seq<Block>, store: Store, d: Delivery) {
    && (forall v: View :: Lookup(store, v).Some? ==>
          (Lookup(store, v).value.executed <==> Lookup(store, v).value.block in executed))
    && (forall b :: b in executed ==> Lookup(store, b.view) == Some(Entry(b, true)))
    && d == DeliverBlocks(NOTHING, executed)
  }

  /** A commitment some enclave issued. */
  ghost predicate Issued(s: System, c: SignedCommitment) {
    c in s.usigs || exists b :: b in s.ledger && b.justification == Quorum(c)
  }

  /** A message whose contents were issued, however they are combined, delayed or repeated. */
  ghost predicate Deliverable(s: System, from: ReplicaId, m: Message) {
    && from < s.n
    && match m
      case NewBlock(b, prepare) => b in s.ledger && Issued(s, prepare)
      case Commit(c) => Issued(s, c)
      case Handshake(key) => key == from
      case BlockRequest(_) => true
      case RequestedBlock(b) => Known(s.ledger, b)
  }

  /** Only own votes and requested blocks are sent to a single replica, the former to the leader they count for. */
  predicate Addressable(n: nat, me: ReplicaId, to: Destination, m: Message) {
    to.Unicast? ==> m.RequestedBlock? || (m.Commit? && OwnVote(n, me, to.to, m.commitment))
  }

  predicate OwnVote(n: nat, me: ReplicaId, to: ReplicaId, c: SignedCommitment) {
    n > 0 && c.kind.Usig? && c.creator == me && to == Leader(c.UsableFor(), n)
  }

  ghost predicate OutboxOk(s: System, outbox: seq<Envelope>, me: ReplicaId) {
    forall e :: e in outbox ==> e.from == me && Deliverable(s, me, e.message) && Addressable(s.n, me, e.destination, e.message)
  }

  // ---------------------------------------------------------------------------------------------
  // Growth of the system

  lemma StoreStays(ledger: Ledger, ledger': Ledger, store: Store, view: View, requested: map<View, BlockHash>)
    requires Grows(ledger, ledger') && StoreOk(ledger, store, view) && Requested(ledger, requested, store, view)
    ensures StoreOk(ledger', store, view) && Requested(ledger', requested, store, view)
  {
    forall v | v in requested ensures Named(ledger', v, requested[v]) {
      NamedStays(ledger, ledger', v, requested[v]);
    }
  }

  lemma BlocksWaitingStays(ledger: Ledger, ledger': Ledger, blocks: seq<Block>, least: View)
    requires Grows(ledger, ledger') && BlocksWaiting(ledger, blocks, least)
    ensures BlocksWaiting(ledger', blocks, least)
  {
  }

  lemma DeliverableStays(s: System, t: System, i: ReplicaId, from: ReplicaId, m: Message)
    requires Monotone(s, t, i) && Deliverable(s, from, m)
    ensures Deliverable(t, from, m)
  {
    forall c | Issued(s, c) ensures Issued(t, c) {
      if c !in s.usigs {
        var b :| b in s.ledger && b.justification == Quorum(c);
        assert b in t.ledger;
      }
    }
  }

  lemma OutboxStays(s: System, t: System, i: ReplicaId, outbox: seq<Envelope>, me: ReplicaId)
    requires Monotone(s, t, i) && OutboxOk(s, outbox, me)
    ensures OutboxOk(t, outbox, me)
  {
    forall e | e in outbox ensures e.from == me && Deliverable(t, me, e.message) {
      DeliverableStays(s, t, i, me, e.message);
    }
  }

  /** Everything a replica holds keeps its meaning while the system moves on. */
  lemma LocalStays(s: System, t: System, i: ReplicaId, me: ReplicaId, store: Store, view: View,
                   requested: map<View, BlockHash>, blocks: seq<Block>, least: View, cs: seq<SignedCommitment>,
                   outbox: seq<Envelope>)
    requires Monotone(s, t, i)
    requires StoreOk(s.ledger, store, view) && Requested(s.ledger, requested, store, view)
    requires BlocksWaiting(s.ledger, blocks, least) && CommitmentsWaiting(s.usigs, cs, s.n, me)
    requires OutboxOk(s, outbox, me)
    ensures StoreOk(t.ledger, store, view) && Requested(t.ledger, requested, store, view)
    ensures BlocksWaiting(t.ledger, blocks, least) && CommitmentsWaiting(t.usigs, cs, t.n, me)
    ensures OutboxOk(t, outbox, me)
  {
    StoreStays(s.ledger, t.ledger, store, view, requested);
    BlocksWaitingStays(s.ledger, t.ledger, blocks, least);
    OutboxStays(s, t, i, outbox, me);
  }

  /** One step of a reachable system leads to a reachable system in which nothing issued is lost. */
  lemma StepFromReachable(s: System, step: Step)
    requires Reachable(s) && Enabled(s, step)
    ensures var t := Next(s, step); Reachable(t) && Monotone(s, t, step.replica) && Evolves(s, t, step.replica)
  {
    EvolvesOnce(s, step);
    ReachableFurther(s, Next(s, step), step.replica);
    EvolutionIsMonotone(s, Next(s, step), step.replica);
  }

  // ---------------------------------------------------------------------------------------------
  // Facts about blocks of a reachable system

  lemma KnownBlock(s: System, b: Block)
    requires Reachable(s) && b in s.ledger
    ensures BlockOk(s.ledger, s.usigs, s.n, b, s.ledger[b])
  {
    ReachableInv(s);
  }

  lemma SameView(s: System, b: Block, b': Block)
    requires Reachable(s) && Known(s.ledger, b) && Known(s.ledger, b') && b.view == b'.view
    ensures b == b'
  {
    ReachableInv(s);
  }

  lemma NamedBlock(s: System, b: Block, hash: BlockHash)
    requires Reachable(s) && Known(s.ledger, b) && Named(s.ledger, b.view, hash)
    ensures b.Hash() == hash
  {
    ReachableInv(s);
  }

  /** A block of the current view was not made by this replica, so somebody else leads the view. */
  lemma ForeignBlock(s: System, me: ReplicaId, b: Block)
    requires Reachable(s) && me < s.n && b in s.ledger
    ensures |s.enclaves| == s.n
    ensures b.view == s.enclaves[me].view ==> Leader(b.view, s.n) != me
  {
    ReachableInv(s);
    KnownBlock(s, b);
  }

  lemma IssuedUsig(s: System, c: SignedCommitment)
    requires Reachable(s) && Issued(s, c) && c.kind.Usig?
    ensures c in s.usigs
  {
    if c !in s.usigs {
      var b :| b in s.ledger && b.justification == Quorum(c);
      KnownBlock(s, b);
    }
  }

  /** A block can be prepared in its own view by an enclave that knows all peers. */
  lemma VoteSucceeds(s: System, me: ReplicaId, b: Block)
    requires Reachable(s) && me < s.n && b in s.ledger
    ensures |s.enclaves| == s.n && b.justification.Quorum?
    ensures b.view == s.enclaves[me].view && s.enclaves[me].peers == Replicas(s.n) ==> Enabled(s, Vote(me, b))
  {
    hide Reachable, Named, QuorumOk, ParentOk;
    EnclaveShape(s, me);
    KnownBlock(s, b);
    if b.view == s.enclaves[me].view && s.enclaves[me].peers == Replicas(s.n) {
      PreparationSucceeds(s.enclaves[me], b);
    }
  }

  // ---------------------------------------------------------------------------------------------
  // Accumulating what was collected

  ghost predicate SortedByLock(cs: seq<SignedCommitment>) {
    forall i, j :: 0 <= i < j < |cs| ==> cs[i].preparedView <= cs[j].preparedView
  }

  lemma InsertedByLock(sorted: seq<SignedCommitment>, i: nat, c: SignedCommitment)
    requires SortedByLock(sorted) && i <= |sorted|
    requires forall j :: 0 <= j < i ==> sorted[j].preparedView <= c.preparedView
    requires i < |sorted| ==> c.preparedView < sorted[i].preparedView
    ensures var r := sorted[..i] + [c] + sorted[i..];
            SortedByLock(r) && multiset(r) == multiset(sorted) + multiset{c}
  {
    assert sorted == sorted[..i] + sorted[i..];
  }

  /** Two votes of one view stand for the same block. */
  lemma VotesAgree(s: System, c: SignedCommitment, d: SignedCommitment)
    requires ConsensusInv(s) && c in s.usigs && d in s.usigs && c.view == d.view
    requires c.phase.Prepare? && d.phase.Prepare?
    ensures c.NamedView() == d.NamedView() == c.view && c.NamedHash() == d.NamedHash()
  {
    assert UsigOk(s.ledger, s.n, c) && UsigOk(s.ledger, s.n, d);
    var b :| Known(s.ledger, b) && VotesFor(c, b);
    var b' :| Known(s.ledger, b') && VotesFor(d, b');
  }

  lemma CollectedIsFit(s: System, me: ReplicaId, cs: seq<SignedCommitment>, k: nat)
    requires ConsensusInv(s) && me < s.n && s.enclaves[me].peers == Replicas(s.n)
    requires forall c :: c in cs ==> c in s.usigs && c.UsableFor() == s.enclaves[me].view
    requires SortedByLock(cs) && k < |cs|
    ensures Enclave.Fit(s.enclaves[me], cs, k)
    ensures Enclave.AllPrepare(cs, k) ==> cs[|cs| - 1].NamedView() + 1 == s.enclaves[me].view
  {
    var last := cs[|cs| - 1];
    assert cs[k] in cs && last in cs;
    assert UsigOk(s.ledger, s.n, cs[k]);
    if Enclave.AllPrepare(cs, k) {
      VotesAgree(s, cs[k], last);
    }
  }

  lemma CollectedIsAcceptable(s: System, me: ReplicaId, cs: seq<SignedCommitment>)
    requires ConsensusInv(s) && me < s.n && s.enclaves[me].peers == Replicas(s.n)
    requires s.enclaves[me].quorum == QuorumSize(s.n)
    requires forall c :: c in cs ==> c in s.usigs && c.UsableFor() == s.enclaves[me].view
    requires Enclave.DistinctCreators(cs, 0) && SortedByLock(cs) && |cs| >= QuorumSize(s.n)
    ensures Enclave.Acceptable(s.enclaves[me], cs)
  {
    var e := s.enclaves[me];
    var first := |cs| - e.quorum;
    assert Enclave.FitBetween(e, cs, first, |cs|) by {
      forall k | first <= k < |cs| ensures Enclave.Fit(e, cs, k) {
        CollectedIsFit(s, me, cs, k);
      }
    }
    CollectedIsFit(s, me, cs, first);
  }

  lemma EnclaveShape(s: System, me: ReplicaId)
    requires Reachable(s) && me < s.n
    ensures |s.enclaves| == s.n == |s.executed|
    ensures s.enclaves[me].me == me && s.enclaves[me].quorum == QuorumSize(s.n)
  {
    ReachableInv(s);
    assert EnclaveOk(s.ledger, s.n, me, s.enclaves[me]);
  }

  lemma AccumulateSucceeds(s: System, me: ReplicaId, cs: seq<SignedCommitment>)
    requires Reachable(s) && me < s.n
    requires |s.enclaves| == s.n && s.enclaves[me].peers == Replicas(s.n) && s.enclaves[me].view > 0
    requires forall c :: c in cs ==> c in s.usigs && c.UsableFor() == s.enclaves[me].view
    requires Enclave.DistinctCreators(cs, 0) && SortedByLock(cs) && |cs| >= QuorumSize(s.n)
    ensures Enclave.Accumulate(s.enclaves[me], cs).Success?
  {
    EnclaveShape(s, me);
    assert Enclave.Acceptable(s.enclaves[me], cs) by {
      ReachableInv(s);
      CollectedIsAcceptable(s, me, cs);
    }
    Enclave.AccumulateMeaning(s.enclaves[me], cs);
  }

  lemma PreparationSucceeds(e: Enclave.Enclave, b: Block)
    requires b.justification.Quorum? && b.view == e.view
    requires var a := b.Accumulator(); a.kind.Accumulator? && a.view + 1 == e.view && a.creator in e.peers && a.ProperlySigned()
    ensures Prepared(e, b).1.Success?
  {
  }

  lemma ProposeEnabled(s: System, me: ReplicaId, cs: seq<SignedCommitment>, parent: Parent, txs: seq<Transaction>)
    requires Reachable(s) && me < s.n
    requires |s.enclaves| == s.n && s.enclaves[me].peers == Replicas(s.n) && me == Leader(s.enclaves[me].view, s.n)
    requires forall c :: c in cs ==> c in s.usigs
    requires Enclave.Accumulate(s.enclaves[me], cs).Success?
    requires ParentOk(s.ledger, s.enclaves[me].view, parent)
    ensures Enabled(s, Propose(me, cs, parent, txs))
  {
    EnclaveShape(s, me);
    assert Prepared(s.enclaves[me], Proposal(s, me, cs, parent, txs)).1.Success? by {
      ReachableInv(s);
      CountedIsQuorum(s, me, cs);
      PreparationSucceeds(s.enclaves[me], Proposal(s, me, cs, parent, txs));
    }
  }
}
