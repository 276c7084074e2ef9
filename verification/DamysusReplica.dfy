/**
 * The untrusted part of a Damysus replica.
 *
 * The ghost field `sys` is the state of the step system the replica takes part in. Every handler
 * takes the system from one reachable state to another by steps of this replica alone, and leaves
 * the replica's fields in line with it. Timers and the contents of the pending client requests
 * are arbitrary.
 */
module DamysusReplica {
  import opened Wrappers
  import opened ReplicaSets
  import opened HeapBuffers
  import opened DamysusTypes
  import opened DamysusSystem
  import opened DamysusInvariant
  import opened DamysusChain
  import opened DamysusSafety
  import opened DamysusRuns
  import opened DamysusBlockstore
  import opened DamysusDelivery
  import opened DamysusLocal
  import opened DamysusExecution
  import opened DamysusReplicaSteps
  import opened DamysusEnclaveAutomata
  import Spec = DamysusEnclave

  function BlockKey(b: Block): Key {
    (b.view, 0)
  }

  function CommitmentKey(c: SignedCommitment): Key {
    (c.view, c.creator)
  }

  /** When the first buffered commitment is early, all are. */
  lemma FirstCommitmentIsLeast(cs: seq<SignedCommitment>, view: View)
    requires Ascending(CommitmentKey, cs) && (cs != [] ==> cs[0].UsableFor() > view)
    ensures forall c :: c in cs ==> c.UsableFor() > view
  {
    forall c | c in cs ensures c.UsableFor() > view {
      var k :| 0 <= k < |cs| && cs[k] == c;
      assert k > 0 ==> Less(CommitmentKey(cs[0]), CommitmentKey(cs[k]));
    }
  }

  /** The first buffered block has the lowest view. */
  lemma FirstBlockIsLeast(blocks: seq<Block>)
    requires Ascending(BlockKey, blocks)
    ensures forall k :: 0 < k < |blocks| ==> blocks[0].view < blocks[k].view
    ensures forall b :: b in blocks ==> blocks[0].view <= b.view
  {
    forall k | 0 < k < |blocks| ensures blocks[0].view < blocks[k].view {
      assert Less(BlockKey(blocks[0]), BlockKey(blocks[k]));
    }
  }

  class Replica {
    const n: nat
    const quorum: nat
    const me: ReplicaId
    const enclave: EnclaveAutomata
    const blockstore: Blockstore
    const storedBlocks: HeapBuffer<Block>
    const storedCommitments: HeapBuffer<SignedCommitment>

    var view: View
    var commitments: seq<SignedCommitment>
    var commitmentSenders: set<ReplicaId>
    var peersAdded: nat
    var callTryCreateBlock: bool
    var executedTransactions: map<ClientId, RequestId>
    var openBlockRequests: map<View, set<ReplicaId>>
    var requestedBlocks: map<View, BlockHash>
    var outbox: seq<Envelope>
    var delivery: seq<Transaction>

    ghost var sys: System

    ghost function Parts(): set<object> {
      {enclave, blockstore, storedBlocks, storedCommitments}
    }

    ghost predicate Assembled()
      reads this, Parts()
    {
      && me < n && quorum == QuorumSize(n) && enclave.quorum == quorum
      && blockstore.Valid() && storedBlocks.Valid() && storedCommitments.Valid()
      && storedBlocks.key == BlockKey && storedCommitments.key == CommitmentKey
      && storedBlocks as object != storedCommitments as object
    }

    /** The state of the replica as a value. */
    ghost function Here(): Local
      reads this, Parts()
    {
      Local(n, me, enclave.State(), view, peersAdded, blockstore.blocks, storedBlocks.buffer, storedCommitments.buffer,
            commitments, commitmentSenders, callTryCreateBlock, requestedBlocks,
            Delivery(executedTransactions, delivery), outbox, openBlockRequests)
    }

    ghost predicate Settled()
      reads this, Parts()
    {
      Assembled() && Synced(Here(), sys)
    }

    /** No buffered commitment could be used already. */
    ghost predicate Drained()
      reads this, storedCommitments
    {
      forall c :: c in storedCommitments.buffer ==> c.UsableFor() > view
    }

    /** The number of buffered messages, which bounds the recursion of the handlers. */
    ghost function Buffered(): nat
      reads this, storedBlocks, storedCommitments
    {
      |storedBlocks.buffer| + |storedCommitments.buffer|
    }

    /** Buffered messages and commitments collected from others, which bound the reflection of own messages. */
    ghost function Weight(): nat
      reads this, storedBlocks, storedCommitments
    {
      Buffered() + |commitmentSenders - {me}|
    }

    // -------------------------------------------------------------------------------------------
    // Construction

    constructor (me: ReplicaId, n: nat)
      requires me < n
      ensures Settled() && Drained() && sys == Initial(n) && OwnVotesUsed(Here(), {})
      ensures this.me == me && this.n == n && Here() == StartLocal(n, me)
      ensures fresh(Parts())
    {
      hide Synced;
      this.me := me;
      this.n := n;
      quorum := QuorumSize(n);
      enclave := new EnclaveAutomata(me, QuorumSize(n));
      blockstore := new Blockstore();
      storedBlocks := new HeapBuffer(BlockKey);
      storedCommitments := new HeapBuffer(CommitmentKey);
      view, commitments, commitmentSenders, peersAdded := 0, [], {}, 0;
      callTryCreateBlock, executedTransactions, openBlockRequests, requestedBlocks := false, map[], map[], map[];
      outbox, delivery := [], [];
      sys := Initial(n);
      new;
      assert Here() == StartLocal(n, me);
      InitialLocal(n, me);
    }

    // -------------------------------------------------------------------------------------------
    // Requests for missing blocks

    method Broadcast(m: Message)
      modifies this`outbox
      ensures outbox == old(outbox) + [Envelope(Destination.Broadcast, me, m)]
    {
      outbox := outbox + [Envelope(Destination.Broadcast, me, m)];
    }

    method Unicast(to: ReplicaId, m: Message)
      modifies this`outbox
      ensures outbox == old(outbox) + [Envelope(Destination.Unicast(to), me, m)]
    {
      outbox := outbox + [Envelope(Destination.Unicast(to), me, m)];
    }

    /** Asks all peers for the block of an earlier view, unless it is there or was asked for already. */
    method RequestBlock(v: View, hash: BlockHash)
      requires Settled() && v < view && Named(sys.ledger, v, hash)
      modifies this`requestedBlocks, this`outbox
      ensures Settled()
      ensures if Lookup(blockstore.blocks, v).None? && v !in old(requestedBlocks)
              then requestedBlocks == old(requestedBlocks)[v := hash] &&
                   outbox == old(outbox) + [Envelope(Destination.Broadcast, me, BlockRequest(v))]
              else requestedBlocks == old(requestedBlocks) && outbox == old(outbox)
    {
      hide Synced, InStep, Named, Reachable, Ascending, KeysOf;
      ghost var l := Here();
      SettledView(l, sys);
      var present := blockstore.Get(v);
      if present.None? && v !in requestedBlocks {
        RequestKeeps(l, sys, v, hash);
        requestedBlocks := requestedBlocks[v := hash];
        SendKeeps(Here(), sys, Destination.Broadcast, BlockRequest(v));
        Broadcast(BlockRequest(v));
      }
    }

    /** Asks for the parent and for the justification of a block. */
    method RequestMissing(block: Block)
      requires Settled() && 0 < block.view <= view && block.justification.Quorum?
      requires Named(sys.ledger, block.Accumulator().NamedView(), block.Accumulator().NamedHash())
      requires block.Accumulator().NamedView() < block.view && ParentOk(sys.ledger, block.view, block.parent)
      modifies this`requestedBlocks, this`outbox
      ensures Settled()
      ensures forall u :: u in requestedBlocks ==>
                u in old(requestedBlocks) || u == block.view - 1 || u == block.Accumulator().NamedView()
      ensures var v := block.Accumulator().NamedView(); Lookup(blockstore.blocks, v).None? ==> v in requestedBlocks
      ensures block.parent.ParentHash? && Lookup(blockstore.blocks, block.view - 1).None? ==> block.view - 1 in requestedBlocks
      ensures forall u :: u in requestedBlocks && u !in old(requestedBlocks) ==>
                Envelope(Destination.Broadcast, me, BlockRequest(u)) in outbox
      ensures Appended(old(outbox), outbox) && OnlyBroadcasts(old(outbox), outbox)
      ensures Complete(blockstore.blocks, block) ==> requestedBlocks == old(requestedBlocks) && outbox == old(outbox)
    {
      hide Synced, InStep, Reachable, Ascending, KeysOf;
      var accumulator := block.Accumulator();
      if block.parent.ParentHash? {
        RequestBlock(block.view - 1, block.parent.hash);
      }
      RequestBlock(accumulator.NamedView(), accumulator.NamedHash());
    }

    // -------------------------------------------------------------------------------------------
    // Execution

    /** Marks the block of a view as executed and delivers those of its transactions that are new. */
    method ExecuteBlock(v: View)
      requires blockstore.Valid() && Lookup(blockstore.blocks, v).Some?
      modifies this`executedTransactions, this`delivery, blockstore
      ensures blockstore.Valid() && blockstore.blocks == Mark(old(blockstore.blocks), v)
      ensures Delivery(executedTransactions, delivery)
           == DeliverAll(old(Delivery(executedTransactions, delivery)), BlockAt(old(blockstore.blocks), v).transactions)
    {
      ghost var before := Delivery(executedTransactions, delivery);
      var block := blockstore.Get(v);
      blockstore.Execute(v);
      var txs := block.value.transactions;
      for k := 0 to |txs|
        modifies this`executedTransactions, this`delivery
        invariant Delivery(executedTransactions, delivery) == DeliverAll(before, txs[..k])
      {
        var tx := txs[k];
        assert txs[..k + 1][..k] == txs[..k];
        if tx.client in executedTransactions && executedTransactions[tx.client] >= tx.request {
          continue;
        }
        executedTransactions := executedTransactions[tx.client := tx.request];
        delivery := delivery + [tx];
      }
      assert txs[..|txs|] == txs;
    }

    /** Walks back to the first block that was executed before or is genesis. */
    method CollectBacklog(start: View) returns (complete: bool, toExecute: seq<View>)
      requires blockstore.Valid() && Descending(blockstore.blocks)
      ensures complete <==> Backlog(blockstore.blocks, start).Some?
      ensures complete ==> Backlog(blockstore.blocks, start).value == Reversed(toExecute)
      ensures complete <==> exists way :: WayDown(blockstore.blocks, start, way)
    {
      hide WayDown;
      BacklogExactly(blockstore.blocks, start);
      toExecute := [];
      var v := start;
      NothingReversed();
      ThenNothing(Backlog(blockstore.blocks, start));
      while true
        invariant Backlog(blockstore.blocks, start) == Then(Backlog(blockstore.blocks, v), Reversed(toExecute))
        decreases v
      {
        var block := blockstore.Get(v);
        if block.None? {
          return false, toExecute;
        }
        var executed := blockstore.IsExecuted(v);
        if executed || block.value.justification.Genesis? {
          NothingThen(Reversed(toExecute));
          return true, toExecute;
        }
        var next := block.value.Accumulator().NamedView();
        ThenThen(Backlog(blockstore.blocks, next), [v], Reversed(toExecute));
        ReversedAppend(toExecute, v);
        toExecute := toExecute + [v];
        v := next;
      }
    }

    /** Executes a block after those of its ancestors that are left. A missing ancestor cancels everything. */
    method TryExecuteFrom(start: View)
      requires blockstore.Valid() && Descending(blockstore.blocks)
      modifies this`executedTransactions, this`delivery, blockstore
      ensures blockstore.Valid()
      ensures Backlog(old(blockstore.blocks), start).None? ==>
                blockstore.blocks == old(blockstore.blocks) && delivery == old(delivery) &&
                executedTransactions == old(executedTransactions)
      ensures Backlog(old(blockstore.blocks), start).Some? ==>
                var vs := Backlog(old(blockstore.blocks), start).value;
                && blockstore.blocks == MarkAll(old(blockstore.blocks), vs)
                && Delivery(executedTransactions, delivery)
                   == DeliverBlocks(old(Delivery(executedTransactions, delivery)), BlocksAt(old(blockstore.blocks), vs))
      ensures (exists way :: WayDown(old(blockstore.blocks), start, way)) ==> Grounded(blockstore.blocks, start)
      ensures !(exists way :: WayDown(old(blockstore.blocks), start, way)) ==> blockstore.blocks == old(blockstore.blocks)
    {
      hide WayDown;
      BacklogExactly(blockstore.blocks, start);
      if way :| WayDown(blockstore.blocks, start, way) {
        WayIsExecuted(blockstore.blocks, start, way);
      }
      var complete, toExecute := CollectBacklog(start);
      if complete {
        ExecuteAll(toExecute, start);
      }
    }

    /** Executes the given views, the last one first. */
    method ExecuteAll(toExecute: seq<View>, ghost start: View)
      requires blockstore.Valid() && Backlog(blockstore.blocks, start) == Some(Reversed(toExecute))
      modifies this`executedTransactions, this`delivery, blockstore
      ensures blockstore.Valid()
      ensures blockstore.blocks == MarkAll(old(blockstore.blocks), Reversed(toExecute))
      ensures Delivery(executedTransactions, delivery)
           == DeliverBlocks(old(Delivery(executedTransactions, delivery)), BlocksAt(old(blockstore.blocks), Reversed(toExecute)))
    {
      hide Backlog, DeliverAll, Mark;
      ghost var vs, store, before := Reversed(toExecute), blockstore.blocks, Delivery(executedTransactions, delivery);
      BacklogShape(store, start);
      var k := |toExecute|;
      while k > 0
        invariant 0 <= k <= |toExecute| && blockstore.Valid()
        invariant blockstore.blocks == MarkAll(store, vs[..|vs| - k])
        invariant Delivery(executedTransactions, delivery) == DeliverBlocks(before, BlocksAt(store, vs[..|vs| - k]))
      {
        k := k - 1;
        ghost var done := |vs| - k - 1;
        assert vs[done] == toExecute[k] && Unexecuted(store, vs[done]);
        ExecuteNext(store, before, vs, done);
        ExecuteBlock(toExecute[k]);
      }
      assert vs[..|vs|] == vs;
    }

    /** The view to execute from, when a block completes a chain of three. */
    method FindChain(block: Block) returns (start: Option<View>)
      requires blockstore.Valid() && block.justification.Quorum?
      ensures start == ChainStart(blockstore.blocks, block)
    {
      var justification := blockstore.Get(block.Accumulator().NamedView());
      if justification.None? {
        return None;
      }
      var j := justification.value;
      if j.justification.Genesis? {
        return None;
      }
      var grandJustification := blockstore.Get(j.Accumulator().NamedView());
      if grandJustification.None? {
        return None;
      }
      var g := grandJustification.value;
      if block.parent == ParentHash(j.Hash()) && j.parent == ParentHash(g.Hash()) {
        return Some(g.view);
      }
      return None;
    }

    /** Executes from the grandparent of a block on, when the three blocks form a chain. */
    method ExecuteChain(block: Block)
      requires Assembled() && Moving(Here(), sys) && block in sys.ledger && block.justification.Quorum?
      modifies this`executedTransactions, this`delivery, this`sys, blockstore
      ensures Assembled() && Moving(Here(), sys) && Evolves(old(sys), sys, me)
      ensures blockstore.blocks == StoreAfter(old(blockstore.blocks), block)
      ensures if ExecutionDue(old(blockstore.blocks), block)
              then Enabled(old(sys), Execute(me, block)) && sys == Next(old(sys), Execute(me, block))
              else sys == old(sys)
      ensures Delivery(executedTransactions, delivery)
           == DeliveredAfter(old(blockstore.blocks), block, old(Delivery(executedTransactions, delivery)))
    {
      hide Moving, InStep, Evolves, Enabled, Next, Reachable, Ascending, KeysOf, Backlog, MarkAll, DeliverBlocks, BlocksAt, Descending;
      ghost var l := Here();
      MovingInStep(l, sys);
      EvolvesNot(sys, me);
      var start := FindChain(block);
      if start.Some? {
        BacklogDescends(l, sys);
        TryExecuteFrom(start.value);
        if ExecutionDue(l.store, block) {
          ExecuteKeeps(l, sys, block);
          EvolvesOnce(sys, Execute(me, block));
          sys := Next(sys, Execute(me, block));
        }
      }
    }

    // -------------------------------------------------------------------------------------------
    // Voting for a block

    /** A commitment on its way to the leader of the view it is usable for. */
    function Vote(c: SignedCommitment): Envelope
      requires n > 0
    {
      VoteOf(n, me, c)
    }

    /** Has the enclave prepare the block of the current view and sends the vote to the next leader. */
    method PrepareBlock(block: Block, ghost proposal: Option<Step>) returns (prepare: SignedCommitment)
      requires Settled() && !callTryCreateBlock && view == block.view && Votable(sys, me, proposal, block)
      modifies this`sys, this`outbox, enclave
      ensures Assembled() && Moving(Here(), sys) && Evolves(old(sys), sys, me)
      ensures block in sys.ledger && prepare in sys.usigs && prepare.view == view && prepare.kind.Usig?
      ensures var step := BallotStep(me, proposal, block); Enabled(old(sys), step) && sys == Next(old(sys), step)
      ensures PreparedAs(old(enclave.State()), block, prepare) && enclave.State() == Prepared(old(enclave.State()), block).0
      ensures outbox == old(outbox) + [Vote(prepare)]
    {
      hide Synced, InStep, Moving, Evolves, Votable, Reachable, Enabled, Ascending, KeysOf, Spec.Prepare, Leader;
      ghost var l := Here();
      ghost var step := BallotFor(l, sys, proposal, block);
      var r := enclave.Prepare(block.view, block.Hash(), block.justification, block.parent, block.Accumulator().NamedHash());
      assert r.Success?;
      prepare := r.value;
      EvolvesOnce(sys, step);
      sys := Next(sys, step);
      MovingInStep(Here(), sys);
      SendKeeps(Here(), sys, Destination.Unicast(Leader(view + 1, n)), Commit(prepare));
      Unicast(Leader(prepare.UsableFor(), n), Commit(prepare));
    }

    /** The four handlers below call each other; each keeps the replica in line and uses up buffered messages. */
    twostate predicate Advances()
      reads this, Parts()
    {
      && Evolves(old(sys), sys, me)
      && Buffered() <= old(Buffered())
      && old(view) <= view
      && (old(Drained()) ==> Drained())
      && NothingLost(old(Here()), Here())
    }

    /** Stores a block whose view has passed. */
    method StoreOld(block: Block)
      requires Settled() && block.view < view && block in sys.ledger
      requires Lookup(blockstore.blocks, block.view).None? && block.view !in requestedBlocks
      modifies blockstore
      ensures Settled() && StoreGrows(old(blockstore.blocks), blockstore.blocks)
      ensures blockstore.blocks == Inserted(old(blockstore.blocks), block)
    {
      hide Synced, InStep, Moving, StoreGrows;
      InsertedGrows(blockstore.blocks, block);
      InsertOldKeeps(Here(), sys, block);
      blockstore.Insert(block);
    }

    /**
     * Stores a block. A block of the current view is voted for first, which may execute its
     * grandparent and takes the replica to the next view.
     */
    method AddAndPrepareBlock(block: Block, ghost proposal: Option<Step>) returns (r: Option<SignedCommitment>)
      requires Settled() && block.view <= view && Votable(sys, me, proposal, block)
      requires Lookup(blockstore.blocks, block.view).None? && block.view !in requestedBlocks
      requires proposal.Some? ==> !callTryCreateBlock && block.view == view
      modifies this, Parts()
      ensures Settled() && Advances()
      ensures Lookup(blockstore.blocks, block.view).Some? && Lookup(blockstore.blocks, block.view).value.block == block
      ensures block.view < old(view) ==>
                && r.None? && view == old(view) && sys == old(sys) && commitmentSenders == old(commitmentSenders)
                && OnlyBroadcasts(old(outbox), outbox)
      ensures block.view == old(view) ==>
                && view > old(view) && Drained() && Weight() <= old(Buffered())
                && StoreGrows(Inserted(StoreAfter(old(blockstore.blocks), block), block), blockstore.blocks)
                && block in sys.ledger && r.Some? && r.value in sys.usigs && r.value.kind.Usig? && r.value.view == block.view
                && Vote(r.value) in outbox
                && PreparedAs(old(enclave.State()), block, r.value)
                && (old(Buffered()) == 0 ==>
                      Accepted(old(Here()), old(sys), Here(), sys, BallotStep(me, proposal, block), block))
      decreases Buffered(), 4
    {
      hide Synced, InStep, Moving, Evolves, Reachable, Votable, StoreGrows, Named, ParentOk, Ascending, KeysOf, Appended, OnlyBroadcasts,
           Accepted, PreparedAs, Complete, NothingLost;
      SettledView(Here(), sys);
      VotableIsSound(sys, me, proposal, block);
      KnownVotable(sys, me, proposal, block);
      RequestMissing(block);
      StoreGrowsNot(blockstore.blocks);
      LosesNothing(old(Here()), Here());
      InsertedMeaning(StoreAfter(blockstore.blocks, block), block, block.view);
      InsertedMeaning(blockstore.blocks, block, block.view);
      if view != block.view {
        EvolvesNot(sys, me);
        StoreOld(block);
        LosesNothing(old(Here()), Here());
        return None;
      }
      ghost var stored := Inserted(StoreAfter(blockstore.blocks, block), block);
      ghost var l, k := old(Here()), Here();
      var prepare := VoteAndMove(block, proposal);
      if old(Buffered()) == 0 {
        AcceptedAfterRequests(l, k, old(sys), Here(), sys, BallotStep(me, proposal, block), block);
      }
      NothingLostFurther(l, k, Here());
      StoreGrowsAt(stored, blockstore.blocks, block.view);
      r := Some(prepare);
    }

    method VoteAndMove(block: Block, ghost proposal: Option<Step>) returns (prepare: SignedCommitment)
      requires Settled() && view == block.view && Votable(sys, me, proposal, block)
      requires proposal.Some? ==> !callTryCreateBlock
      requires block.view > 0 && block.justification.Quorum?
      modifies this, Parts()
      ensures Settled() && Advances() && Drained() && view > old(view) && Weight() <= old(Buffered())
      ensures StoreGrows(Inserted(StoreAfter(old(blockstore.blocks), block), block), blockstore.blocks)
      ensures block in sys.ledger && prepare in sys.usigs && prepare.kind.Usig? && prepare.view == block.view
      ensures Vote(prepare) in outbox && PreparedAs(old(enclave.State()), block, prepare)
      ensures old(Buffered()) == 0 ==> Accepted(old(Here()), old(sys), Here(), sys, BallotStep(me, proposal, block), block)
      decreases Buffered(), 3
    {
      hide Synced, InStep, Moving, Evolves, Reachable, Votable, StoreGrows, Ascending, KeysOf, Appended, VotesAs, Accepted, PreparedAs,
           NothingLost;
      prepare := VoteAndStore(block, proposal);
      label voted:
      ghost var k := Here();
      VoteThenEnter(old(Here()), old(sys), Here(), sys, BallotStep(me, proposal, block), block);
      MovingInStep(Here(), sys);
      AppendedOne(old(outbox), Vote(prepare));
      LosesNothing(old(Here()), k);
      RoundTransition();
      NothingLostFurther(old(Here()), k, Here());
      NothingLostParts(k, Here());
      StaysIssued(old@voted(sys), sys, me, block, prepare);
      EvolvesFurther(old(sys), old@voted(sys), sys, me);
    }

    /** Votes for the block of the current view, executes what it completes and stores it. */
    method VoteAndStore(block: Block, ghost proposal: Option<Step>) returns (prepare: SignedCommitment)
      requires Settled() && view == block.view && Votable(sys, me, proposal, block)
      requires proposal.Some? ==> !callTryCreateBlock
      requires block.view > 0 && block.justification.Quorum?
      modifies this`sys, this`outbox, this`executedTransactions, this`delivery, enclave, blockstore
      ensures Assembled() && Moving(Here(), sys) && Evolves(old(sys), sys, me)
      ensures blockstore.blocks == Inserted(StoreAfter(old(blockstore.blocks), block), block)
      ensures StoreGrows(old(blockstore.blocks), blockstore.blocks)
      ensures block in sys.ledger && prepare in sys.usigs && prepare.view == view && prepare.kind.Usig?
      ensures outbox == old(outbox) + [Vote(prepare)] && PreparedAs(old(enclave.State()), block, prepare)
      ensures VotesAs(old(Here()), old(sys), Here(), sys, BallotStep(me, proposal, block), block)
    {
      hide Synced, InStep, Moving, Evolves, Reachable, Votable, Enabled, Next, StoreGrows, Ascending, KeysOf, Prepared,
           VotesAs, PreparedAs, StoreAfter, DeliveredAfter, ExecutionDue;
      ViewIsFree(Here(), sys);
      if proposal.None? {
        KnownVotable(sys, me, proposal, block);
        ForeignViewIsQuiet(Here(), sys, block);
      }
      prepare := PrepareBlock(block, proposal);
      label prepared:
      MovingInStep(Here(), sys);
      ExecuteChain(block);
      StaysIssued(old@prepared(sys), sys, me, block, prepare);
      EvolvesFurther(old(sys), old@prepared(sys), sys, me);
      StoreAfterGrows(old(blockstore.blocks), block);
      InsertVotedKeeps(Here(), sys, block);
      InsertedGrows(blockstore.blocks, block);
      StoreGrowsFurther(old(blockstore.blocks), blockstore.blocks, Inserted(blockstore.blocks, block));
      blockstore.Insert(block);
      VotedStepwise(old(Here()), old(sys), old@prepared(sys), sys, BallotStep(me, proposal, block), block, prepare, Here());
    }

    /** Moves on to the view the enclave has reached, with the messages that were early for it. */
    method RoundTransition()
      requires Assembled() && Moving(Here(), sys)
      modifies this, Parts()
      ensures Settled() && Drained() && Evolves(old(sys), sys, me)
      ensures Buffered() <= old(Buffered()) && view > old(view) && Weight() <= old(Buffered())
      ensures NothingLost(old(Here()), Here())
      ensures forall b :: b in old(storedBlocks.buffer) && b.view <= view ==> Stored(blockstore.blocks, b)
      ensures forall c :: c in old(storedCommitments.buffer) && c.UsableFor() == view ==> c in commitments
      ensures old(Buffered()) == 0 ==> sys == old(sys) && Here() == EnteredLocal(old(Here()))
      decreases Buffered(), 2
    {
      hide Synced, InStep, Moving, Evolves, Reachable, Votable, StoreGrows, Ascending, KeysOf, Appended, NothingLost;
      EvolvesNot(sys, me);
      ghost var l := Here();
      var block := EnterView();
      ghost var k := Here();
      if block.Some? {
        KnownIsVotable(sys, me, block.value);
        var _ := AddAndPrepareBlock(block.value, None);
        EnteredBlockIsNotLost(l, k, Here());
      } else {
        EnteringLosesNothing(l);
      }
      label entered:
      ghost var entered := Here();
      DrainCommitments();
      NothingLostFurther(l, entered, Here());
      EvolvesFurther(old(sys), old@entered(sys), sys, me);
      NothingIsDue(l, Here(), sys);
    }

    /** Starts the next view and takes the buffered block that belongs to it. */
    method EnterView() returns (block: Option<Block>)
      requires Assembled() && Moving(Here(), sys)
      modifies this`view, this`commitments, this`commitmentSenders, storedBlocks
      ensures Settled() && view == old(view) + 1 && commitments == [] && commitmentSenders == {}
      ensures block.None? ==> Here() == EnteredLocal(old(Here()))
      ensures block.Some? ==>
                && block.value in sys.ledger && block.value.view == view
                && old(storedBlocks.buffer) != [] && block.value == old(storedBlocks.buffer)[0]
                && Here() == EnteredLocal(old(Here())).(waitingBlocks := old(storedBlocks.buffer)[1..])
                && Lookup(blockstore.blocks, view).None? && view !in requestedBlocks
    {
      hide Synced, InStep, Moving, Reachable, Ascending, KeysOf;
      ghost var l := Here();
      FirstBlockIsLeast(storedBlocks.buffer);
      view := view + 1;
      commitmentSenders := {};
      commitments := [];
      var head := storedBlocks.Peek();
      if head.Some? && head.value.view == view {
        EnterWithBlock(l, sys);
        block := storedBlocks.Pop();
        ViewIsFree(Here(), sys);
      } else {
        MovingBlocks(l, sys);
        EnterQuietly(l, sys);
        block := None;
      }
    }

    /** Uses or drops every buffered commitment that is not early any more. */
    method DrainCommitments()
      requires Settled()
      modifies this, Parts()
      ensures Settled() && Advances() && Drained() && Weight() <= old(Weight())
      ensures forall c :: c in old(storedCommitments.buffer) && c.UsableFor() == view ==> c in commitments
      ensures old(storedCommitments.buffer) == [] ==> sys == old(sys) && Here() == old(Here())
      decreases Buffered(), 1
    {
      hide Synced, InStep, Evolves, Reachable, StoreGrows, Ascending, KeysOf, Appended, NothingLost, Used, Leader;
      EvolvesNot(sys, me);
      NothingLostYet(Here());
      while true
        invariant Settled() && Evolves(old(sys), sys, me) && NothingLost(old(Here()), Here())
        invariant old(storedCommitments.buffer) == [] ==> sys == old(sys) && Here() == old(Here())
        invariant Buffered() <= old(Buffered()) && Weight() <= old(Weight()) && old(view) <= view
        decreases Buffered()
      {
        var head := storedCommitments.Peek();
        if head.None? || (head.value.UsableFor() > view && Leader(head.value.UsableFor(), n) == me) {
          FirstCommitmentIsLeast(storedCommitments.buffer, view);
          NothingIsDue(old(Here()), Here(), sys);
          return;
        }
        ghost var h, s := Here(), sys;
        UseFirst();
        EvolvesFurther(old(sys), s, sys, me);
        NothingLostFurther(old(Here()), h, Here());
      }
    }

    /** Takes the first buffered commitment, which is not early, and applies it unless it is late. */
    method UseFirst()
      requires Settled() && storedCommitments.buffer != []
      requires storedCommitments.buffer[0].UsableFor() <= view || Leader(storedCommitments.buffer[0].UsableFor(), n) != me
      modifies this, Parts()
      ensures Settled() && Evolves(old(sys), sys, me) && old(view) <= view && NothingLost(old(Here()), Here())
      ensures Buffered() < old(Buffered()) && Weight() <= old(Weight())
      decreases Buffered(), 0
    {
      hide Synced, InStep, Evolves, Reachable, StoreGrows, Ascending, KeysOf, Appended, NothingLost, Leader, Diverges;
      EvolvesNot(sys, me);
      var c := TakeCommitment();
      if c.UsableFor() == view && Leader(c.UsableFor(), n) == me {
        SettledView(Here(), sys);
        NeverDiverges(Here(), sys, c);
        CollectedIs(Here(), sys, c);
        ApplyCommitment(c);
      } else {
        NothingLostYet(Here());
      }
      TakenCommitmentIsNotLost(old(Here()), Here());
    }

    method TakeCommitment() returns (c: SignedCommitment)
      requires Settled() && storedCommitments.buffer != []
      modifies storedCommitments
      ensures Settled() && c == old(storedCommitments.buffer)[0] && c in sys.usigs && Leader(c.UsableFor(), n) == me
      ensures storedCommitments.buffer == old(storedCommitments.buffer)[1..]
    {
      hide Synced, InStep, Ascending, KeysOf, Reachable, Leader;
      SettledView(Here(), sys);
      TakeCommitmentKeeps(Here(), sys);
      var head := storedCommitments.Pop();
      c := head.value;
    }

    /** Collects a commitment for the current view and proposes once there is a quorum of them. */
    method ApplyCommitment(c: SignedCommitment)
      requires Settled() && c in sys.usigs && c.UsableFor() == view && Leader(view, n) == me
      modifies this, Parts()
      ensures Settled() && Advances()
      ensures c.creator in old(commitmentSenders) || old(Diverges(blockstore.blocks, c)) ==> Here() == old(Here()) && sys == old(sys)
      ensures !(c.creator in old(commitmentSenders) || old(Diverges(blockstore.blocks, c))) ==>
                && (view > old(view) || commitments == old(commitments) + [c])
                && (old(Buffered()) == 0 ==> TakenIn(old(Here()), old(sys), Here(), sys, c))
      ensures view > old(view) ==> |old(commitments)| + 1 >= quorum && Weight() <= old(Buffered())
      ensures Weight() <= old(Weight()) + (if c.creator == me then 0 else 1)
      ensures view == old(view) ==> outbox == old(outbox) && sys == old(sys)
      ensures view == old(view) && commitments != old(commitments) ==>
                callTryCreateBlock == (|commitments| >= quorum || old(callTryCreateBlock))
      decreases Buffered(), 8
    {
      hide Synced, InStep, Evolves, Reachable, Ascending, KeysOf, NothingLost, TakenIn, Leader;
      EvolvesNot(sys, me);
      NothingLostYet(Here());
      if c.creator in commitmentSenders {
        return;
      }
      var stored := blockstore.Get(c.NamedView());
      if stored.Some? && c.NamedHash() != stored.value.Hash() {
        return;
      }
      CountCommitment(c);
    }

    method CountCommitment(c: SignedCommitment)
      requires Settled() && c in sys.usigs && c.UsableFor() == view && Leader(view, n) == me && c.creator !in commitmentSenders
      modifies this, Parts()
      ensures Settled() && Advances()
      ensures view > old(view) || commitments == old(commitments) + [c]
      ensures view > old(view) ==> |old(commitments)| + 1 >= quorum && Weight() <= old(Buffered())
      ensures Weight() <= old(Weight()) + (if c.creator == me then 0 else 1)
      ensures view == old(view) ==> outbox == old(outbox) && sys == old(sys)
      ensures old(Buffered()) == 0 ==> TakenIn(old(Here()), old(sys), Here(), sys, c)
      ensures view == old(view) && commitments != old(commitments) ==>
                callTryCreateBlock == (|commitments| >= quorum || old(callTryCreateBlock))
      decreases Buffered(), 7
    {
      hide Synced, InStep, Evolves, Reachable, Ascending, KeysOf, NothingLost, TakenIn, Leader;
      EvolvesNot(sys, me);
      Collect(c);
      CollectingLosesNothing(old(Here()), c);
      if |commitments| < quorum {
        TakenInFirst(old(Here()), sys, c);
        return;
      }
      ghost var k := Here();
      ProposeOrWait();
      NothingLostFurther(old(Here()), k, Here());
      if old(Buffered()) == 0 {
        TakenInLast(old(Here()), old(sys), Here(), sys, c);
      }
    }

    /** Proposes at once, or waits for more client requests or for the timer. */
    method ProposeOrWait()
      requires Settled() && view > 0 && Leader(view, n) == me && |commitments| >= quorum
      modifies this, Parts()
      ensures Settled() && Advances() && Decided(old(Here()), old(sys), Here(), sys)
      ensures view > old(view) ==> Weight() <= old(Buffered())
      decreases Buffered(), 6
    {
      hide Synced, InStep, Evolves, Reachable, Ascending, KeysOf, StoreGrows, Appended, Proposed, NothingLost;
      EvolvesNot(sys, me);
      StoreGrowsNot(blockstore.blocks);
      AppendedNot(outbox);
      var propose: bool := *;
      if propose {
        CreateBlock();
      } else {
        AskKeeps(Here(), sys, true);
        callTryCreateBlock := true;
        LosesNothing(old(Here()), Here());
      }
    }

    method Collect(c: SignedCommitment)
      requires Settled() && c in sys.usigs && c.UsableFor() == view && Leader(view, n) == me && c.creator !in commitmentSenders
      modifies this`commitments, this`commitmentSenders
      ensures Settled() && Here() == CollectedLocal(old(Here()), c)
      ensures Weight() == old(Weight()) + if c.creator == me then 0 else 1
    {
      hide Synced, InStep, Reachable, Ascending, KeysOf;
      CollectKeeps(Here(), sys, c);
      assert commitmentSenders + {c.creator} - {me} == commitmentSenders - {me} + ({c.creator} - {me});
      commitmentSenders := commitmentSenders + {c.creator};
      commitments := commitments + [c];
    }

    /** Proposes a block for the current view from the commitments collected. */
    method CreateBlock()
      requires Settled() && view > 0 && Leader(view, n) == me && |commitments| >= quorum
      modifies this, Parts()
      ensures Settled() && Advances() && Drained() && view > old(view) && Weight() <= old(Buffered())
      ensures outbox != [] && var e := outbox[|outbox| - 1];
              e.destination.Broadcast? && e.message.NewBlock? && e.message.block.view == old(view) && e.message.block.creator == me
      ensures old(Buffered()) == 0 ==> Proposed(old(Here()), old(sys), Here(), sys)
      decreases Buffered(), 5
    {
      hide Synced, InStep, Evolves, Votable, Reachable, StoreGrows, Ascending, KeysOf, Appended, Accepted, PreparedAs, Proposed, NothingLost;
      ghost var step;
      var block;
      block, step := MakeBlock();
      ghost var cs, made := commitments, Here();
      PermutingLosesNothing(old(Here()), cs);
      var prepare := AddAndPrepareBlock(block, Some(step));
      assert prepare.Some? && prepare.value.kind.Usig?;
      if old(Buffered()) == 0 {
        AcceptedIsProposed(old(Here()), old(sys), cs, block.transactions, Here(), sys, block, prepare.value);
      }
      ghost var voted := Here();
      NothingLostFurther(old(Here()), made, voted);
      Announce(block, prepare.value);
      StoreGrowsNot(blockstore.blocks);
      LosesNothing(voted, Here());
      NothingLostFurther(old(Here()), voted, Here());
    }

    method Announce(block: Block, prepare: SignedCommitment)
      requires Settled() && block in sys.ledger && prepare in sys.usigs
      modifies this`outbox
      ensures Settled() && Here() == AnnouncedLocal(old(Here()), block, prepare) && Appended(old(outbox), outbox)
    {
      hide Synced, InStep, Reachable, Ascending, KeysOf, Appended;
      SettledView(Here(), sys);
      SendKeeps(Here(), sys, Destination.Broadcast, NewBlock(block, prepare));
      AppendedOne(outbox, Envelope(Destination.Broadcast, me, NewBlock(block, prepare)));
      Broadcast(NewBlock(block, prepare));
    }

    /** A transaction whose client has had no request with the same or a higher id executed. */
    predicate StillNew(tx: Transaction)
      reads this
    {
      Undelivered(executedTransactions, tx)
    }

    /** Keeps the pending transactions that are still new, in their order. */
    method FilterFront(front: seq<Transaction>) returns (kept: seq<Transaction>)
      ensures kept == Remaining(executedTransactions, front)
      ensures forall tx :: tx in kept <==> tx in front && StillNew(tx)
    {
      kept := [];
      for k := 0 to |front|
        invariant kept == Remaining(executedTransactions, front[..k])
        invariant forall tx :: tx in kept <==> tx in front[..k] && StillNew(tx)
      {
        assert front[..k + 1][..k] == front[..k];
        if StillNew(front[k]) {
          kept := kept + [front[k]];
        }
      }
      assert front[..|front|] == front;
    }

    /** The proposal for the current view: an accumulator, the block of the view before and transactions. */
    method MakeBlock() returns (block: Block, ghost step: Step)
      requires Settled() && view > 0 && Leader(view, n) == me && |commitments| >= quorum
      modifies this`callTryCreateBlock, this`commitments
      ensures Settled() && multiset(commitments) == multiset(old(commitments))
      ensures Here() == old(Here()).(mayPropose := false, commitments := commitments)
      ensures forall tx :: tx in block.transactions ==> StillNew(tx)
      ensures Votable(sys, me, Some(step), block) && block.view == view && block.creator == me
      ensures block.parent == StoredParent(blockstore.blocks, view)
      ensures step == Propose(me, commitments, block.parent, block.transactions)
      ensures Lookup(blockstore.blocks, view).None? && view !in requestedBlocks
    {
      hide Synced, InStep, Votable, Reachable, Ascending, KeysOf, SortedByLock, Spec.Accumulate;
      AskKeeps(Here(), sys, false);
      callTryCreateBlock := false;
      var sorted := SortByPreparedView(commitments);
      PermuteKeeps(Here(), sys, sorted);
      PermutedCreators(commitments, sorted);
      commitments := sorted;
      ViewIsFree(Here(), sys);
      SettledView(Here(), sys);
      var front: seq<Transaction> := *;
      var transactions := FilterFront(front);
      ReadyToPropose(Here(), sys, transactions);
      var accumulator := enclave.Accumulate(commitments);
      assert accumulator.Success?;
      var parentBlock := blockstore.Get(view - 1);
      var parent := if parentBlock.Some? then ParentHash(parentBlock.value.Hash()) else NoParent;
      block := Block(me, view, Quorum(accumulator.value), parent, transactions);
      step := Propose(me, commitments, parent, transactions);
    }

    method SortByPreparedView(cs: seq<SignedCommitment>) returns (sorted: seq<SignedCommitment>)
      ensures multiset(sorted) == multiset(cs) && SortedByLock(sorted)
    {
      sorted := [];
      for k := 0 to |cs|
        invariant multiset(sorted) == multiset(cs[..k]) && SortedByLock(sorted)
      {
        assert cs[..k + 1] == cs[..k] + [cs[k]];
        sorted := InsertByPreparedView(sorted, cs[k]);
      }
      assert cs[..|cs|] == cs;
    }

    method InsertByPreparedView(sorted: seq<SignedCommitment>, c: SignedCommitment) returns (r: seq<SignedCommitment>)
      requires SortedByLock(sorted)
      ensures multiset(r) == multiset(sorted) + multiset{c} && SortedByLock(r)
    {
      var i := 0;
      while i < |sorted| && sorted[i].preparedView <= c.preparedView
        invariant 0 <= i <= |sorted|
        invariant forall j :: 0 <= j < i ==> sorted[j].preparedView <= c.preparedView
      {
        i := i + 1;
      }
      InsertedByLock(sorted, i, c);
      r := sorted[..i] + [c] + sorted[i..];
    }

    // -------------------------------------------------------------------------------------------
    // Start and timers

    /** Between two handler calls the replica is settled in its view and holds only early messages. */
    ghost predicate Ready()
      reads this, Parts()
    {
      Settled() && Drained()
    }

    /** What the replica delivered stays delivered. */
    lemma SettledStays(before: Local, s: System)
      requires Settled() && Synced(before, s) && before.me == me && Evolves(s, sys, me)
      ensures before.delivered.log <= delivery && before.enclave.peers <= enclave.peers
    {
      hide Synced, InStep, Evolves, Reachable, Ascending, KeysOf;
      SettledView(before, s);
      SettledView(Here(), sys);
      DeliveredStays(before, s, Here(), sys);
    }

    /** Adds the key of a peer; a key that is there already is reported as such. */
    method AddPeerKey(peer: ReplicaId, key: ReplicaId) returns (added: bool)
      requires Ready() && peer < n && key == peer
      modifies this`peersAdded, this`sys, enclave
      ensures Ready() && Evolves(old(sys), sys, me) && sys.n == n
      ensures enclave.peers == old(enclave.peers) + {peer}
      ensures added <==> peer !in old(enclave.peers)
      ensures added ==> view == 0 && peersAdded == old(peersAdded) + 1
      ensures added ==> JoinedAs(old(Here()), old(sys), Here(), sys, peer)
      ensures added && peersAdded == n ==> enclave.peers == Replicas(n)
      ensures !added ==> sys == old(sys) && peersAdded == old(peersAdded) && enclave.State() == old(enclave.State())
    {
      hide Synced, InStep, Evolves, Reachable, Ascending, KeysOf, Enabled, Next, JoinedAs;
      ghost var l := Here();
      SettledView(l, sys);
      EvolvesNot(sys, me);
      if peer !in enclave.peers {
        PeerKeeps(l, sys, peer);
      }
      var r := enclave.AddPeer(peer, key);
      added := r.Success?;
      if added {
        peersAdded := peersAdded + 1;
        EvolvesOnce(sys, Join(me, peer));
        sys := Next(sys, Join(me, peer));
        SettledView(Here(), sys);
      } else {
        assert r.error == Spec.DoubleKeyReceived;
        assert enclave.peers == old(enclave.peers) + {peer};
      }
    }

    method InitHandshake()
      requires Ready() && me !in enclave.peers
      modifies this, enclave
      ensures Ready() && Evolves(old(sys), sys, me) && view == old(view) && me in enclave.peers
      ensures var sent := [Envelope(Destination.Broadcast, me, Handshake(me))];
              && outbox == old(outbox) + sent
              && JoinedAs(old(Here()), old(sys), Here().(outbox := old(outbox)), sys, me)
      ensures NothingLost(old(Here()), Here()) && SentToSelf(old(Here()), Here()) == []
    {
      hide Synced, InStep, Evolves, Reachable, Ascending, KeysOf, NothingLost;
      var added := AddPeerKey(me, me);
      assert added;
      SettledView(Here(), sys);
      SendKeeps(Here(), sys, Destination.Broadcast, Handshake(me));
      Broadcast(Handshake(me));
      StoreGrowsNot(blockstore.blocks);
      LosesNothing(old(Here()), Here());
      NothingToSelf(old(outbox), outbox, me);
    }

    /** Gives up on the current view: re-signs the last prepared block for the leader of the next one. */
    method NewView()
      requires Settled() && !callTryCreateBlock && enclave.peers == Replicas(n)
      modifies this, Parts()
      ensures Ready() && Evolves(old(sys), sys, me) && view > old(view)
      ensures NothingLost(old(Here()), Here()) && Buffered() <= old(Buffered())
      ensures Vote(Spec.ReSignLastPrepared(old(enclave.State())).1.value) in outbox
      ensures old(Buffered()) == 0 ==> LeftAs(old(Here()), old(sys), Here(), sys)
    {
      hide Synced, InStep, Moving, Evolves, Reachable, Ascending, KeysOf, StoreGrows, Appended, NothingLost, Leader;
      TimeOutMoves(Here(), sys);
      var r := enclave.ReSignLastPrepared();
      assert r.Success?;
      EvolvesOnce(sys, TimeOut(me));
      sys := Next(sys, TimeOut(me));
      MovingInStep(Here(), sys);
      SendKeeps(Here(), sys, Destination.Unicast(Leader(r.value.UsableFor(), n)), Commit(r.value));
      Unicast(Leader(r.value.UsableFor(), n), Commit(r.value));
      AppendedOne(old(outbox), Vote(r.value));
      StoreGrowsNot(blockstore.blocks);
      LosesNothing(old(Here()), Here());
      label signed:
      ghost var k := Here();
      RoundTransition();
      NothingLostFurther(old(Here()), k, Here());
      NothingLostParts(k, Here());
      EvolvesFurther(old(sys), old@signed(sys), sys, me);
    }

    method ProcessHandshake(from: ReplicaId, key: ReplicaId)
      requires Ready() && from < n && key == from
      modifies this, Parts()
      ensures Ready() && Evolves(old(sys), sys, me) && NothingLost(old(Here()), Here())
      ensures from in old(enclave.peers) ==> view == old(view) && sys == old(sys)
      ensures from !in old(enclave.peers) ==> old(view) == 0 && (view > 0 <==> old(peersAdded) + 1 == n)
      ensures enclave.peers == old(enclave.peers) + {from}
      ensures from !in old(enclave.peers) && old(peersAdded) + 1 < n ==> JoinedAs(old(Here()), old(sys), Here(), sys, from)
      ensures from !in old(enclave.peers) && old(peersAdded) + 1 == n && old(Buffered()) == 0 ==>
                StartedAs(old(Here()), old(sys), Here(), sys, from)
    {
      hide Synced, InStep, Evolves, Reachable, Ascending, KeysOf, StoreGrows, Appended, LeftAs, NothingLost;
      AppendedNot(outbox);
      StoreGrowsNot(blockstore.blocks);
      var added := AddPeerKey(from, key);
      LosesNothing(old(Here()), Here());
      if added && peersAdded == n {
        StartIsQuiet(Here(), sys);
        label joined:
        ghost var k := Here();
        NewView();
        NothingLostFurther(old(Here()), k, Here());
        PeersOfSettled(Here(), sys);
        EvolvesFurther(old(sys), old@joined(sys), sys, me);
      }
    }

    /** The view timer is first set when the replica leaves view 0, with the keys of all peers. */
    method HandleViewTimeout()
      requires Ready() && (view > 0 || Leader(view, n) == me || enclave.peers == Replicas(n))
      modifies this, Parts()
      ensures Ready() && Evolves(old(sys), sys, me) && NothingLost(old(Here()), Here())
      ensures Leader(old(view), n) == me ==> Here() == old(Here()) && sys == old(sys)
      ensures Leader(old(view), n) != me ==> view > old(view)
      ensures old(delivery) <= delivery
    {
      hide Synced, InStep, Evolves, Reachable, Ascending, KeysOf, NothingLost;
      NothingLostYet(Here());
      EvolvesNot(sys, me);
      if Leader(view, n) == me {
        return;
      }
      FollowerIsQuiet(Here(), sys);
      if view > 0 {
        PeersOfSettled(Here(), sys);
      }
      ghost var before, s := Here(), sys;
      NewView();
      SettledStays(before, s);
    }

    method HandleBlockTimeout()
      requires Ready()
      modifies this, Parts()
      ensures Ready() && Evolves(old(sys), sys, me) && NothingLost(old(Here()), Here())
      ensures if old(callTryCreateBlock) then view > old(view) else Here() == old(Here()) && sys == old(sys)
      ensures old(callTryCreateBlock) && old(Buffered()) == 0 ==> Proposed(old(Here()), old(sys), Here(), sys)
      ensures old(delivery) <= delivery
    {
      hide Synced, InStep, Evolves, Reachable, Ascending, KeysOf, NothingLost;
      NothingLostYet(Here());
      EvolvesNot(sys, me);
      if callTryCreateBlock {
        MayPropose(Here(), sys);
        ghost var before, s := Here(), sys;
        CreateBlock();
        SettledStays(before, s);
      }
    }

    /** A client request may complete the block the replica has a quorum for. */
    method ReceiveClientRequest()
      requires Ready()
      modifies this, Parts()
      ensures Ready() && Evolves(old(sys), sys, me) && NothingLost(old(Here()), Here())
      ensures view > old(view) || (Here() == old(Here()) && sys == old(sys))
      ensures view > old(view) ==> old(callTryCreateBlock)
      ensures old(delivery) <= delivery
    {
      hide Synced, InStep, Evolves, Reachable, Ascending, KeysOf, NothingLost;
      NothingLostYet(Here());
      EvolvesNot(sys, me);
      var enough: bool := *;
      if callTryCreateBlock && enough {
        MayPropose(Here(), sys);
        ghost var before, s := Here(), sys;
        CreateBlock();
        SettledStays(before, s);
      }
    }

    // -------------------------------------------------------------------------------------------
    // Messages from peers

    /** A proposal with a proper accumulator and the leader's vote for it. */
    ghost predicate Acceptable(block: Block, prepare: SignedCommitment)
      reads this, enclave
    {
      AcceptableTo(enclave.State(), block, prepare)
    }

    method CheckProposal(block: Block, prepare: SignedCommitment) returns (ok: bool)
      ensures ok == Acceptable(block, prepare)
    {
      if block.justification.Genesis? {
        return false;
      }
      var accumulator := block.Accumulator();
      if !accumulator.kind.Accumulator? || accumulator.UsableFor() != block.view {
        return false;
      }
      var accumulatorOk := enclave.VerifyUntrusted(accumulator);
      if !accumulatorOk {
        return false;
      }
      if !prepare.kind.Usig? || !prepare.phase.Prepare? || prepare.NamedHash() != block.Hash() || prepare.view != block.view {
        return false;
      }
      ok := enclave.VerifyUntrusted(prepare);
    }

    /** Answers peers that asked for a block before the replica had it. */
    method AnswerOpenRequests(block: Block)
      requires Settled() && block in sys.ledger
      modifies this`openBlockRequests, this`outbox
      ensures Settled() && openBlockRequests == old(openBlockRequests) - {block.view}
      ensures block.view !in old(openBlockRequests) ==> Here() == old(Here())
      ensures block.view in old(openBlockRequests) ==>
                forall to :: to in old(openBlockRequests)[block.view] ==>
                  Envelope(Destination.Unicast(to), me, RequestedBlock(block)) in outbox
      ensures NothingLost(old(Here()), Here())
    {
      hide Synced, InStep, Reachable, Ascending, KeysOf, NothingLost;
      NothingLostYet(Here());
      if block.view in openBlockRequests {
        var waiting := openBlockRequests[block.view];
        ghost var asked := waiting;
        OpenKeeps(Here(), sys, openBlockRequests - {block.view});
        openBlockRequests := openBlockRequests - {block.view};
        while waiting != {}
          modifies this`outbox
          invariant Settled() && waiting <= asked && old(outbox) <= outbox
          invariant forall to :: to in asked - waiting ==> Envelope(Destination.Unicast(to), me, RequestedBlock(block)) in outbox
        {
          var to :| to in waiting;
          waiting := waiting - {to};
          SettledView(Here(), sys);
          SendKeeps(Here(), sys, Destination.Unicast(to), RequestedBlock(block));
          Unicast(to, RequestedBlock(block));
        }
        AnsweringLosesNothing(old(Here()), block, Here());
      }
    }

    /** Keeps a block of a later view for when the replica gets there. */
    method BufferBlock(block: Block)
      requires Ready() && block in sys.ledger && block.view > view
      modifies storedBlocks
      ensures Ready() && NothingLost(old(Here()), Here())
      ensures forall b :: b in storedBlocks.buffer <==> b in old(storedBlocks.buffer) || b == block
    {
      hide Synced, InStep, Reachable, Ascending, KeysOf, NothingLost;
      ghost var l := Here();
      NothingLostYet(l);
      SettledView(l, sys);
      var known := storedBlocks.Knows(block);
      if known {
        ghost var d :| d in storedBlocks.buffer && storedBlocks.key(d) == storedBlocks.key(block);
        WaitingBlockIs(l, sys, block, d);
        return;
      }
      storedBlocks.Insert(block);
      KeepBlockKeeps(l, sys, block, storedBlocks.buffer);
      forall b ensures b in storedBlocks.buffer <==> b in old(storedBlocks.buffer) || b == block {
        assert b in storedBlocks.buffer <==> b in multiset(storedBlocks.buffer);
      }
      BufferingLosesNothing(l, storedBlocks.buffer, l.waitingCommitments);
    }

    method ForgetRequest(v: View)
      requires Ready()
      modifies this`requestedBlocks
      ensures Ready() && requestedBlocks == old(requestedBlocks) - {v}
      ensures v !in old(requestedBlocks) ==> Here() == old(Here())
    {
      hide Synced, InStep, Reachable, Ascending, KeysOf;
      SettledView(Here(), sys);
      ForgetRequestKeeps(Here(), sys, v);
      assert v !in requestedBlocks ==> requestedBlocks - {v} == requestedBlocks;
      requestedBlocks := requestedBlocks - {v};
    }

    /**
     * Takes in a proposal. A block of the current view is voted for, an early one is buffered, and
     * a late one is stored unless it is there already.
     */
    method ProcessBlock(block: Block, prepare: SignedCommitment)
      requires Ready() && block in sys.ledger
      modifies this, Parts()
      ensures Ready() && Evolves(old(sys), sys, me) && NothingLost(old(Here()), Here())
      ensures view >= old(view)
      ensures old(Acceptable(block, prepare)) && block.view > old(view) ==> view == old(view) && block in storedBlocks.buffer
      ensures old(Acceptable(block, prepare)) && block.view <= old(view) ==>
                Lookup(blockstore.blocks, block.view).Some? && Lookup(blockstore.blocks, block.view).value.block == block
      ensures old(Acceptable(block, prepare)) && block.view == old(view) ==> view > old(view)
      ensures old(Acceptable(block, prepare)) && block.view == old(view) && old(Buffered()) == 0 &&
              block.view !in old(openBlockRequests) ==>
                Accepted(old(Here()), old(sys), Here(), sys, Step.Vote(me, block), block)
      ensures !old(Acceptable(block, prepare)) ==> Here() == old(Here()) && sys == old(sys)
    {
      hide Synced, InStep, Evolves, Reachable, Ascending, KeysOf, NothingLost, Acceptable, Votable, Accepted;
      NothingLostYet(Here());
      EvolvesNot(sys, me);
      SettledView(Here(), sys);
      if block.view < view {
        var existing := blockstore.Get(block.view);
        if existing.Some? {
          StoredBlockIs(Here(), sys, block);
          assert existing.value.Hash() == block.Hash();
          return;
        }
      }
      var ok := CheckProposal(block, prepare);
      if !ok {
        return;
      }
      AdmitBlock(block);
    }

    /** Takes in a block that passed the checks. */
    method AdmitBlock(block: Block)
      requires Ready() && block in sys.ledger
      requires block.view < view ==> Lookup(blockstore.blocks, block.view).None?
      modifies this, Parts()
      ensures Ready() && Evolves(old(sys), sys, me) && NothingLost(old(Here()), Here())
      ensures view >= old(view) && (block.view == old(view) ==> view > old(view))
      ensures block.view > old(view) ==> view == old(view) && block in storedBlocks.buffer
      ensures block.view == old(view) && old(Buffered()) == 0 && block.view !in old(openBlockRequests) ==>
                Accepted(old(Here()), old(sys), Here(), sys, Step.Vote(me, block), block)
      ensures block.view <= old(view) ==>
                Lookup(blockstore.blocks, block.view).Some? && Lookup(blockstore.blocks, block.view).value.block == block
    {
      hide Synced, InStep, Evolves, Reachable, Ascending, KeysOf, NothingLost, Votable, Accepted, Appended, StoreGrows;
      SettledView(Here(), sys);
      if block.view == view {
        KnownIsVotable(sys, me, block);
        VotableIsSound(sys, me, None, block);
        ViewIsFree(Here(), sys);
      }
      AnswerOpenRequests(block);
      ghost var answered := Here();
      ForgetRequest(block.view);
      ghost var forgotten := Here();
      StoreGrowsNot(blockstore.blocks);
      AppendedNot(outbox);
      LosesNothing(answered, forgotten);
      NothingLostFurther(old(Here()), answered, forgotten);
      TakeBlock(block);
      NothingLostFurther(old(Here()), forgotten, Here());
    }

    /** Buffers, votes for or stores a block the replica does not have yet. */
    method TakeBlock(block: Block)
      requires Ready() && block in sys.ledger && block.view !in requestedBlocks
      requires block.view < view ==> Lookup(blockstore.blocks, block.view).None?
      modifies this, Parts()
      ensures Ready() && Evolves(old(sys), sys, me) && NothingLost(old(Here()), Here())
      ensures view >= old(view) && (block.view == old(view) ==> view > old(view))
      ensures block.view > old(view) ==> view == old(view) && block in storedBlocks.buffer
      ensures block.view == old(view) && old(Buffered()) == 0 ==>
                Accepted(old(Here()), old(sys), Here(), sys, Step.Vote(me, block), block)
      ensures block.view <= old(view) ==>
                Lookup(blockstore.blocks, block.view).Some? && Lookup(blockstore.blocks, block.view).value.block == block
    {
      hide Synced, InStep, Evolves, Reachable, Ascending, KeysOf, NothingLost, Votable;
      EvolvesNot(sys, me);
      if block.view > view {
        BufferBlock(block);
        return;
      }
      SettledView(Here(), sys);
      KnownIsVotable(sys, me, block);
      VotableIsSound(sys, me, None, block);
      ViewIsFree(Here(), sys);
      var _ := AddAndPrepareBlock(block, None);
    }

    /** Handling an own message sends nothing to the replica itself, unless it uses up weight. */
    twostate predicate Reflects()
      reads this, Parts()
    {
      && Weight() <= old(Weight())
      && (view == old(view) ==> OnlyBroadcasts(old(outbox), outbox))
      && (view != old(view) && n > 1 ==> Weight() < old(Weight()))
      && (old(view) == 0 ==> view == 0)
    }

    /** A commitment that may count for a proposal of this replica. */
    ghost predicate Countable(from: ReplicaId, c: SignedCommitment)
      reads this, enclave
    {
      CountableBy(n, me, view, enclave.State(), from, c)
    }

    /** Takes in a commitment for a view this replica leads: an early one is buffered, a timely one collected. */
    method ProcessCommitment(from: ReplicaId, c: SignedCommitment)
      requires Ready() && Issued(sys, c)
      modifies this, Parts()
      ensures Ready() && Evolves(old(sys), sys, me) && NothingLost(old(Here()), Here())
      ensures !old(Countable(from, c)) ==> Here() == old(Here()) && sys == old(sys)
      ensures old(Countable(from, c)) && c.UsableFor() > old(view) ==>
                view == old(view) && sys == old(sys) && c in storedCommitments.buffer
      ensures old(Countable(from, c)) && c.UsableFor() == old(view) ==> view > old(view) || c in commitments
      ensures old(Countable(from, c)) && c.UsableFor() == old(view) && c.creator !in old(commitmentSenders) &&
              old(Buffered()) == 0 ==>
                TakenIn(old(Here()), old(sys), Here(), sys, c)
      ensures from == me ==> Reflects()
      ensures view >= old(view)
    {
      hide Synced, InStep, Evolves, Reachable, Ascending, KeysOf, NothingLost, Issued, TakenIn, Leader;
      NothingLostYet(Here());
      EvolvesNot(sys, me);
      if from != c.creator || c.UsableFor() < view {
        return;
      }
      var verified := enclave.VerifyUntrusted(c);
      if !verified || Leader(c.UsableFor(), n) != me || !c.kind.Usig? {
        return;
      }
      SettledView(Here(), sys);
      IssuedUsig(sys, c);
      AdmitCommitment(c);
    }

    /** Takes in a commitment that passed the checks. */
    method AdmitCommitment(c: SignedCommitment)
      requires Ready() && c in sys.usigs && c.UsableFor() >= view && Leader(c.UsableFor(), n) == me
      modifies this, Parts()
      ensures Ready() && Evolves(old(sys), sys, me) && NothingLost(old(Here()), Here())
      ensures c.UsableFor() > old(view) ==> view == old(view) && sys == old(sys) && c in storedCommitments.buffer
      ensures c.UsableFor() == old(view) ==> view > old(view) || c in commitments
      ensures c.UsableFor() == old(view) && c.creator !in old(commitmentSenders) && old(Buffered()) == 0 ==>
                TakenIn(old(Here()), old(sys), Here(), sys, c)
      ensures c.creator == me ==> Reflects()
      ensures view >= old(view)
    {
      hide Synced, InStep, Evolves, Reachable, Ascending, KeysOf, NothingLost, TakenIn, Leader, Diverges;
      EvolvesNot(sys, me);
      SettledView(Here(), sys);
      if c.creator == me {
        OwnIsNotEarly(Here(), sys, c);
      }
      if c.UsableFor() > view {
        BufferCommitment(c);
        return;
      }
      NeverDiverges(Here(), sys, c);
      CollectedIs(Here(), sys, c);
      if c.creator == me && n > 1 && me !in commitmentSenders && |commitments| + 1 >= quorum {
        OthersCollected(Here(), sys);
      }
      ApplyCommitment(c);
    }

    method BufferCommitment(c: SignedCommitment)
      requires Ready() && c in sys.usigs && c.UsableFor() > view && Leader(c.UsableFor(), n) == me
      modifies storedCommitments
      ensures Ready() && NothingLost(old(Here()), Here())
      ensures forall x :: x in storedCommitments.buffer <==> x in old(storedCommitments.buffer) || x == c
    {
      hide Synced, InStep, Reachable, Ascending, KeysOf, NothingLost;
      ghost var l := Here();
      NothingLostYet(l);
      SettledView(l, sys);
      var known := storedCommitments.Knows(c);
      if known {
        ghost var d :| d in storedCommitments.buffer && storedCommitments.key(d) == storedCommitments.key(c);
        WaitingCommitmentIs(l, sys, c, d);
        return;
      }
      storedCommitments.Insert(c);
      KeepCommitmentKeeps(l, sys, c, storedCommitments.buffer);
      forall x ensures x in storedCommitments.buffer <==> x in old(storedCommitments.buffer) || x == c {
        assert x in storedCommitments.buffer <==> x in multiset(storedCommitments.buffer);
      }
      BufferingLosesNothing(l, l.waitingBlocks, storedCommitments.buffer);
    }

    /** Answers with a stored or buffered block, or remembers who asked. */
    method ProcessBlockRequest(from: ReplicaId, v: View)
      requires Ready()
      modifies this`outbox, this`openBlockRequests
      ensures Ready()
      ensures (exists b :: outbox == old(outbox) + [Envelope(Destination.Unicast(from), me, RequestedBlock(b))] && b.view == v
                           && Known(sys.ledger, b) && openBlockRequests == old(openBlockRequests))
              || (outbox == old(outbox) && openBlockRequests == old(openBlockRequests)[v :=
                    (if v in old(openBlockRequests) then old(openBlockRequests)[v] else {}) + {from}])
      ensures outbox != old(outbox) <==>
                Lookup(blockstore.blocks, v).Some? || exists b :: b in storedBlocks.buffer && b.view == v
      ensures NothingLost(old(Here()), Here())
    {
      hide Synced, InStep, Reachable, Ascending, KeysOf, NothingLost;
      ghost var l := Here();
      SettledView(l, sys);
      var stored := blockstore.Get(v);
      if stored.Some? {
        StoredIsKnown(l, sys, v);
        Answer(from, stored.value);
        return;
      }
      var known := storedBlocks.KnowsKey((v, 0));
      if known {
        var waiting := storedBlocks.FindByKey((v, 0));
        assert waiting.Some?;
        NoBlockOfView(l, sys);
        Answer(from, waiting.value);
        return;
      }
      var others := if v in openBlockRequests then openBlockRequests[v] else {};
      OpenKeeps(l, sys, openBlockRequests[v := others + {from}]);
      openBlockRequests := openBlockRequests[v := others + {from}];
      OpeningLosesNothing(l, v, from);
    }

    method Answer(to: ReplicaId, block: Block)
      requires Ready() && Known(sys.ledger, block)
      modifies this`outbox
      ensures Ready() && outbox == old(outbox) + [Envelope(Destination.Unicast(to), me, RequestedBlock(block))]
      ensures NothingLost(old(Here()), Here())
    {
      hide Synced, InStep, Reachable, Ascending, KeysOf, NothingLost;
      SettledView(Here(), sys);
      SendKeeps(Here(), sys, Destination.Unicast(to), RequestedBlock(block));
      Unicast(to, RequestedBlock(block));
      StoreGrowsNot(blockstore.blocks);
      LosesNothing(old(Here()), Here());
    }

    /** Stores a block that was asked for. The answer always matches the request and fills a gap in the store. */
    method ProcessRequestedBlock(block: Block)
      requires Ready() && Known(sys.ledger, block)
      modifies this, Parts()
      ensures Ready() && view == old(view) && sys == old(sys) && NothingLost(old(Here()), Here())
      ensures block.view in old(requestedBlocks) ==>
                Lookup(blockstore.blocks, block.view).Some? && Lookup(blockstore.blocks, block.view).value.block == block
      ensures block.view !in old(requestedBlocks) ==> Here() == old(Here()) && sys == old(sys)
      ensures Reflects()
    {
      hide Synced, InStep, Evolves, Reachable, Ascending, KeysOf, StoreGrows, Votable, Appended, NothingLost;
      AppendedNot(outbox);
      StoreGrowsNot(blockstore.blocks);
      NothingLostYet(Here());
      if block.view !in requestedBlocks {
        return;
      }
      SettledView(Here(), sys);
      RequestedHash(Here(), sys, block);
      assert requestedBlocks[block.view] == block.Hash();
      ForgetRequest(block.view);
      ghost var k := Here();
      LosesNothing(old(Here()), k);
      var existing := blockstore.Get(block.view);
      assert existing.None?;
      KnownIsVotable(sys, me, block);
      var _ := AddAndPrepareBlock(block, None);
      NothingLostFurther(old(Here()), k, Here());
      var head := storedBlocks.Peek();
      NoBlockOfView(Here(), sys);
      assert head.Some? ==> head.value.view != view;
    }

    /** Dispatches a message. It takes effect at once or when its view comes. */
    method ProcessPeerMessage(from: ReplicaId, m: Message)
      requires Ready() && Deliverable(sys, from, m)
      modifies this, Parts()
      ensures Ready() && Evolves(old(sys), sys, me) && NothingLost(old(Here()), Here())
      ensures Received(from, m, old(Here()), Here()) && HandledAs(from, m, old(Here()), old(sys), Here(), sys)
      ensures old(delivery) <= delivery && old(enclave.peers) <= enclave.peers
      ensures old(view) == 0 ==>
                (view > 0 <==> m.Handshake? && from !in old(enclave.peers) && old(peersAdded) + 1 == n)
      ensures from == me && (m.Commit? || m.RequestedBlock?) ==> Reflects()
      ensures view >= old(view)
    {
      hide Synced, InStep, Evolves, Reachable, Ascending, KeysOf, NothingLost, AcceptableTo, CountableBy, Accepted, TakenIn, JoinedAs,
           StartedAs, OnlyBroadcasts;
      EvolvesNot(sys, me);
      SettledView(Here(), sys);
      ghost var before, s := Here(), sys;
      PeersCounted(before, s);
      match m {
        case NewBlock(block, prepare) =>
          KnownIsVotable(sys, me, block);
          VotableIsSound(sys, me, None, block);
          ProcessBlock(block, prepare);
        case Commit(c) => ProcessCommitment(from, c);
        case Handshake(key) => ProcessHandshake(from, key);
        case BlockRequest(v) => ProcessBlockRequest(from, v);
        case RequestedBlock(block) => ProcessRequestedBlock(block);
      }
      SettledStays(before, s);
    }

    // -------------------------------------------------------------------------------------------
    // Messages to itself

    /**
     * Handles messages the replica sent to itself, each with all that it leads to before the next
     * one. This ends: a message that leads to others uses up buffered messages or collected votes.
     * All votes among the messages are used, and none that was sent meanwhile is left.
     */
    method Reflect(pending: seq<Message>, ghost later: set<Message>)
      requires Ready() && (n > 1 || view == 0)
      requires forall m :: m in pending ==> Reflectable(sys, me, m)
      requires OwnVotesUsed(Here(), Elements(pending) + later)
      modifies this, Parts()
      ensures Ready() && Evolves(old(sys), sys, me) && NothingLost(old(Here()), Here())
      ensures old(delivery) <= delivery && old(enclave.peers) <= enclave.peers
      ensures Weight() <= old(Weight()) && view >= old(view) && (old(view) == 0 ==> view == 0)
      ensures AllUsed(Here(), pending) && OwnVotesUsed(Here(), later)
      ensures ReflectedAs(old(Here()), old(sys), Here(), sys, pending)
      decreases Weight(), |pending|
    {
      hide Synced, InStep, Evolves, Reachable, Ascending, KeysOf, NothingLost, OnlyBroadcasts, ToSelf, Reflectable, OwnVotesUsed, Elements,
           AllUsed, HandledAs, ReflectedAs, Used;
      if pending == [] {
        EvolvesNot(sys, me);
        NothingLostYet(Here());
        NothingReflected(Here(), sys, later);
        return;
      }
      ghost var l, s := Here(), sys;
      SettledView(l, s);
      var start := |outbox|;
      ReflectOne(pending[0]);
      ghost var k, u := Here(), sys;
      NothingLostParts(l, k);
      SettledView(k, u);
      SentIsReflectable(k, u, start);
      var sent := ToSelf(outbox[start..], me);
      OwnVotesStay(l, k, Elements(pending) + later);
      OneVoteLess(k, pending, later, sent);
      ReflectableStays(s, u, me, pending);
      Reflect(sent, Elements(pending[1..]) + later);
      ghost var k', u' := Here(), sys;
      SettledView(k', u');
      ReflectableStays(u, u', me, pending);
      Reflect(pending[1..], later);
      EvolvesFurther(s, u, u', me);
      EvolvesFurther(s, u', sys, me);
      NothingLostFurther(k, k', Here());
      NothingLostFurther(l, k, Here());
      AllUsedOneMore(k, Here(), pending);
      ReflectedOnce(l, s, k, u, k', u', Here(), sys, pending);
    }

    /** Handles one message the replica sent to itself. It sends others only if that uses up weight. */
    method ReflectOne(m: Message)
      requires Ready() && (n > 1 || view == 0) && Reflectable(sys, me, m)
      modifies this, Parts()
      ensures Ready() && Evolves(old(sys), sys, me) && NothingLost(old(Here()), Here())
      ensures old(delivery) <= delivery && old(enclave.peers) <= enclave.peers
      ensures view >= old(view) && (old(view) == 0 ==> view == 0)
      ensures Weight() < old(Weight()) || (Weight() == old(Weight()) && SentToSelf(old(Here()), Here()) == [])
      ensures m.Commit? ==> Used(Here(), m.commitment)
      ensures HandledAs(me, m, old(Here()), old(sys), Here(), sys)
    {
      hide Synced, InStep, Evolves, Reachable, Ascending, KeysOf, NothingLost, OnlyBroadcasts, ToSelf, Reflectable, HandledAs;
      ReflectableNow(sys, me, m);
      SettledView(Here(), sys);
      if m.Commit? {
        OwnVoteCounts(Here(), sys, m.commitment);
      }
      ProcessPeerMessage(me, m);
      NothingLostParts(old(Here()), Here());
      if view == old(view) {
        NothingToSelf(old(outbox), outbox, me);
      }
    }

    /** Handles all messages to itself among those sent since a point, and what they lead to. */
    method ReflectSince(start: nat, ghost before: Local)
      requires Ready() && (n > 1 || view == 0)
      requires NothingLost(before, Here()) && start == |before.outbox| && OwnVotesUsed(before, {})
      modifies this, Parts()
      ensures Ready() && Evolves(old(sys), sys, me) && NothingLost(before, Here()) && NothingLost(old(Here()), Here())
      ensures old(delivery) <= delivery && old(enclave.peers) <= enclave.peers
      ensures view >= old(view) && (old(view) == 0 ==> view == 0)
      ensures OwnVotesUsed(Here(), {})
      ensures ReflectedAs(old(Here()), old(sys), Here(), sys, SentToSelf(before, old(Here())))
    {
      hide Synced, InStep, Evolves, Reachable, Ascending, KeysOf, NothingLost, ToSelf, Reflectable, OwnVotesUsed, Elements, AllUsed,
           ReflectedAs;
      SettledView(Here(), sys);
      NothingLostParts(before, Here());
      SentIsReflectable(Here(), sys, start);
      OwnVotesStay(before, Here(), {});
      var sent := ToSelf(outbox[start..], me);
      assert {} + Elements(sent) == Elements(sent) + {};
      Reflect(sent, {});
      NothingLostFurther(before, old(Here()), Here());
    }

    /** Handles a message and all messages to itself that this leads to. A lone replica stays in view 0. */
    method HandlePeerMessage(from: ReplicaId, m: Message)
      requires Ready() && Deliverable(sys, from, m) && (n > 1 || (view == 0 && me in enclave.peers)) && OwnVotesUsed(Here(), {})
      modifies this, Parts()
      ensures Ready() && Evolves(old(sys), sys, me) && NothingLost(old(Here()), Here()) && OwnVotesUsed(Here(), {})
      ensures Received(from, m, old(Here()), Here()) && Handled(from, m, old(Here()), old(sys), Here(), sys)
      ensures old(delivery) <= delivery && old(enclave.peers) <= enclave.peers && view >= old(view)
      ensures n == 1 ==> view == 0
    {
      hide Synced, InStep, Evolves, Reachable, Ascending, KeysOf, NothingLost, OwnVotesUsed, Received, HandledAs, ReflectedAs, Deliverable;
      ghost var l, s := Here(), sys;
      var start := |outbox|;
      SettledView(Here(), sys);
      DeliverableSender(sys, from, m);
      ProcessPeerMessage(from, m);
      ghost var k, u := Here(), sys;
      ReflectSince(start, l);
      EvolvesFurther(s, u, sys, me);
      ReceivedStays(from, m, l, k, Here());
    }

    /** Only the leader of a view stays in it when the view timer expires. */
    method OnViewTimeout()
      requires Ready() && n > 1 && view > 0 && OwnVotesUsed(Here(), {})
      modifies this, Parts()
      ensures Ready() && Evolves(old(sys), sys, me) && NothingLost(old(Here()), Here()) && OwnVotesUsed(Here(), {})
      ensures Leader(old(view), n) != me ==> view > old(view)
      ensures old(delivery) <= delivery && view >= old(view)
    {
      hide Synced, InStep, Evolves, Reachable, Ascending, KeysOf, NothingLost, OwnVotesUsed, ReflectedAs, Leader;
      ghost var l, s := Here(), sys;
      var start := |outbox|;
      HandleViewTimeout();
      ghost var u := sys;
      ReflectSince(start, l);
      EvolvesFurther(s, u, sys, me);
    }

    /** A replica that has a quorum proposes when the block timer expires. */
    method OnBlockTimeout()
      requires Ready() && (n > 1 || view == 0) && OwnVotesUsed(Here(), {})
      modifies this, Parts()
      ensures Ready() && Evolves(old(sys), sys, me) && NothingLost(old(Here()), Here()) && OwnVotesUsed(Here(), {})
      ensures old(callTryCreateBlock) ==> view > old(view)
      ensures old(delivery) <= delivery && old(enclave.peers) <= enclave.peers
      ensures view >= old(view) && (old(view) == 0 ==> view == 0)
      ensures Timed(old(Here()), old(sys), Here(), sys)
    {
      hide Synced, InStep, Evolves, Reachable, Ascending, KeysOf, NothingLost, OwnVotesUsed, ReflectedAs, Proposed;
      ghost var l, s := Here(), sys;
      var start := |outbox|;
      if view == 0 {
        StartIsQuiet(Here(), sys);
      }
      HandleBlockTimeout();
      SettledStays(l, s);
      ghost var k, u := Here(), sys;
      assert TimedAs(l, s, k, u);
      ReflectSince(start, l);
      EvolvesFurther(s, u, sys, me);
    }

    method OnClientRequest()
      requires Ready() && (n > 1 || view == 0) && OwnVotesUsed(Here(), {})
      modifies this, Parts()
      ensures Ready() && Evolves(old(sys), sys, me) && NothingLost(old(Here()), Here()) && OwnVotesUsed(Here(), {})
      ensures view > old(view) ==> old(callTryCreateBlock)
      ensures old(delivery) <= delivery && old(enclave.peers) <= enclave.peers
      ensures view >= old(view) && (old(view) == 0 ==> view == 0)
    {
      hide Synced, InStep, Evolves, Reachable, Ascending, KeysOf, NothingLost, OwnVotesUsed, ToSelf;
      ghost var l, s := Here(), sys;
      NothingSent(l);
      var start := |outbox|;
      if view == 0 {
        StartIsQuiet(Here(), sys);
      }
      ReceiveClientRequest();
      SettledStays(l, s);
      ghost var u := sys;
      ReflectSince(start, l);
      EvolvesFurther(s, u, sys, me);
    }

    // -------------------------------------------------------------------------------------------
    // Other replicas

    /** Other replicas take steps between two handler calls of this one. */
    ghost method Observe(t: System, other: ReplicaId)
      requires Ready() && Evolves(sys, t, other) && other != me
      modifies this`sys
      ensures Ready() && sys == t
    {
      hide Synced, InStep, Evolves, Reachable, Ascending, KeysOf;
      OthersMove(Here(), sys, t, other);
      sys := t;
    }
  }

  /** Agreement, as the replicas see it: what any two of them delivered is prefix-comparable. */
  lemma DeliveriesAgree(r: Replica, q: Replica)
    requires r.Ready() && q.Ready() && r.sys == q.sys
    ensures Comparable(r.delivery, q.delivery)
  {
    var s := r.sys;
    assert Inv(s) && OneChain(s.ledger) by {
      ReachableInv(s);
      CommittedOnOneChain(s);
    }
    var a, b := s.executed[r.me], s.executed[q.me];
    ExecutedComparable(s.ledger, a, b);
    if a <= b {
      DeliveryGrows(NOTHING, a, b);
    } else {
      DeliveryGrows(NOTHING, b, a);
    }
  }

  /** The blocks a replica executed are closed under justifications, down to genesis. */
  lemma ExecutedBlocksAreClosed(r: Replica, v: View)
    requires r.Ready() && Lookup(r.blockstore.blocks, v).Some? && Lookup(r.blockstore.blocks, v).value.executed
    ensures JustifiedByGrounded(r.blockstore.blocks, v)
  {
    ExecutionsAreClosed(r.sys, r.me, r.blockstore.blocks, r.view, Delivery(r.executedTransactions, r.delivery), v);
  }

  /**
   * A replica delivers exactly those requests of the blocks it executed, in the order of the blocks,
   * that have a greater id than every earlier one of their client.
   */
  lemma DeliversExactlyNewRequests(r: Replica)
    requires r.Ready()
    ensures r.me < |r.sys.executed| && r.delivery == NewOnes(Transactions(r.sys.executed[r.me]))
  {
    DeliversExactlyTheNew(r.sys.executed[r.me]);
  }

  /** A replica delivers every request at most once, in the order of its client's request ids. */
  lemma DeliversExactlyOnce(r: Replica)
    requires r.Ready()
    ensures ExactlyOnce(Delivery(r.executedTransactions, r.delivery))
  {
    DeliveredExactlyOnce(r.sys.executed[r.me]);
  }
}
