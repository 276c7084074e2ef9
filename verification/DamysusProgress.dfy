/**
 * Rounds without faults, replica by replica: once all replicas have voted for the block of a view,
 * the leader of the next view proposes a block on top of it and all replicas vote for that one,
 * executing the block two views below.
 */
module DamysusProgress {
  import opened Wrappers
  import opened ReplicaSets
  import opened DamysusTypes
  import opened DamysusSystem
  import opened DamysusInvariant
  import opened DamysusChain
  import opened DamysusSafety
  import opened DamysusRuns
  import opened DamysusBlockstore
  import opened DamysusDelivery
  import opened DamysusLocal
  import opened DamysusExecution
  import opened DamysusReplicaSteps
  import Enclave = DamysusEnclave

  // ---------------------------------------------------------------------------------------------
  // Votes and blocks

  /** An enclave that knows all peers. */
  function Member(n: nat, i: ReplicaId, view: View, lockView: View, lockHash: BlockHash): Enclave.Enclave {
    Enclave.Enclave.Enclave(i, QuorumSize(n), Replicas(n), view, lockView, lockHash)
  }

  /** The vote of a replica for a block. */
  function Ballot(i: ReplicaId, b: Block, lockView: View, lockHash: BlockHash): SignedCommitment {
    SignedCommitment(i, b.view, lockView, lockHash, b.view, b.Hash(), Phase.Prepare, Usig,
                     Signature(i, CommitmentDigest(i, b.view, lockView, Phase.Prepare, Usig)))
  }

  /** Votes of replicas of the cluster for a block, one per replica. */
  ghost predicate Ballots(n: nat, cs: seq<SignedCommitment>, b: Block, lockView: View, lockHash: BlockHash) {
    && Enclave.DistinctCreators(cs, 0)
    && forall c :: c in cs ==> c.creator < n && c == Ballot(c.creator, b, lockView, lockHash)
  }

  /** A quorum of votes for a block is always accumulated to an accumulator that names it. */
  lemma BallotsAcceptable(n: nat, i: ReplicaId, cs: seq<SignedCommitment>, p: Block, lockView: View, lockHash: BlockHash)
    requires |cs| == QuorumSize(n) && Ballots(n, cs, p, lockView, lockHash)
    ensures var e := Member(n, i, p.view + 1, lockView, lockHash);
            && Enclave.Accumulate(e, cs).Success?
            && var a := Enclave.Accumulate(e, cs).value;
            && a.kind.Accumulator? && a.creator == i && a.view == p.view && a.ProperlySigned()
            && a.NamedView() == p.view && a.NamedHash() == p.Hash()
  {
    hide Enclave.Accumulate;
    var e := Member(n, i, p.view + 1, lockView, lockHash);
    forall k | 0 <= k < |cs| ensures cs[k] == Ballot(cs[k].creator, p, lockView, lockHash) && cs[k].creator < n {
      assert cs[k] in cs;
    }
    assert Enclave.AllPrepare(cs, 0);
    assert Enclave.Acceptable(e, cs) by {
      forall k | 0 <= k < |cs| ensures Enclave.Fit(e, cs, k) {
      }
    }
    Enclave.AccumulateMeaning(e, cs);
    assert cs[0].NamedHash() == p.Hash();
  }

  /** A block on top of `p` that names it as parent and as justification. */
  ghost predicate OnTop(n: nat, b: Block, p: Block) {
    && b.view == p.view + 1 && b.parent == ParentHash(p.Hash()) && b.justification.Quorum?
    && var a := b.Accumulator();
    && a.kind.Accumulator? && a.creator < n && a.view == p.view && a.ProperlySigned()
    && a.NamedView() == p.view && a.NamedHash() == p.Hash()
  }

  lemma VoteOnTop(n: nat, i: ReplicaId, b: Block, p: Block, lockView: View, lockHash: BlockHash)
    requires OnTop(n, b, p)
    ensures Prepared(Member(n, i, b.view, lockView, lockHash), b)
            == (Member(n, i, b.view + 1, p.view, p.Hash()), Enclave.Issue.Success(Ballot(i, b, p.view, p.Hash())))
  {
  }

  /** Giving up view 0 counts as a vote for genesis. */
  lemma LeaveStart(n: nat, i: ReplicaId)
    ensures Enclave.ReSignLastPrepared(Member(n, i, 0, 0, GenesisHash))
            == (Member(n, i, 1, 0, GenesisHash), Enclave.Issue.Success(Ballot(i, GENESIS, 0, GenesisHash)))
  {
  }

  // ---------------------------------------------------------------------------------------------
  // Stacks of blocks

  /** Blocks from genesis on, each on top of the one before. */
  ghost predicate Stack(n: nat, ledger: Ledger, blocks: seq<Block>) {
    && blocks != [] && blocks[0] == GENESIS
    && (forall k :: 0 <= k < |blocks| ==> blocks[k].view == k)
    && (forall k :: 1 <= k < |blocks| ==> blocks[k] in ledger && OnTop(n, blocks[k], blocks[k - 1]))
  }

  ghost predicate Holds(store: Store, blocks: seq<Block>) {
    forall k :: 0 <= k < |blocks| ==> Lookup(store, k).Some? && Lookup(store, k).value.block == blocks[k]
  }

  lemma StackGrows(n: nat, ledger: Ledger, ledger': Ledger, blocks: seq<Block>, b: Block)
    requires Stack(n, ledger, blocks) && OnTop(n, b, blocks[|blocks| - 1]) && b in ledger'
    requires forall x :: x in ledger ==> x in ledger'
    ensures Stack(n, ledger', blocks + [b]) && Stack(n, ledger', blocks)
  {
    hide OnTop;
    var all := blocks + [b];
    assert forall k :: 0 <= k < |blocks| ==> all[k] == blocks[k];
    assert b.view == |blocks| by { OnTopView(n, b, blocks[|blocks| - 1]); }
  }

  lemma OnTopView(n: nat, b: Block, p: Block)
    requires OnTop(n, b, p)
    ensures b.view == p.view + 1 && b.justification.Quorum?
  {
  }

  lemma StackNames(n: nat, ledger: Ledger, blocks: seq<Block>, k: nat)
    requires Stack(n, ledger, blocks) && 1 <= k < |blocks|
    ensures Names(ledger, blocks[k], blocks[k - 1]) && blocks[k].parent == ParentHash(blocks[k - 1].Hash())
  {
  }

  lemma {:induction false} StackIsChain(n: nat, ledger: Ledger, blocks: seq<Block>, k: nat)
    requires Chained(ledger) && Stack(n, ledger, blocks) && k < |blocks|
    ensures Chain(ledger, blocks[k]) == blocks[1..k + 1]
    decreases k
  {
    hide Chained, Names, OnTop;
    if k > 0 {
      StackIsChain(n, ledger, blocks, k - 1);
      StackNames(n, ledger, blocks, k);
      ChainOnTop(ledger, blocks[k], blocks[k - 1]);
      hide Chain;
      assert blocks[1..k + 1] == blocks[1..k] + [blocks[k]];
    }
  }

  lemma ChainOnTop(ledger: Ledger, b: Block, j: Block)
    requires Chained(ledger) && b in ledger && Names(ledger, b, j)
    ensures Chain(ledger, b) == Chain(ledger, j) + [b]
  {
    JustifierIs(ledger, b, j);
  }

  lemma {:induction false} BacklogComplete(n: nat, ledger: Ledger, store: Store, blocks: seq<Block>, k: nat)
    requires Stack(n, ledger, blocks) && Holds(store, blocks) && k < |blocks|
    ensures Backlog(store, k).Some?
    decreases k
  {
    if k > 0 {
      BacklogComplete(n, ledger, store, blocks, k - 1);
      assert OnTop(n, blocks[k], blocks[k - 1]);
    }
  }

  // ---------------------------------------------------------------------------------------------
  // Execution

  /** Up to which block of a stack of the given height its voters have executed. */
  function Done(height: nat): nat {
    if height <= 2 then 1 else height - 2
  }

  /** A vote for the block on top executes the block two below it, if there is one. */
  lemma ExecutionOnTop(n: nat, u: System, store: Store, blocks: seq<Block>, b: Block, i: ReplicaId)
    requires i < u.n == |u.enclaves| == |u.executed| && Chained(u.ledger)
    requires Stack(n, u.ledger, blocks + [b]) && Stack(n, u.ledger, blocks) && Holds(store, blocks)
    requires Done(|blocks|) <= |blocks| && u.executed[i] == blocks[1..Done(|blocks|)]
    ensures ExecutionDue(store, b) <==> |blocks| > 1
    ensures |blocks| > 1 ==>
              && Enabled(u, Execute(i, b))
              && Next(u, Execute(i, b)) == u.(executed := u.executed[i := blocks[1..Done(|blocks| + 1)]])
  {
    hide Names, Pending, Chained;
    var v, all := |blocks|, blocks + [b];
    assert all[v] == b && all[v - 1] == blocks[v - 1];
    StackNames(n, u.ledger, all, v);
    if v > 1 {
      assert all[v - 2] == blocks[v - 2];
      StackNames(n, u.ledger, all, v - 1);
      BacklogComplete(n, u.ledger, store, blocks, v - 2);
      assert OnTop(n, b, blocks[v - 1]) && OnTop(n, blocks[v - 1], blocks[v - 2]);
      assert ChainStart(store, b) == Some(v - 2);
      ThreeChainIs(u.ledger, b, blocks[v - 1], blocks[v - 2]);
      PendingOnTop(n, u.ledger, blocks, v - 2);
    }
  }

  lemma PendingOnTop(n: nat, ledger: Ledger, blocks: seq<Block>, k: nat)
    requires Chained(ledger) && Stack(n, ledger, blocks) && k + 2 == |blocks|
    ensures blocks[1..Done(|blocks|)] + Pending(ledger, blocks[1..Done(|blocks|)], blocks[k]) == blocks[1..Done(|blocks| + 1)]
  {
    hide Chained, Names, Pending, Chain;
    var from := if k == 0 then 0 else k - 1;
    StackIsChain(n, ledger, blocks, from);
    StackIsChain(n, ledger, blocks, k);
    if k > 0 {
      StackNames(n, ledger, blocks, k);
      OneOnTop(ledger, blocks[k], blocks[k - 1]);
    } else {
      assert Extends(ledger, blocks[k], blocks[k]);
    }
    PendingContinues(ledger, blocks[from], blocks[k]);
  }

  lemma OneOnTop(ledger: Ledger, b: Block, j: Block)
    requires Chained(ledger) && b in ledger && Names(ledger, b, j)
    ensures Extends(ledger, b, j) && Known(ledger, j)
  {
    JustifierIs(ledger, b, j);
    assert Extends(ledger, j, j);
  }

  // ---------------------------------------------------------------------------------------------
  // One replica in a round

  /** A replica that has stored a stack of blocks and voted for its top, and has nothing else to do. */
  ghost predicate Standing(l: Local, i: ReplicaId, n: nat, blocks: seq<Block>, lockView: View, lockHash: BlockHash) {
    && l.n == n > 0 && l.me == i < n && l.view == |blocks| > 0 && l.enclave == Member(n, i, |blocks|, lockView, lockHash)
    && Unbuffered(l) && !l.mayPropose && l.open == map[] && Holds(l.store, blocks)
    && VoteOf(n, i, Ballot(i, blocks[|blocks| - 1], lockView, lockHash)) in l.outbox
  }

  ghost predicate CountedNone(l: Local) {
    l.commitments == [] && l.senders == {}
  }

  /** The system has the replica execute all but the two topmost blocks. */
  ghost predicate ExecutedBelow(s: System, i: ReplicaId, blocks: seq<Block>) {
    i < |s.executed| && Done(|blocks|) <= |blocks| && s.executed[i] == blocks[1..Done(|blocks|)]
  }

  lemma HoldsOneMore(store: Store, blocks: seq<Block>, b: Block)
    requires Holds(store, blocks) && b.view == |blocks|
    ensures Holds(Inserted(StoreAfter(store, b), b), blocks + [b])
  {
    hide StoreAfter;
    var marked, all := StoreAfter(store, b), blocks + [b];
    StoreAfterGrows(store, b);
    forall k | 0 <= k < |all| ensures Lookup(Inserted(marked, b), k).Some? && Lookup(Inserted(marked, b), k).value.block == all[k] {
      InsertedMeaning(marked, b, k);
      if k < |blocks| {
        StoreGrowsAt(store, marked, k);
      }
    }
  }

  lemma CompleteOnTop(n: nat, store: Store, blocks: seq<Block>, b: Block)
    requires blocks != [] && Holds(store, blocks) && OnTop(n, b, blocks[|blocks| - 1]) && b.view == |blocks|
    ensures Complete(store, b)
  {
  }

  /** What a replica looks like after its vote for a block on top. */
  lemma VotedOnTop(l: Local, i: ReplicaId, n: nat, blocks: seq<Block>, b: Block, lockView: View, lockHash: BlockHash)
    requires Standing(l.(commitments := [], senders := {}, mayPropose := false), i, n, blocks, lockView, lockHash)
    requires OnTop(n, b, blocks[|blocks| - 1]) && b.view == |blocks| && !l.mayPropose
    ensures b.justification.Quorum? && Complete(l.store, b)
    ensures var p := blocks[|blocks| - 1];
            && Prepared(l.enclave, b).1 == Enclave.Issue.Success(Ballot(i, b, p.view, p.Hash()))
            && Standing(EnteredLocal(VotedLocal(l, b)), i, n, blocks + [b], p.view, p.Hash())
            && CountedNone(EnteredLocal(VotedLocal(l, b)))
  {
    hide StoreAfter, DeliveredAfter, Replicas, Prepared;
    var p := blocks[|blocks| - 1];
    VoteOnTop(n, i, b, p, lockView, lockHash);
    CompleteOnTop(n, l.store, blocks, b);
    HoldsOneMore(l.store, blocks, b);
    hide OnTop, Holds, Leader, Ballot;
    assert (blocks + [b])[|blocks|] == b;
  }

  lemma ReachableChained(s: System)
    requires Reachable(s)
    ensures Chained(s.ledger)
  {
    ReachableInv(s);
    LedgerIsChained(s);
  }

  lemma BallotGrows(s: System, step: Step)
    requires Reachable(s) && Enabled(s, step) && (step.Vote? || step.Propose?)
    ensures var u := Next(s, step);
            && u.executed == s.executed && |u.enclaves| == |s.enclaves| && u.n == s.n
            && (forall x :: x in s.ledger ==> x in u.ledger) && Chained(u.ledger)
  {
    StepFromReachable(s, step);
    hide Reachable;
    ReachableChained(Next(s, step));
    hide Chained;
  }

  /** What becomes of the system when a replica votes for a block on top that the system has. */
  lemma SystemOnTop(s: System, t: System, i: ReplicaId, step: Step, n: nat, store: Store, blocks: seq<Block>, b: Block)
    requires Reachable(s) && i < s.n == |s.enclaves| == |s.executed| && step.replica == i && (step.Vote? || step.Propose?)
    requires MovedBy(s, t, i, step, store, b) && Holds(store, blocks)
    requires Stack(n, s.ledger, blocks) && OnTop(n, b, blocks[|blocks| - 1]) && b in Next(s, step).ledger
    requires ExecutedBelow(s, i, blocks)
    ensures b in t.ledger && forall x :: x in s.ledger ==> x in t.ledger
    ensures t.n == s.n && |t.executed| == |s.executed| && Stack(n, t.ledger, blocks + [b])
    ensures ExecutedBelow(t, i, blocks + [b])
    ensures forall k :: 0 <= k < |s.executed| && k != i ==> t.executed[k] == s.executed[k]
  {
    hide Reachable, Enabled, Next, ExecutionDue, Stack, OnTop, Holds;
    var u := Next(s, step);
    BallotGrows(s, step);
    StackGrows(n, s.ledger, u.ledger, blocks, b);
    ExecutionOnTop(n, u, store, blocks, b, i);
    assert (blocks + [b])[1..Done(|blocks| + 1)] == blocks[1..Done(|blocks| + 1)];
  }

  /** A replica accepts the block of its view. */
  lemma AcceptOnTop(l: Local, s: System, l': Local, t: System, i: ReplicaId, n: nat, blocks: seq<Block>, b: Block,
                    lockView: View, lockHash: BlockHash)
    requires Synced(l, s) && Standing(l, i, n, blocks, lockView, lockHash) && Accepted(l, s, l', t, Vote(i, b), b)
    requires Stack(n, s.ledger, blocks) && OnTop(n, b, blocks[|blocks| - 1]) && b in s.ledger && ExecutedBelow(s, i, blocks)
    ensures var p := blocks[|blocks| - 1];
            && Standing(l', i, n, blocks + [b], p.view, p.Hash()) && CountedNone(l')
            && l'.outbox == l.outbox + [VoteOf(n, i, Ballot(i, b, p.view, p.Hash()))]
    ensures b in t.ledger && forall x :: x in s.ledger ==> x in t.ledger
    ensures t.n == s.n && |t.executed| == |s.executed| && Stack(n, t.ledger, blocks + [b]) && ExecutedBelow(t, i, blocks + [b])
    ensures forall k :: 0 <= k < |s.executed| && k != i ==> t.executed[k] == s.executed[k]
  {
    SettledView(l, s);
    hide Synced, Reachable, Standing, ExecutedBelow, MovedBy;
    StandingParts(l, i, n, blocks, lockView, lockHash);
    OnTopView(n, b, blocks[|blocks| - 1]);
    VotedOnTop(l, i, n, blocks, b, lockView, lockHash);
    assert b in Next(s, Vote(i, b)).ledger by { MovedByEnabled(s, t, i, Vote(i, b), l.store, b); }
    SystemOnTop(s, t, i, Vote(i, b), n, l.store, blocks, b);
  }

  lemma MovedByEnabled(s: System, t: System, i: ReplicaId, step: Step, store: Store, b: Block)
    requires MovedBy(s, t, i, step, store, b)
    ensures Enabled(s, step)
  {
  }

  lemma StandingParts(l: Local, i: ReplicaId, n: nat, blocks: seq<Block>, lockView: View, lockHash: BlockHash)
    requires Standing(l, i, n, blocks, lockView, lockHash)
    ensures l.n == n > 0 && l.me == i < n && l.view == |blocks| > 0 && Holds(l.store, blocks) && !l.mayPropose && Unbuffered(l)
    ensures l.enclave == Member(n, i, |blocks|, lockView, lockHash) && l.open == map[]
    ensures forall cs, senders :: Standing(l.(commitments := cs, senders := senders, mayPropose := false), i, n, blocks, lockView, lockHash)
  {
  }

  // ---------------------------------------------------------------------------------------------
  // The leader in a round

  lemma PermutedBallots(n: nat, cs: seq<SignedCommitment>, ds: seq<SignedCommitment>, b: Block, lockView: View, lockHash: BlockHash)
    requires multiset(cs) == multiset(ds) && Ballots(n, cs, b, lockView, lockHash)
    ensures |cs| == |ds| && Ballots(n, ds, b, lockView, lockHash)
  {
    PermutedCreators(cs, ds);
    forall c | c in ds ensures c in cs {
      assert c in multiset(ds);
    }
  }

  /** The leader proposes a block on top once it has counted a quorum of votes. */
  lemma ProposeOnTop(l: Local, s: System, l': Local, t: System, i: ReplicaId, n: nat, blocks: seq<Block>, lockView: View,
                     lockHash: BlockHash)
    returns (b: Block)
    requires Reachable(s) && i < s.n == |s.enclaves| == |s.executed| && s.enclaves[i] == l.enclave
    requires Standing(l.(mayPropose := false), i, n, blocks, lockView, lockHash) && Proposed(l, s, l', t)
    requires |l.commitments| == QuorumSize(n) && Ballots(n, l.commitments, blocks[|blocks| - 1], lockView, lockHash)
    requires Stack(n, s.ledger, blocks) && ExecutedBelow(s, i, blocks)
    ensures OnTop(n, b, blocks[|blocks| - 1])
    ensures var p := blocks[|blocks| - 1];
            && Standing(l', i, n, blocks + [b], p.view, p.Hash()) && CountedNone(l')
            && var c := Ballot(i, b, p.view, p.Hash());
            l'.outbox == l.outbox + [VoteOf(n, i, c)] + [Envelope(Destination.Broadcast, i, NewBlock(b, c))]
    ensures b in t.ledger && forall x :: x in s.ledger ==> x in t.ledger
    ensures t.n == s.n && |t.executed| == |s.executed| && Stack(n, t.ledger, blocks + [b]) && ExecutedBelow(t, i, blocks + [b])
    ensures forall k :: 0 <= k < |s.executed| && k != i ==> t.executed[k] == s.executed[k]
  {
    hide Reachable, Standing, ExecutedBelow, MovedBy, Stack, Holds, OnTop, Ballots, Enclave.Accumulate;
    var step;
    step, b :| ProposedAs(l, s, l', t, step, b);
    StandingParts(l.(mayPropose := false), i, n, blocks, lockView, lockHash);
    var p := blocks[|blocks| - 1];
    PermutedBallots(n, l.commitments, step.commitments, p, lockView, lockHash);
    ParentOnTop(n, s.ledger, l.store, blocks);
    BallotsAcceptable(n, i, step.commitments, p, lockView, lockHash);
    ProposalOnTop(n, b, p);
    VotedOnTop(l.(mayPropose := false), i, n, blocks, b, lockView, lockHash);
    MovedByEnabled(s, t, i, step, l.store, b);
    assert b in Next(s, step).ledger;
    SystemOnTop(s, t, i, step, n, l.store, blocks, b);
    AnnouncedStands(EnteredLocal(VotedLocal(l.(mayPropose := false), b)), i, n, blocks + [b], p, b);
  }

  lemma ParentOnTop(n: nat, ledger: Ledger, store: Store, blocks: seq<Block>)
    requires Stack(n, ledger, blocks) && Holds(store, blocks)
    ensures StoredParent(store, |blocks|) == ParentHash(blocks[|blocks| - 1].Hash()) && blocks[|blocks| - 1].view == |blocks| - 1
  {
  }

  lemma ProposalOnTop(n: nat, b: Block, p: Block)
    requires b.view == p.view + 1 && b.parent == ParentHash(p.Hash()) && b.justification.Quorum?
    requires var a := b.Accumulator();
             && a.kind.Accumulator? && a.creator < n && a.view == p.view && a.ProperlySigned()
             && a.NamedView() == p.view && a.NamedHash() == p.Hash()
    ensures OnTop(n, b, p)
  {
  }

  lemma AnnouncedStands(l: Local, i: ReplicaId, n: nat, blocks: seq<Block>, p: Block, b: Block)
    requires Standing(l, i, n, blocks, p.view, p.Hash())
    ensures var c := Ballot(i, b, p.view, p.Hash());
            Standing(AnnouncedLocal(l, b, c), i, n, blocks, p.view, p.Hash())
  {
  }

  /** A vote that does not complete a quorum is counted. */
  lemma CountOne(l: Local, s: System, l': Local, t: System, i: ReplicaId, n: nat, blocks: seq<Block>, lockView: View,
                 lockHash: BlockHash, c: SignedCommitment)
    requires Standing(l, i, n, blocks, lockView, lockHash) && TakenIn(l, s, l', t, c)
    requires |l.commitments| + 1 < QuorumSize(n)
    ensures t == s && l' == CollectedLocal(l, c) && Standing(l', i, n, blocks, lockView, lockHash)
  {
    hide Holds;
  }

  lemma BallotsOneMore(n: nat, cs: seq<SignedCommitment>, k: ReplicaId, b: Block, lockView: View, lockHash: BlockHash)
    requires Ballots(n, cs, b, lockView, lockHash) && k < n && k !in CreatorSet(cs)
    ensures Ballots(n, cs + [Ballot(k, b, lockView, lockHash)], b, lockView, lockHash)
    ensures CreatorSet(cs + [Ballot(k, b, lockView, lockHash)]) == CreatorSet(cs) + {k}
  {
    var all := cs + [Ballot(k, b, lockView, lockHash)];
    assert forall j :: 0 <= j < |cs| ==> all[j] == cs[j] && cs[j].creator in CreatorSet(cs);
    assert all[|cs|].creator == k;
  }

  // ---------------------------------------------------------------------------------------------
  // Between rounds

  /** A replica between two rounds: the next leader has counted its own vote already. */
  ghost predicate InRound(l: Local, i: ReplicaId, n: nat, blocks: seq<Block>, lockView: View, lockHash: BlockHash) {
    && Standing(l, i, n, blocks, lockView, lockHash)
    && if Leader(|blocks|, n) == i
       then l.commitments == [Ballot(i, blocks[|blocks| - 1], lockView, lockHash)] && l.senders == {i}
       else CountedNone(l)
  }

  lemma QuorumBounds(n: nat)
    requires n > 1
    ensures 2 <= QuorumSize(n) <= n
  {
  }

  /** The vote of a replica counts in the view after it, for the leader of that view. */
  lemma BallotCounts(n: nat, i: ReplicaId, blocks: seq<Block>, lockView: View, lockHash: BlockHash, l: Local, leader: ReplicaId)
    requires Standing(l, leader, n, blocks, lockView, lockHash) && blocks[|blocks| - 1].view == |blocks| - 1
    requires i < n && leader == Leader(|blocks|, n)
    ensures var c := Ballot(i, blocks[|blocks| - 1], lockView, lockHash);
            && CountableBy(l.n, l.me, l.view, l.enclave, i, c) && c.UsableFor() == l.view && c.creator == i
            && VoteOf(n, i, c) == Envelope(Destination.Unicast(leader), i, Commit(c))
  {
    hide Leader, Holds;
  }

  /** What a replica sends itself with its vote for the top of a stack: the vote, if it leads the next view. */
  function OwnBallot(n: nat, i: ReplicaId, blocks: seq<Block>, lockView: View, lockHash: BlockHash): seq<Message>
    requires n > 0 && blocks != []
  {
    if Leader(|blocks|, n) == i then [Commit(Ballot(i, blocks[|blocks| - 1], lockView, lockHash))] else []
  }

  lemma SentBallot(l: Local, k: Local, n: nat, i: ReplicaId, blocks: seq<Block>, lockView: View, lockHash: BlockHash,
                   rest: seq<Envelope>)
    requires n > 0 && blocks != [] && blocks[|blocks| - 1].view == |blocks| - 1 && k.me == i
    requires k.outbox == l.outbox + [VoteOf(n, i, Ballot(i, blocks[|blocks| - 1], lockView, lockHash))] + rest
    requires forall j :: 0 <= j < |rest| ==> rest[j].destination.Broadcast?
    ensures SentToSelf(l, k) == OwnBallot(n, i, blocks, lockView, lockHash)
  {
    hide Leader;
    var vote := VoteOf(n, i, Ballot(i, blocks[|blocks| - 1], lockView, lockHash));
    var sent := k.outbox[|l.outbox|..];
    assert sent == [vote] + rest && sent[1..] == rest;
    BroadcastsAreNotToSelf(rest, i);
  }

  /** Once it has handled its own vote, a replica that has voted is between two rounds. */
  lemma ReflectedInRound(k: Local, u: System, l': Local, t: System, i: ReplicaId, n: nat, blocks: seq<Block>, lockView: View,
                         lockHash: BlockHash)
    requires n > 1 && Standing(k, i, n, blocks, lockView, lockHash) && CountedNone(k) && blocks[|blocks| - 1].view == |blocks| - 1
    requires ReflectedAs(k, u, l', t, OwnBallot(n, i, blocks, lockView, lockHash))
    ensures t == u && InRound(l', i, n, blocks, lockView, lockHash) && l'.outbox == k.outbox
  {
    StandingParts(k, i, n, blocks, lockView, lockHash);
    QuorumBounds(n);
    if Leader(|blocks|, n) == i {
      BallotCounts(n, i, blocks, lockView, lockHash, k, i);
      hide Leader, Standing, Ballot, CountableBy, QuorumSize;
      var c := Ballot(i, blocks[|blocks| - 1], lockView, lockHash);
      assert OneOfMany(k, c);
      assert l' == k.(commitments := [c], senders := {i}, mayPropose := false);
    }
  }

  /** The leader's vote lets the others accept its block. */
  lemma BlockAcceptable(n: nat, i: ReplicaId, leader: ReplicaId, b: Block, p: Block, lockView: View, lockHash: BlockHash)
    requires OnTop(n, b, p) && leader < n
    ensures AcceptableTo(Member(n, i, b.view, lockView, lockHash), b, Ballot(leader, b, p.view, p.Hash()))
  {
  }

  // ---------------------------------------------------------------------------------------------
  // Own votes included

  ghost predicate LastSent(l: Local, e: Envelope) {
    l.outbox != [] && l.outbox[|l.outbox| - 1] == e
  }

  /** A replica counts a vote and handles what it sends itself. */
  ghost predicate TakenInFully(l: Local, s: System, l': Local, t: System, c: SignedCommitment) {
    exists k: Local, u: System :: TakenIn(l, s, k, u, c) && l.view <= k.view && ReflectedAs(k, u, l', t, SentToSelf(l, k))
  }

  ghost predicate ProposedFully(l: Local, s: System, l': Local, t: System) {
    exists k: Local, u: System :: Proposed(l, s, k, u) && ReflectedAs(k, u, l', t, SentToSelf(l, k))
  }

  ghost predicate AcceptedFully(l: Local, s: System, l': Local, t: System, b: Block) {
    exists k: Local, u: System :: Accepted(l, s, k, u, Vote(l.me, b), b) && ReflectedAs(k, u, l', t, SentToSelf(l, k))
  }

  /** A vote that is only counted makes the replica send nothing. */
  lemma TakenInQuietly(l: Local, s: System, l': Local, t: System, c: SignedCommitment)
    requires TakenInFully(l, s, l', t, c)
    ensures (TakenIn(l, s, l', t, c) && l'.view == l.view)
            || (|l.commitments| + 1 >= QuorumSize(l.n) && ProposedFully(CollectedLocal(l, c), s, l', t) && l'.view > l.view)
  {
    hide Proposed, QuorumSize;
    var k: Local, u: System :| TakenIn(l, s, k, u, c) && l.view <= k.view && ReflectedAs(k, u, l', t, SentToSelf(l, k));
    if k.view == l.view {
      assert k.outbox == l.outbox;
      assert k.outbox[|l.outbox|..] == [];
      assert SentToSelf(l, k) == [];
    } else {
      assert SentToSelf(CollectedLocal(l, c), k) == SentToSelf(l, k);
    }
  }

  /** The leader's round ends with its proposal and its own vote for it, which it counts if it leads the next view too. */
  lemma LeadOnTop(l: Local, s: System, l': Local, t: System, i: ReplicaId, n: nat, blocks: seq<Block>, lockView: View,
                  lockHash: BlockHash)
    returns (b: Block)
    requires Reachable(s) && i < s.n == |s.enclaves| == |s.executed| && s.enclaves[i] == l.enclave && n > 1
    requires Standing(l.(mayPropose := false), i, n, blocks, lockView, lockHash) && ProposedFully(l, s, l', t)
    requires |l.commitments| == QuorumSize(n) && Ballots(n, l.commitments, blocks[|blocks| - 1], lockView, lockHash)
    requires Stack(n, s.ledger, blocks) && ExecutedBelow(s, i, blocks)
    ensures OnTop(n, b, blocks[|blocks| - 1])
    ensures var p := blocks[|blocks| - 1];
            && InRound(l', i, n, blocks + [b], p.view, p.Hash())
            && LastSent(l', Envelope(Destination.Broadcast, i, NewBlock(b, Ballot(i, b, p.view, p.Hash()))))
    ensures b in t.ledger && forall x :: x in s.ledger ==> x in t.ledger
    ensures t.n == s.n && |t.executed| == |s.executed| && Stack(n, t.ledger, blocks + [b]) && ExecutedBelow(t, i, blocks + [b])
    ensures forall k :: 0 <= k < |s.executed| && k != i ==> t.executed[k] == s.executed[k]
  {
    hide Reachable, Standing, ExecutedBelow, Stack, OnTop, Ballots, Ballot, Proposed, InRound, ReflectedAs, CountedNone, Leader, VoteOf,
         QuorumSize, OwnBallot, SentToSelf;
    StackTop(n, s.ledger, blocks);
    var k: Local, u: System :| Proposed(l, s, k, u) && ReflectedAs(k, u, l', t, SentToSelf(l, k));
    b := ProposeOnTop(l, s, k, u, i, n, blocks, lockView, lockHash);
    var p, all := blocks[|blocks| - 1], blocks + [b];
    StandingParts(k, i, n, all, p.view, p.Hash());
    assert all[|all| - 1] == b;
    assert b.view == |blocks| by { StackTop(n, u.ledger, all); }
    SentBallot(l, k, n, i, all, p.view, p.Hash(), [Envelope(Destination.Broadcast, i, NewBlock(b, Ballot(i, b, p.view, p.Hash())))]);
    ReflectedInRound(k, u, l', t, i, n, all, p.view, p.Hash());
  }

  lemma StackTop(n: nat, ledger: Ledger, blocks: seq<Block>)
    requires Stack(n, ledger, blocks)
    ensures blocks != [] && blocks[|blocks| - 1].view == |blocks| - 1
  {
  }

  /** Another replica's round ends with its vote, which it counts if it leads the next view. */
  lemma FollowOnTop(l: Local, s: System, l': Local, t: System, i: ReplicaId, n: nat, blocks: seq<Block>, b: Block,
                    lockView: View, lockHash: BlockHash)
    requires n > 1 && Synced(l, s) && Standing(l, i, n, blocks, lockView, lockHash) && AcceptedFully(l, s, l', t, b)
    requires Stack(n, s.ledger, blocks) && OnTop(n, b, blocks[|blocks| - 1]) && b in s.ledger && ExecutedBelow(s, i, blocks)
    ensures var p := blocks[|blocks| - 1]; InRound(l', i, n, blocks + [b], p.view, p.Hash())
    ensures b in t.ledger && forall x :: x in s.ledger ==> x in t.ledger
    ensures t.n == s.n && |t.executed| == |s.executed| && Stack(n, t.ledger, blocks + [b]) && ExecutedBelow(t, i, blocks + [b])
    ensures forall k :: 0 <= k < |s.executed| && k != i ==> t.executed[k] == s.executed[k]
  {
    hide Synced, Reachable, Standing, ExecutedBelow, Stack, OnTop, Ballot, Accepted, InRound, ReflectedAs, CountedNone, Leader, VoteOf,
         OwnBallot, SentToSelf;
    StandingParts(l, i, n, blocks, lockView, lockHash);
    var k: Local, u: System :| Accepted(l, s, k, u, Vote(l.me, b), b) && ReflectedAs(k, u, l', t, SentToSelf(l, k));
    AcceptOnTop(l, s, k, u, i, n, blocks, b, lockView, lockHash);
    var p, all := blocks[|blocks| - 1], blocks + [b];
    StandingParts(k, i, n, all, p.view, p.Hash());
    assert all[|all| - 1] == b;
    assert b.view == |blocks| by { StackTop(n, u.ledger, all); }
    var vote := VoteOf(n, i, Ballot(i, b, p.view, p.Hash()));
    assert k.outbox == l.outbox + [vote] + [];
    SentBallot(l, k, n, i, all, p.view, p.Hash(), []);
    ReflectedInRound(k, u, l', t, i, n, all, p.view, p.Hash());
  }

  // ---------------------------------------------------------------------------------------------
  // Before the first round

  /** A replica in view 0 that has the keys of the given peers. */
  ghost predicate Keyed(l: Local, i: ReplicaId, n: nat, peers: set<ReplicaId>) {
    && l.n == n > 1 && l.me == i < n && l.view == 0 && l.enclave == Enclave.InitialEnclave(i, QuorumSize(n)).(peers := peers)
    && l.peersAdded == |peers| && Unbuffered(l) && !l.mayPropose && l.open == map[] && CountedNone(l)
    && Holds(l.store, [GENESIS])
  }

  lemma OneMoreKey(l: Local, s: System, l': Local, t: System, i: ReplicaId, n: nat, peers: set<ReplicaId>, k: ReplicaId)
    requires Keyed(l, i, n, peers) && k !in peers && JoinedAs(l, s, l', t, k)
    ensures Keyed(l', i, n, peers + {k}) && l'.outbox == l.outbox
    ensures t.n == s.n && t.executed == s.executed
  {
    hide Holds;
  }

  lemma LastKey(l: Local, s: System, l': Local, t: System, i: ReplicaId, n: nat, peers: set<ReplicaId>, k: ReplicaId)
    requires Keyed(l, i, n, peers) && k !in peers && peers + {k} == Replicas(n) && StartedAs(l, s, l', t, k)
    ensures Standing(l', i, n, [GENESIS], 0, GenesisHash) && CountedNone(l')
    ensures l'.outbox == l.outbox + [VoteOf(n, i, Ballot(i, GENESIS, 0, GenesisHash))]
    ensures t.n == s.n && t.executed == s.executed
  {
    hide Holds, Leader, Ballot, Enclave.ReSignLastPrepared, Replicas;
    LeaveStart(n, i);
    var u := Next(s, Join(i, k));
    assert JoinedLocal(l, k).enclave == Member(n, i, 0, 0, GenesisHash);
    assert u.executed == s.executed && t.executed == u.executed;
  }
}
