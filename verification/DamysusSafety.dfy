/**
 * Agreement of Damysus: a quorum that voted for a linked block locks its parent for good, so the
 * blocks executed by any two replicas lie on one chain.
 */
module DamysusSafety {
  import opened DamysusTypes
  import opened DamysusSystem
  import opened DamysusChain
  import opened DamysusInvariant
  import opened DamysusDelivery
  import opened ReplicaSets
  import Enclave = DamysusEnclave

  // ---------------------------------------------------------------------------------------------
  // Quorums intersect

  function CreatorSet(cs: seq<SignedCommitment>): set<ReplicaId> {
    set k | 0 <= k < |cs| :: cs[k].creator
  }

  lemma {:induction false} CreatorSetSize(cs: seq<SignedCommitment>)
    requires Enclave.DistinctCreators(cs, 0)
    ensures |CreatorSet(cs)| == |cs|
    decreases |cs|
  {
    if cs != [] {
      var init, last := cs[..|cs| - 1], cs[|cs| - 1];
      assert Enclave.DistinctCreators(init, 0);
      CreatorSetSize(init);
      assert CreatorSet(cs) == CreatorSet(init) + {last.creator} by {
        assert forall k :: 0 <= k < |init| ==> init[k] == cs[k];
      }
      assert last.creator !in CreatorSet(init);
    }
  }

  /** Two quorums share a replica. */
  lemma QuorumsIntersect(n: nat, cs: seq<SignedCommitment>, ds: seq<SignedCommitment>) returns (c: SignedCommitment, d: SignedCommitment)
    requires |cs| == QuorumSize(n) == |ds|
    requires Enclave.DistinctCreators(cs, 0) && Enclave.DistinctCreators(ds, 0)
    requires forall k :: 0 <= k < |cs| ==> cs[k].creator < n && ds[k].creator < n
    ensures c in cs && d in ds && c.creator == d.creator
  {
    var a, b := CreatorSet(cs), CreatorSet(ds);
    CreatorSetSize(cs);
    CreatorSetSize(ds);
    if a * b == {} {
      SubsetSize(a + b, Replicas(n));
      assert false;
    }
    var id :| id in a * b;
    var i :| 0 <= i < |cs| && cs[i].creator == id;
    var j :| 0 <= j < |ds| && ds[j].creator == id;
    c, d := cs[i], ds[j];
  }

  // ---------------------------------------------------------------------------------------------
  // The lock lemma

  /** The commitments `cs` are votes of a quorum for `b`, whose parent and justification are both `g`. */
  ghost predicate Locked(s: System, b: Block, g: Block, cs: seq<SignedCommitment>) {
    && b in s.ledger && Names(s.ledger, b, g) && b.Linked()
    && |cs| == QuorumSize(s.n)
    && Enclave.DistinctCreators(cs, 0)
    && (forall k :: 0 <= k < |cs| ==> cs[k] in s.usigs && cs[k].view == b.view && cs[k].phase.Prepare?)
  }

  lemma LedgerIsChained(s: System)
    requires LedgerOk(s.ledger, s.usigs, s.n) && OneBlockPerView(s.ledger)
    ensures Chained(s.ledger)
  {
    forall b | b in s.ledger
      ensures b != GENESIS && Names(s.ledger, b, Justifier(s.ledger, b)) && Justifier(s.ledger, b).view < b.view
    {
      assert BlockOk(s.ledger, s.usigs, s.n, b, s.ledger[b]);
      var a := b.Accumulator();
      var j :| Known(s.ledger, j) && j.view == a.NamedView() && j.Hash() == a.NamedHash();
      assert Names(s.ledger, b, j);
    }
  }

  /** Every vote in a locked quorum carries the lock. */
  lemma VoterHoldsLock(s: System, b: Block, g: Block, cs: seq<SignedCommitment>, d: SignedCommitment)
    requires ConsensusInv(s) && Locked(s, b, g, cs) && d in cs
    ensures d in s.usigs && d.view == b.view == g.view + 1 && d.preparedView == g.view
  {
    assert UsigOk(s.ledger, s.n, d);
    var b' :| Known(s.ledger, b') && VotesFor(d, b');
    assert Known(s.ledger, b);
    assert BlockOk(s.ledger, s.usigs, s.n, b, s.ledger[b]);
    LinkedNamesPredecessor(s.ledger, s.usigs, s.n, b, s.ledger[b]);
  }

  /** A quorum of a later view holds a vote whose lock is not older than `g`. */
  lemma LaterQuorumSeesLock(s: System, b: Block, g: Block, cs: seq<SignedCommitment>, c: Block) returns (v: SignedCommitment)
    requires ConsensusInv(s) && Locked(s, b, g, cs)
    requires c in s.ledger && c.view >= g.view + 2
    ensures v in s.ledger[c] && g.view <= v.preparedView
  {
    var ds := s.ledger[c];
    assert BlockOk(s.ledger, s.usigs, s.n, c, ds);
    forall k | 0 <= k < |cs| ensures cs[k].creator < s.n && ds[k].creator < s.n {
      assert UsigOk(s.ledger, s.n, cs[k]) && UsigOk(s.ledger, s.n, ds[k]);
    }
    var d: SignedCommitment;
    d, v := QuorumsIntersect(s.n, cs, ds);
    VoterHoldsLock(s, b, g, cs, d);
    assert InOrder(d, v);
  }

  /** An accumulator over votes of one view names the block voted for. */
  lemma PrepareQuorumNames(s: System, c: Block)
    requires ConsensusInv(s) && c in s.ledger && Enclave.AllPrepare(s.ledger[c], 0)
    ensures c.Accumulator().NamedView() + 1 == c.view
  {
    assert BlockOk(s.ledger, s.usigs, s.n, c, s.ledger[c]);
  }

  /**
   * Otherwise it names a locked block: one whose view is at least that of every vote counted, and
   * which, unless it is genesis, is named by the block of the next view as well.
   */
  lemma LockQuorumNames(s: System, c: Block, v: SignedCommitment) returns (w: Block)
    requires UsigsOk(s.ledger, s.n, s.usigs) && c in s.ledger && BlockOk(s.ledger, s.usigs, s.n, c, s.ledger[c])
    requires !Enclave.AllPrepare(s.ledger[c], 0) && v in s.ledger[c]
    ensures v.preparedView <= c.Accumulator().NamedView()
    ensures c.Accumulator().NamedView() > 0 ==>
              && w in s.ledger && w.view < c.view
              && Certifies(w, c.Accumulator().NamedView(), c.Accumulator().NamedHash())
  {
    var a, cs := c.Accumulator(), s.ledger[c];
    var k :| 0 <= k < |cs| && cs[k].preparedView == a.NamedView() && cs[k].preparedHash == a.NamedHash();
    assert UsigOk(s.ledger, s.n, cs[k]);
    w := c;
    if a.NamedView() > 0 {
      w :| w in s.ledger && Certifies(w, a.NamedView(), a.NamedHash());
    }
  }

  lemma LockedBlockExtends(s: System, b: Block, g: Block, cs: seq<SignedCommitment>, j: Block)
    requires ConsensusInv(s) && Chained(s.ledger) && Locked(s, b, g, cs)
    requires Known(s.ledger, j) && j.view == g.view + 1
    ensures Extends(s.ledger, j, g)
  {
    VoterHoldsLock(s, b, g, cs, cs[0]);
    assert Known(s.ledger, b) && j == b;
    ExtendsThrough(s.ledger, b, g, g);
  }

  /**
   * Once a quorum has voted for the block of view a+1 whose parent and justification are both the
   * block `g` of view a, every accumulator for a view above a+1 names `g` or a descendant of it.
   */
  lemma {:induction false} LockLemma(s: System, b: Block, g: Block, cs: seq<SignedCommitment>, c: Block)
    requires ConsensusInv(s) && Locked(s, b, g, cs)
    requires c in s.ledger && c.view >= g.view + 2
    ensures Chained(s.ledger) && Extends(s.ledger, Justifier(s.ledger, c), g)
    decreases c.view
  {
    LedgerIsChained(s);
    var j := Justifier(s.ledger, c);
    if Enclave.AllPrepare(s.ledger[c], 0) {
      PrepareQuorumNames(s, c);
      if j.view == g.view + 1 {
        LockedBlockExtends(s, b, g, cs, j);
      } else {
        LockLemma(s, b, g, cs, j);
      }
    } else {
      var v := LaterQuorumSeesLock(s, b, g, cs, c);
      assert BlockOk(s.ledger, s.usigs, s.n, c, s.ledger[c]);
      var w := LockQuorumNames(s, c, v);
      if j.view > g.view {
        LockLemma(s, b, g, cs, w);
        assert Names(s.ledger, w, j);
        JustifierIs(s.ledger, w, j);
      } else {
        assert Known(s.ledger, j) && Known(s.ledger, g);
      }
    }
  }

  /** The last two blocks of a three-chain show that the first one is locked. */
  lemma ThreeChainLocks(s: System, b: Block, j: Block, g: Block)
    requires ConsensusInv(s) && ThreeChain(s.ledger, b, j, g)
    ensures Locked(s, j, g, s.ledger[b])
    ensures b.view == g.view + 2 && j.view == g.view + 1
  {
    hide EnclavesOk, OneBlockPerView, HistoryOk, LeadersMovedOn, Named, ParentOk;
    var a, cs := b.Accumulator(), s.ledger[b];
    assert BlockOk(s.ledger, s.usigs, s.n, b, cs);
    assert BlockOk(s.ledger, s.usigs, s.n, j, s.ledger[j]);
    LinkedNamesPredecessor(s.ledger, s.usigs, s.n, b, cs);
    LinkedNamesPredecessor(s.ledger, s.usigs, s.n, j, s.ledger[j]);
    forall k | 0 <= k < |cs| ensures cs[k].preparedView < a.view {
      assert UsigOk(s.ledger, s.n, cs[k]);
    }
  }

  // ---------------------------------------------------------------------------------------------
  // Committed blocks lie on one chain

  ghost predicate Committed(ledger: Ledger, g: Block) {
    exists b, j :: ThreeChain(ledger, b, j, g)
  }

  lemma CommittedExtend(s: System, g: Block, h: Block)
    requires ConsensusInv(s) && Committed(s.ledger, g) && Committed(s.ledger, h) && g.view <= h.view
    ensures Extends(s.ledger, h, g)
  {
    var b, j :| ThreeChain(s.ledger, b, j, g);
    var b', j' :| ThreeChain(s.ledger, b', j', h);
    if g.view < h.view {
      ThreeChainLocks(s, b, j, g);
      ThreeChainLocks(s, b', j', h);
      LockLemma(s, j, g, s.ledger[b], j');
      JustifierIs(s.ledger, j', h);
    } else {
      assert Known(s.ledger, g) && Known(s.ledger, h);
    }
  }

  /** All committed blocks lie on one chain. */
  ghost predicate OneChain(ledger: Ledger) {
    && Chained(ledger)
    && forall g, h :: Committed(ledger, g) && Committed(ledger, h) && g.view <= h.view ==> Extends(ledger, h, g)
  }

  lemma CommittedOnOneChain(s: System)
    requires ConsensusInv(s)
    ensures OneChain(s.ledger)
  {
    LedgerIsChained(s);
    forall g, h | Committed(s.ledger, g) && Committed(s.ledger, h) && g.view <= h.view
      ensures Extends(s.ledger, h, g)
    {
      CommittedExtend(s, g, h);
    }
  }

  // ---------------------------------------------------------------------------------------------
  // What replicas executed

  /** A replica has executed exactly the chain of some committed block. */
  ghost predicate ExecutedOk(ledger: Ledger, blocks: seq<Block>) {
    exists g :: (g == GENESIS || Committed(ledger, g)) && blocks == Chain(ledger, g)
  }

  ghost predicate Inv(s: System) {
    && ConsensusInv(s)
    && |s.executed| == s.n
    && forall i :: 0 <= i < s.n ==> ExecutedOk(s.ledger, s.executed[i])
  }

  lemma CommittedStays(ledger: Ledger, ledger': Ledger, g: Block)
    requires Grows(ledger, ledger') && Committed(ledger, g)
    ensures Committed(ledger', g)
  {
    var b, j :| ThreeChain(ledger, b, j, g);
    assert ThreeChain(ledger', b, j, g);
  }

  lemma ExecutedStays(ledger: Ledger, ledger': Ledger, blocks: seq<Block>)
    requires Chained(ledger) && Chained(ledger') && Grows(ledger, ledger') && ExecutedOk(ledger, blocks)
    ensures ExecutedOk(ledger', blocks)
  {
    var g :| (g == GENESIS || Committed(ledger, g)) && blocks == Chain(ledger, g);
    ChainStays(ledger, ledger', g);
    if g != GENESIS {
      CommittedStays(ledger, ledger', g);
    }
  }

  /** Of two blocks, each committed or genesis, the one with the higher view extends the other. */
  lemma LaterExtends(ledger: Ledger, g: Block, h: Block)
    requires OneChain(ledger)
    requires g == GENESIS || Committed(ledger, g)
    requires h == GENESIS || Committed(ledger, h)
    requires g.view <= h.view
    ensures Known(ledger, g) && Known(ledger, h) && Extends(ledger, h, g)
  {
    if g == GENESIS {
      ExtendsGenesis(ledger, h);
    }
  }

  lemma {:induction false} ExtendsGenesis(ledger: Ledger, h: Block)
    requires Chained(ledger) && Known(ledger, h)
    ensures Extends(ledger, h, GENESIS)
    decreases h.view
  {
    if h != GENESIS {
      ExtendsGenesis(ledger, Justifier(ledger, h));
    }
  }

  /** Executing a committed block on top of the chain of another one leaves the chain of the later of the two. */
  lemma ExecuteContinues(ledger: Ledger, blocks: seq<Block>, h: Block)
    requires OneChain(ledger) && ExecutedOk(ledger, blocks) && Committed(ledger, h)
    ensures ExecutedOk(ledger, blocks + Pending(ledger, blocks, h))
  {
    hide Chained, Extends, Pending;
    var g :| (g == GENESIS || Committed(ledger, g)) && blocks == Chain(ledger, g);
    hide Chain;
    if g.view <= h.view {
      LaterExtends(ledger, g, h);
      PendingContinues(ledger, g, h);
    } else {
      LaterExtends(ledger, h, g);
      PendingOfAncestor(ledger, g, h);
      assert blocks + [] == blocks;
    }
  }

  lemma StepKeepsInv(s: System, step: Step)
    requires Inv(s) && Enabled(s, step)
    ensures Inv(Next(s, step))
    ensures Grows(s.ledger, Next(s, step).ledger) && s.usigs <= Next(s, step).usigs
  {
    var s' := Next(s, step);
    StepKeepsConsensus(s, step);
    CommittedOnOneChain(s);
    CommittedOnOneChain(s');
    StepKeepsExecuted(s, step);
  }

  lemma StepKeepsExecuted(s: System, step: Step)
    requires Enabled(s, step) && Grows(s.ledger, Next(s, step).ledger)
    requires OneChain(s.ledger) && OneChain(Next(s, step).ledger)
    requires forall i :: 0 <= i < s.n ==> ExecutedOk(s.ledger, s.executed[i])
    ensures var s' := Next(s, step); |s'.executed| == s.n && forall i :: 0 <= i < s.n ==> ExecutedOk(s'.ledger, s'.executed[i])
  {
    var s' := Next(s, step);
    forall i | 0 <= i < s.n ensures ExecutedOk(s'.ledger, s'.executed[i]) {
      if step.Execute? && i == step.replica {
        ExecuteContinues(s.ledger, s.executed[i], Grandparent(s.ledger, step.block));
      } else {
        ExecutedStays(s.ledger, s'.ledger, s.executed[i]);
      }
    }
  }

  lemma {:induction false} RunKeepsInv(s: System, steps: seq<Step>)
    requires Inv(s) && EnabledAll(s, steps)
    ensures Inv(Run(s, steps)) && Run(s, steps).n == s.n
    decreases |steps|
  {
    if steps != [] {
      StepKeepsInv(s, steps[0]);
      RunKeepsInv(Next(s, steps[0]), steps[1..]);
    }
  }

  lemma InitialInv(n: nat)
    ensures Inv(Initial(n))
  {
    InitialConsensus(n);
    assert Chain(map[], GENESIS) == [];
  }

  /** Of two sequences one is a prefix of the other. */
  ghost predicate Comparable<T>(a: seq<T>, b: seq<T>) {
    a <= b || b <= a
  }

  lemma ExecutedComparable(ledger: Ledger, blocks: seq<Block>, blocks': seq<Block>)
    requires OneChain(ledger) && ExecutedOk(ledger, blocks) && ExecutedOk(ledger, blocks')
    ensures Comparable(blocks, blocks')
  {
    var g :| (g == GENESIS || Committed(ledger, g)) && blocks == Chain(ledger, g);
    var h :| (h == GENESIS || Committed(ledger, h)) && blocks' == Chain(ledger, h);
    if g.view <= h.view {
      LaterExtends(ledger, g, h);
      ExtendsIsPrefix(ledger, h, g);
    } else {
      LaterExtends(ledger, h, g);
      ExtendsIsPrefix(ledger, g, h);
    }
  }

  /** Agreement: in every run, the blocks any two replicas executed are prefix-comparable. */
  lemma Agreement(n: nat, steps: seq<Step>, i: ReplicaId, j: ReplicaId)
    requires EnabledAll(Initial(n), steps) && i < n && j < n
    ensures |Run(Initial(n), steps).executed| == n
    ensures Comparable(Run(Initial(n), steps).executed[i], Run(Initial(n), steps).executed[j])
  {
    InitialInv(n);
    RunKeepsInv(Initial(n), steps);
    var s := Run(Initial(n), steps);
    CommittedOnOneChain(s);
    ExecutedComparable(s.ledger, s.executed[i], s.executed[j]);
  }

  /** The lock lemma for every state of every run. */
  lemma LockHoldsInRuns(n: nat, steps: seq<Step>, b: Block, g: Block, cs: seq<SignedCommitment>, c: Block)
    requires EnabledAll(Initial(n), steps) && Locked(Run(Initial(n), steps), b, g, cs)
    requires c in Run(Initial(n), steps).ledger && c.view >= g.view + 2
    ensures Extends(Run(Initial(n), steps).ledger, Justifier(Run(Initial(n), steps).ledger, c), g)
  {
    InitialInv(n);
    RunKeepsInv(Initial(n), steps);
    LockLemma(Run(Initial(n), steps), b, g, cs, c);
  }

  /** In every run, the blocks a replica executed continue genesis one after the other, ancestors first and each once. */
  lemma ExecutedInOrder(n: nat, steps: seq<Step>, i: ReplicaId)
    requires EnabledAll(Initial(n), steps) && i < n
    ensures |Run(Initial(n), steps).executed| == n
    ensures Consecutive(Run(Initial(n), steps).ledger, Run(Initial(n), steps).executed[i])
  {
    InitialInv(n);
    RunKeepsInv(Initial(n), steps);
    var s := Run(Initial(n), steps);
    CommittedOnOneChain(s);
    ExecutedIsConsecutive(s.ledger, s.executed[i]);
  }

  lemma ExecutedIsConsecutive(ledger: Ledger, blocks: seq<Block>)
    requires Chained(ledger) && ExecutedOk(ledger, blocks)
    ensures Consecutive(ledger, blocks)
  {
    var g :| (g == GENESIS || Committed(ledger, g)) && blocks == Chain(ledger, g);
    ChainIsConsecutive(ledger, g);
  }

  /** The transactions any two replicas delivered are prefix-comparable as well. */
  lemma DeliveryAgreement(n: nat, steps: seq<Step>, i: ReplicaId, j: ReplicaId)
    requires EnabledAll(Initial(n), steps) && i < n && j < n
    ensures |Run(Initial(n), steps).executed| == n
    ensures var executed := Run(Initial(n), steps).executed;
            Comparable(DeliverBlocks(NOTHING, executed[i]).log, DeliverBlocks(NOTHING, executed[j]).log)
  {
    Agreement(n, steps, i, j);
    var executed := Run(Initial(n), steps).executed;
    if executed[i] <= executed[j] {
      DeliveryGrows(NOTHING, executed[i], executed[j]);
    } else {
      DeliveryGrows(NOTHING, executed[j], executed[i]);
    }
  }

  /** At most one block per view ever exists, and the leader of its view made it. */
  lemma BlocksAreUnique(n: nat, steps: seq<Step>, b: Block, b': Block)
    requires EnabledAll(Initial(n), steps)
    requires b in Run(Initial(n), steps).ledger && b' in Run(Initial(n), steps).ledger
    ensures n > 0 && b.creator == Leader(b.view, n) && b.view > 0
    ensures b.view == b'.view ==> b == b'
  {
    InitialInv(n);
    RunKeepsInv(Initial(n), steps);
    var s := Run(Initial(n), steps);
    assert BlockOk(s.ledger, s.usigs, s.n, b, s.ledger[b]);
    assert Known(s.ledger, b) && Known(s.ledger, b');
  }

  /** Every commitment names blocks of its own view at most, and is the only one of its creator for its view. */
  lemma CommitmentBounds(n: nat, steps: seq<Step>, c: SignedCommitment, d: SignedCommitment)
    requires EnabledAll(Initial(n), steps)
    requires c in Run(Initial(n), steps).usigs && d in Run(Initial(n), steps).usigs
    ensures c.blockView <= c.view && c.preparedView <= c.view
    ensures c.view > 0 ==> c.preparedView < c.view
    ensures c.creator == d.creator && c.view == d.view ==> c == d
    ensures c.creator == d.creator && c.view <= d.view ==> c.preparedView <= d.preparedView
  {
    InitialInv(n);
    RunKeepsInv(Initial(n), steps);
    var s := Run(Initial(n), steps);
    assert UsigOk(s.ledger, s.n, c);
    assert InOrder(c, d);
  }

  /**
   * An enclave's lock lies strictly below its view once the view is positive, never moves back,
   * and a commitment re-signed after view 0 is always a new-view commitment.
   */
  lemma LockBounds(n: nat, steps: seq<Step>, more: seq<Step>, i: ReplicaId)
    requires EnabledAll(Initial(n), steps) && EnabledAll(Run(Initial(n), steps), more) && i < n
    ensures var s, t := Run(Initial(n), steps), Run(Run(Initial(n), steps), more);
            && |s.enclaves| == n == |t.enclaves|
            && (s.enclaves[i].view > 0 ==> s.enclaves[i].preparedView < s.enclaves[i].view)
            && (s.enclaves[i].view > 0 ==> Enclave.ReSignLastPrepared(s.enclaves[i]).1.value.phase.NewView?)
            && s.enclaves[i].view <= t.enclaves[i].view
            && s.enclaves[i].preparedView <= t.enclaves[i].preparedView
  {
    InitialInv(n);
    RunKeepsInv(Initial(n), steps);
    var s := Run(Initial(n), steps);
    assert EnclaveOk(s.ledger, s.n, i, s.enclaves[i]);
    LocksOnlyAdvance(s, more, i);
  }

  lemma StepAdvancesLock(s: System, step: Step, i: ReplicaId)
    requires Inv(s) && Enabled(s, step) && i < s.n
    ensures var e, e' := s.enclaves[i], Next(s, step).enclaves[i];
            e.view <= e'.view && e.preparedView <= e'.preparedView
  {
    hide UsigsOk, HistoryOk, LeadersMovedOn, LockOk, BlockOk, OneBlockPerView;
    if i == step.replica {
      match step
      case Propose(_, cs, parent, txs) =>
        RecordedOk(s, step);
        LedgerGrows(s.ledger, Recorded(s, step).ledger, s.n, s.enclaves, s.usigs);
        VoteIssues(Recorded(s, step), i, Proposal(s, i, cs, parent, txs));
      case Vote(_, b) => VoteIssues(s, i, b);
      case _ =>
    }
  }

  lemma {:induction false} LocksOnlyAdvance(s: System, steps: seq<Step>, i: ReplicaId)
    requires Inv(s) && EnabledAll(s, steps) && i < s.n
    ensures |Run(s, steps).enclaves| == s.n
    ensures var e, e' := s.enclaves[i], Run(s, steps).enclaves[i];
            e.view <= e'.view && e.preparedView <= e'.preparedView
    decreases |steps|
  {
    if steps != [] {
      StepKeepsInv(s, steps[0]);
      StepAdvancesLock(s, steps[0], i);
      LocksOnlyAdvance(Next(s, steps[0]), steps[1..], i);
    }
  }
}
