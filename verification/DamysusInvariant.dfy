/**
 * The inductive invariant of the step system, and the proof that every step keeps it.
 */
module DamysusInvariant {
  import opened DamysusTypes
  import opened DamysusSystem
  import Enclave = DamysusEnclave

  // ---------------------------------------------------------------------------------------------
  // The invariant, by component

  /** A view and a hash that belong to a known block. */
  ghost predicate Named(ledger: Ledger, view: View, hash: BlockHash) {
    exists b :: Known(ledger, b) && b.view == view && b.Hash() == hash
  }

  /** A block that makes its voters lock the block of the given view and hash. */
  ghost predicate Certifies(b: Block, view: View, hash: BlockHash) {
    && b.view == view + 1
    && b.justification.Quorum?
    && b.Accumulator().NamedView() == view
    && b.Accumulator().NamedHash() == hash
  }

  /** What an enclave at the given view may hold as its last prepared block. */
  ghost predicate LockOk(ledger: Ledger, view: View, preparedView: View, preparedHash: BlockHash) {
    && Named(ledger, preparedView, preparedHash)
    && (view == 0 ==> preparedView == 0)
    && (view > 0 ==> preparedView < view)
    && (preparedView > 0 ==> exists b :: b in ledger && Certifies(b, preparedView, preparedHash))
  }

  ghost predicate EnclaveOk(ledger: Ledger, n: nat, i: ReplicaId, e: Enclave.Enclave) {
    && e.me == i
    && e.quorum == QuorumSize(n)
    && LockOk(ledger, e.view, e.preparedView, e.preparedHash)
  }

  /** A prepare-phase commitment stands for `b`; when `b` is linked, its voter has locked b's justification. */
  ghost predicate VotesFor(c: SignedCommitment, b: Block) {
    && b.view == c.view
    && b.Hash() == c.blockHash
    && (b.Linked() ==>
          c.preparedView == b.Accumulator().NamedView() && c.preparedHash == b.Accumulator().NamedHash())
  }

  ghost predicate UsigOk(ledger: Ledger, n: nat, c: SignedCommitment) {
    && c.kind.Usig?
    && c.creator < n
    && c.ProperlySigned()
    && LockOk(ledger, c.view, c.preparedView, c.preparedHash)
    && (c.phase.Prepare? ==> c.blockView == c.view && exists b :: Known(ledger, b) && VotesFor(c, b))
    && (c.phase.NewView? ==> c.view > 0 && c.blockView == c.preparedView)
  }

  /** The commitments counted for accumulator `a`, and which block that makes it name. */
  ghost predicate QuorumOk(usigs: set<SignedCommitment>, n: nat, a: SignedCommitment, cs: seq<SignedCommitment>) {
    && |cs| == QuorumSize(n)
    && Enclave.DistinctCreators(cs, 0)
    && (forall k :: 0 <= k < |cs| ==> cs[k] in usigs && cs[k].view == a.view)
    && (Enclave.AllPrepare(cs, 0) ==>
          a.NamedView() == a.view && forall k :: 0 <= k < |cs| ==> cs[k].NamedHash() == a.NamedHash())
    && (!Enclave.AllPrepare(cs, 0) ==>
          && (exists k :: 0 <= k < |cs| && cs[k].preparedView == a.NamedView() && cs[k].preparedHash == a.NamedHash())
          && (forall k :: 0 <= k < |cs| ==> cs[k].preparedView <= a.NamedView()))
  }

  ghost predicate ParentOk(ledger: Ledger, view: View, parent: Parent) {
    parent.ParentHash? ==> exists p :: Known(ledger, p) && p.view + 1 == view && p.Hash() == parent.hash
  }

  ghost predicate BlockOk(ledger: Ledger, usigs: set<SignedCommitment>, n: nat, b: Block, cs: seq<SignedCommitment>) {
    && b.view > 0
    && n > 0
    && b.creator == Leader(b.view, n)
    && b.justification.Quorum?
    && var a := b.Accumulator();
    && a.kind.Accumulator?
    && a.creator == b.creator
    && a.ProperlySigned()
    && a.view + 1 == b.view
    && a.NamedView() < b.view
    && Named(ledger, a.NamedView(), a.NamedHash())
    && ParentOk(ledger, b.view, b.parent)
    && QuorumOk(usigs, n, a, cs)
  }

  ghost predicate EnclavesOk(ledger: Ledger, n: nat, enclaves: seq<Enclave.Enclave>) {
    && |enclaves| == n
    && forall i :: 0 <= i < n ==> EnclaveOk(ledger, n, i, enclaves[i])
  }

  ghost predicate UsigsOk(ledger: Ledger, n: nat, usigs: set<SignedCommitment>) {
    forall c :: c in usigs ==> UsigOk(ledger, n, c)
  }

  ghost predicate LedgerOk(ledger: Ledger, usigs: set<SignedCommitment>, n: nat) {
    forall b :: b in ledger ==> BlockOk(ledger, usigs, n, b, ledger[b])
  }

  /** At most one block exists per view. */
  ghost predicate OneBlockPerView(ledger: Ledger) {
    forall b, b' :: Known(ledger, b) && Known(ledger, b') && b.view == b'.view ==> b == b'
  }

  /** The leader of a view has left it once it proposed a block. */
  ghost predicate LeadersMovedOn(ledger: Ledger, enclaves: seq<Enclave.Enclave>) {
    forall b :: b in ledger ==> b.creator < |enclaves| && b.view < enclaves[b.creator].view
  }

  /** A usig commitment lies in its creator's past. */
  ghost predicate Past(c: SignedCommitment, e: Enclave.Enclave) {
    c.view < e.view && c.preparedView <= e.preparedView
  }

  /** Of two commitments by one creator, the later one has the same or a later lock. */
  ghost predicate InOrder(c: SignedCommitment, d: SignedCommitment) {
    c.creator == d.creator ==>
      && (c.view == d.view ==> c == d)
      && (c.view < d.view ==> c.preparedView <= d.preparedView)
  }

  ghost predicate HistoryOk(usigs: set<SignedCommitment>, enclaves: seq<Enclave.Enclave>) {
    && (forall c :: c in usigs ==> c.creator < |enclaves| && Past(c, enclaves[c.creator]))
    && (forall c, d :: c in usigs && d in usigs ==> InOrder(c, d))
  }

  /** Everything but what replicas executed. */
  ghost predicate ConsensusInv(s: System) {
    && EnclavesOk(s.ledger, s.n, s.enclaves)
    && UsigsOk(s.ledger, s.n, s.usigs)
    && LedgerOk(s.ledger, s.usigs, s.n)
    && OneBlockPerView(s.ledger)
    && LeadersMovedOn(s.ledger, s.enclaves)
    && HistoryOk(s.usigs, s.enclaves)
  }

  // ---------------------------------------------------------------------------------------------
  // The components survive growth of the ledger and of the commitments issued

  ghost predicate Grows(ledger: Ledger, ledger': Ledger) {
    forall b :: b in ledger ==> b in ledger' && ledger'[b] == ledger[b]
  }

  lemma NamedStays(ledger: Ledger, ledger': Ledger, view: View, hash: BlockHash)
    requires Grows(ledger, ledger') && Named(ledger, view, hash)
    ensures Named(ledger', view, hash)
  {
    var b :| Known(ledger, b) && b.view == view && b.Hash() == hash;
    assert Known(ledger', b);
  }

  lemma LockStays(ledger: Ledger, ledger': Ledger, view: View, preparedView: View, preparedHash: BlockHash)
    requires Grows(ledger, ledger') && LockOk(ledger, view, preparedView, preparedHash)
    ensures LockOk(ledger', view, preparedView, preparedHash)
  {
    NamedStays(ledger, ledger', preparedView, preparedHash);
  }

  lemma UsigStays(ledger: Ledger, ledger': Ledger, n: nat, c: SignedCommitment)
    requires Grows(ledger, ledger') && UsigOk(ledger, n, c)
    ensures UsigOk(ledger', n, c)
  {
    LockStays(ledger, ledger', c.view, c.preparedView, c.preparedHash);
    if c.phase.Prepare? {
      var b :| Known(ledger, b) && VotesFor(c, b);
      assert Known(ledger', b);
    }
  }

  lemma BlockStays(ledger: Ledger, ledger': Ledger, usigs: set<SignedCommitment>, usigs': set<SignedCommitment>,
                   n: nat, b: Block, cs: seq<SignedCommitment>)
    requires Grows(ledger, ledger') && usigs <= usigs' && BlockOk(ledger, usigs, n, b, cs)
    ensures BlockOk(ledger', usigs', n, b, cs)
  {
    NamedStays(ledger, ledger', b.Accumulator().NamedView(), b.Accumulator().NamedHash());
    if b.parent.ParentHash? {
      var p :| Known(ledger, p) && p.view + 1 == b.view && p.Hash() == b.parent.hash;
      assert Known(ledger', p);
    }
  }

  lemma LedgerGrows(ledger: Ledger, ledger': Ledger, n: nat, enclaves: seq<Enclave.Enclave>, usigs: set<SignedCommitment>)
    requires Grows(ledger, ledger')
    requires EnclavesOk(ledger, n, enclaves) && UsigsOk(ledger, n, usigs)
    ensures EnclavesOk(ledger', n, enclaves) && UsigsOk(ledger', n, usigs)
  {
    forall i | 0 <= i < n ensures EnclaveOk(ledger', n, i, enclaves[i]) {
      LockStays(ledger, ledger', enclaves[i].view, enclaves[i].preparedView, enclaves[i].preparedHash);
    }
    forall c | c in usigs ensures UsigOk(ledger', n, c) {
      UsigStays(ledger, ledger', n, c);
    }
  }

  lemma UsigsGrow(ledger: Ledger, usigs: set<SignedCommitment>, usigs': set<SignedCommitment>, n: nat)
    requires usigs <= usigs' && LedgerOk(ledger, usigs, n)
    ensures LedgerOk(ledger, usigs', n)
  {
    forall b | b in ledger ensures BlockOk(ledger, usigs', n, b, ledger[b]) {
      BlockStays(ledger, ledger, usigs, usigs', n, b, ledger[b]);
    }
  }

  // ---------------------------------------------------------------------------------------------
  // Issuing a usig commitment

  /** What a new usig commitment and the enclave's state after it look like. */
  ghost predicate Issues(s: System, i: ReplicaId, e': Enclave.Enclave, c: SignedCommitment)
    requires i < |s.enclaves|
  {
    && c.creator == i
    && c.view == s.enclaves[i].view
    && e'.view == c.view + 1
    && e'.preparedView == c.preparedView
    && s.enclaves[i].preparedView <= c.preparedView
    && UsigOk(s.ledger, s.n, c)
    && EnclaveOk(s.ledger, s.n, i, e')
  }

  lemma IssueKeepsHistory(s: System, i: ReplicaId, e': Enclave.Enclave, c: SignedCommitment)
    requires i < |s.enclaves| && HistoryOk(s.usigs, s.enclaves) && Issues(s, i, e', c)
    ensures HistoryOk(s.usigs + {c}, s.enclaves[i := e'])
  {
    forall d | d in s.usigs ensures InOrder(c, d) && InOrder(d, c) {
      assert Past(d, s.enclaves[d.creator]);
    }
    assert InOrder(c, c);
  }

  /** Every leader has moved on, except possibly `i`, which does so by reaching `e'`. */
  ghost predicate LeadersMoveOn(ledger: Ledger, enclaves: seq<Enclave.Enclave>, i: ReplicaId, e': Enclave.Enclave) {
    forall b :: b in ledger ==>
      b.creator < |enclaves| && (b.view < enclaves[b.creator].view || (b.creator == i && b.view < e'.view))
  }

  lemma IssueKeepsLeaders(s: System, i: ReplicaId, e': Enclave.Enclave)
    requires i < |s.enclaves| && s.enclaves[i].view <= e'.view && LeadersMoveOn(s.ledger, s.enclaves, i, e')
    ensures LeadersMovedOn(s.ledger, s.enclaves[i := e'])
  {
  }

  lemma IssueKeepsEnclaves(s: System, i: ReplicaId, e': Enclave.Enclave, c: SignedCommitment)
    requires i < |s.enclaves| && Issues(s, i, e', c)
    requires EnclavesOk(s.ledger, s.n, s.enclaves) && UsigsOk(s.ledger, s.n, s.usigs)
    ensures EnclavesOk(s.ledger, s.n, s.enclaves[i := e']) && UsigsOk(s.ledger, s.n, s.usigs + {c})
  {
  }

  lemma IssueKeeps(s: System, i: ReplicaId, e': Enclave.Enclave, c: SignedCommitment)
    requires i < |s.enclaves| && Issues(s, i, e', c)
    requires EnclavesOk(s.ledger, s.n, s.enclaves) && UsigsOk(s.ledger, s.n, s.usigs)
    requires LedgerOk(s.ledger, s.usigs, s.n) && OneBlockPerView(s.ledger) && HistoryOk(s.usigs, s.enclaves)
    requires LeadersMoveOn(s.ledger, s.enclaves, i, e')
    ensures ConsensusInv(s.(enclaves := s.enclaves[i := e'], usigs := s.usigs + {c}))
  {
    var s' := s.(enclaves := s.enclaves[i := e'], usigs := s.usigs + {c});
    assert HistoryOk(s'.usigs, s'.enclaves) by { IssueKeepsHistory(s, i, e', c); }
    assert LedgerOk(s'.ledger, s'.usigs, s'.n) by { UsigsGrow(s.ledger, s.usigs, s'.usigs, s.n); }
    assert LeadersMovedOn(s'.ledger, s'.enclaves) by { IssueKeepsLeaders(s, i, e'); }
    IssueKeepsEnclaves(s, i, e', c);
  }

  /** Re-signing the last prepared block, which after view 0 always gives a new-view commitment. */
  lemma ReSignIssues(s: System, i: ReplicaId)
    requires i < s.n && EnclavesOk(s.ledger, s.n, s.enclaves) && LedgerOk(s.ledger, s.usigs, s.n)
    ensures var r := Enclave.ReSignLastPrepared(s.enclaves[i]);
            && r.1.Success?
            && Issues(s, i, r.0, r.1.value)
            && (r.1.value.phase.NewView? <==> s.enclaves[i].view > 0)
  {
    var e := s.enclaves[i];
    var r := Enclave.ReSignLastPrepared(e);
    var c := r.1.value;
    assert EnclaveOk(s.ledger, s.n, i, e);
    if e.view == 0 {
      var b :| Known(s.ledger, b) && b.view == e.preparedView && b.Hash() == e.preparedHash;
      assert b == GENESIS && VotesFor(c, b);
    }
  }

  // ---------------------------------------------------------------------------------------------
  // Voting for a block

  /** A linked block names the block of the view before. */
  lemma LinkedNamesPredecessor(ledger: Ledger, usigs: set<SignedCommitment>, n: nat, b: Block, cs: seq<SignedCommitment>)
    requires BlockOk(ledger, usigs, n, b, cs) && b.Linked()
    ensures b.Accumulator().NamedView() + 1 == b.view
  {
    var a := b.Accumulator();
    var j :| Known(ledger, j) && j.view == a.NamedView() && j.Hash() == a.NamedHash();
    var p :| Known(ledger, p) && p.view + 1 == b.view && p.Hash() == b.parent.hash;
    assert j.Hash() == p.Hash();
  }

  lemma VoteIssues(s: System, i: ReplicaId, b: Block)
    requires i < s.n && EnclavesOk(s.ledger, s.n, s.enclaves)
    requires b in s.ledger && BlockOk(s.ledger, s.usigs, s.n, b, s.ledger[b])
    requires b.view == s.enclaves[i].view && Prepared(s.enclaves[i], b).1.Success?
    ensures var r := Prepared(s.enclaves[i], b);
            Issues(s, i, r.0, r.1.value) && r.1.value.phase.Prepare? && VotesFor(r.1.value, b)
  {
    var e, a := s.enclaves[i], b.Accumulator();
    var r := Prepared(e, b);
    var c := r.1.value;
    assert EnclaveOk(s.ledger, s.n, i, e);
    assert c.creator == i && c.view == e.view && c.phase.Prepare? && c.ProperlySigned();
    if b.Linked() {
      LinkedNamesPredecessor(s.ledger, s.usigs, s.n, b, s.ledger[b]);
      assert Certifies(b, a.NamedView(), a.NamedHash());
    }
    assert LockOk(s.ledger, c.view, c.preparedView, c.preparedHash);
    assert VotesFor(c, b) && Known(s.ledger, b);
  }

  // ---------------------------------------------------------------------------------------------
  // Proposing a block

  lemma AccumulatingView(e: Enclave.Enclave, cs: seq<SignedCommitment>)
    requires Enclave.Accumulate(e, cs).Success?
    ensures e.view > 0
  {
  }

  lemma CountedIsQuorum(s: System, i: ReplicaId, cs: seq<SignedCommitment>)
    requires i < s.n && EnclavesOk(s.ledger, s.n, s.enclaves)
    requires forall c :: c in cs ==> c in s.usigs
    requires Enclave.Accumulate(s.enclaves[i], cs).Success?
    ensures var e := s.enclaves[i];
            var a := Enclave.Accumulate(e, cs).value;
            && a.kind.Accumulator? && a.creator == i && a.view + 1 == e.view && a.ProperlySigned()
            && QuorumOk(s.usigs, s.n, a, Counted(e, cs))
  {
    hide LockOk, Enclave.Accumulate;
    var e := s.enclaves[i];
    assert EnclaveOk(s.ledger, s.n, i, e);
    assert e.view > 0 by { AccumulatingView(e, cs); }
    Enclave.AccumulateMeaning(e, cs);
    SuffixIsQuorum(s.usigs, s.n, e, cs, Enclave.Accumulate(e, cs).value);
  }

  /** The same commitments, taken out of the list they end. */
  lemma SuffixFacts(cs: seq<SignedCommitment>, ds: seq<SignedCommitment>, first: nat)
    requires first <= |cs| && ds == cs[first..]
    ensures Enclave.AllPrepare(cs, first) <==> Enclave.AllPrepare(ds, 0)
    ensures Enclave.DistinctCreators(cs, first) ==> Enclave.DistinctCreators(ds, 0)
  {
    assert forall k :: first <= k < |cs| ==> cs[k] == ds[k - first];
  }

  lemma SuffixIsQuorum(usigs: set<SignedCommitment>, n: nat, e: Enclave.Enclave, cs: seq<SignedCommitment>, a: SignedCommitment)
    requires Enclave.Acceptable(e, cs) && e.quorum == QuorumSize(n) && a.view + 1 == e.view
    requires forall c :: c in cs ==> c in usigs
    requires var first := |cs| - e.quorum;
             && (Enclave.AllPrepare(cs, first) ==>
                   a.NamedView() == a.view && forall k :: first <= k < |cs| ==> cs[k].NamedHash() == a.NamedHash())
             && (!Enclave.AllPrepare(cs, first) ==>
                   && (exists k :: first <= k < |cs| && cs[k].preparedView == a.NamedView() && cs[k].preparedHash == a.NamedHash())
                   && (forall k :: first <= k < |cs| ==> cs[k].preparedView <= a.NamedView()))
    ensures QuorumOk(usigs, n, a, Counted(e, cs))
  {
    hide Enclave.AllPrepare, Enclave.DistinctCreators;
    var first, ds := |cs| - e.quorum, Counted(e, cs);
    SuffixFacts(cs, ds, first);
    forall k | 0 <= k < |ds| ensures ds[k] == cs[first + k] && ds[k] in usigs && ds[k].view == a.view {
      assert cs[first + k] in cs && Enclave.Fit(e, cs, first + k);
    }
    if !Enclave.AllPrepare(cs, first) {
      var k :| first <= k < |cs| && cs[k].preparedView == a.NamedView() && cs[k].preparedHash == a.NamedHash();
      assert ds[k - first] == cs[k];
    }
  }

  lemma QuorumNames(s: System, a: SignedCommitment, cs: seq<SignedCommitment>)
    requires UsigsOk(s.ledger, s.n, s.usigs) && QuorumOk(s.usigs, s.n, a, cs)
    ensures a.NamedView() <= a.view && Named(s.ledger, a.NamedView(), a.NamedHash())
  {
    if Enclave.AllPrepare(cs, 0) {
      var c := cs[0];
      assert UsigOk(s.ledger, s.n, c);
      var b :| Known(s.ledger, b) && VotesFor(c, b);
    } else {
      var k :| 0 <= k < |cs| && cs[k].preparedView == a.NamedView() && cs[k].preparedHash == a.NamedHash();
      assert UsigOk(s.ledger, s.n, cs[k]);
    }
  }

  /** A leader that proposes has not proposed in its current view before. */
  lemma ProposalIsNew(s: System, i: ReplicaId)
    requires ConsensusInv(s) && i < s.n && i == Leader(s.enclaves[i].view, s.n)
    ensures forall b :: b in s.ledger ==> b.view != s.enclaves[i].view
  {
    forall b | b in s.ledger ensures b.view != s.enclaves[i].view {
      assert BlockOk(s.ledger, s.usigs, s.n, b, s.ledger[b]);
    }
  }

  lemma ProposalOk(s: System, step: Step)
    requires ConsensusInv(s) && Enabled(s, step) && step.Propose?
    ensures var b := Proposal(s, step.replica, step.commitments, step.parent, step.transactions);
            && b !in s.ledger && b.view > 0
            && BlockOk(s.ledger, s.usigs, s.n, b, Counted(s.enclaves[step.replica], step.commitments))
  {
    var i, cs := step.replica, step.commitments;
    var b := Proposal(s, i, cs, step.parent, step.transactions);
    ProposalIsNew(s, i);
    CountedIsQuorum(s, i, cs);
    QuorumNames(s, b.Accumulator(), Counted(s.enclaves[i], cs));
  }

  lemma ProposalGrowsLedger(s: System, b: Block, cs: seq<SignedCommitment>)
    requires b !in s.ledger && b.view > 0 && BlockOk(s.ledger, s.usigs, s.n, b, cs)
    requires LedgerOk(s.ledger, s.usigs, s.n) && OneBlockPerView(s.ledger)
    requires forall b' :: b' in s.ledger ==> b'.view != b.view
    ensures var ledger' := s.ledger[b := cs];
            Grows(s.ledger, ledger') && LedgerOk(ledger', s.usigs, s.n) && OneBlockPerView(ledger')
  {
    var ledger' := s.ledger[b := cs];
    assert Grows(s.ledger, ledger');
    forall b' | b' in ledger' ensures BlockOk(ledger', s.usigs, s.n, b', ledger'[b']) {
      BlockStays(s.ledger, ledger', s.usigs, s.usigs, s.n, b', ledger'[b']);
    }
    forall b', b'' | Known(ledger', b') && Known(ledger', b'') && b'.view == b''.view ensures b' == b'' {
      assert b' == b || Known(s.ledger, b');
      assert b'' == b || Known(s.ledger, b'');
    }
  }

  /** The leader's own vote, cast in the state that already holds its proposal. */
  lemma OwnVoteKeeps(s: System, i: ReplicaId, b: Block)
    requires i < s.n && EnclavesOk(s.ledger, s.n, s.enclaves) && UsigsOk(s.ledger, s.n, s.usigs)
    requires LedgerOk(s.ledger, s.usigs, s.n) && OneBlockPerView(s.ledger) && HistoryOk(s.usigs, s.enclaves)
    requires b in s.ledger && b.creator == i && b.view == s.enclaves[i].view && b.justification.Quorum?
    requires forall b' :: b' in s.ledger && b' != b ==> b'.creator < s.n && b'.view < s.enclaves[b'.creator].view
    requires Prepared(s.enclaves[i], b).1.Success?
    ensures var r := Prepared(s.enclaves[i], b);
            ConsensusInv(s.(enclaves := s.enclaves[i := r.0], usigs := s.usigs + {r.1.value}))
  {
    var r := Prepared(s.enclaves[i], b);
    VoteIssues(s, i, b);
    assert LeadersMoveOn(s.ledger, s.enclaves, i, r.0);
    IssueKeeps(s, i, r.0, r.1.value);
  }

  /** The state in which a proposal is recorded but its leader has not voted yet. */
  ghost function Recorded(s: System, step: Step): System
    requires Enabled(s, step) && step.Propose?
  {
    var b := Proposal(s, step.replica, step.commitments, step.parent, step.transactions);
    s.(ledger := s.ledger[b := Counted(s.enclaves[step.replica], step.commitments)])
  }

  lemma RecordedOk(s: System, step: Step)
    requires ConsensusInv(s) && Enabled(s, step) && step.Propose?
    ensures var t := Recorded(s, step);
            var b := Proposal(s, step.replica, step.commitments, step.parent, step.transactions);
            && b !in s.ledger
            && Grows(s.ledger, t.ledger) && LedgerOk(t.ledger, t.usigs, t.n) && OneBlockPerView(t.ledger)
  {
    var b := Proposal(s, step.replica, step.commitments, step.parent, step.transactions);
    ProposalOk(s, step);
    ProposalIsNew(s, step.replica);
    ProposalGrowsLedger(s, b, Counted(s.enclaves[step.replica], step.commitments));
  }

  lemma ProposeKeeps(s: System, step: Step)
    requires ConsensusInv(s) && Enabled(s, step) && step.Propose?
    ensures ConsensusInv(Next(s, step)) && Grows(s.ledger, Next(s, step).ledger)
  {
    var i := step.replica;
    var b := Proposal(s, i, step.commitments, step.parent, step.transactions);
    var t := Recorded(s, step);
    RecordedOk(s, step);
    LedgerGrows(s.ledger, t.ledger, s.n, s.enclaves, s.usigs);
    forall b' | b' in t.ledger && b' != b ensures b'.creator < s.n && b'.view < s.enclaves[b'.creator].view {
      assert b' in s.ledger;
    }
    OwnVoteKeeps(t, i, b);
    var r := Prepared(s.enclaves[i], b);
    assert Next(s, step) == t.(enclaves := t.enclaves[i := r.0], usigs := t.usigs + {r.1.value});
  }

  // ---------------------------------------------------------------------------------------------
  // All steps

  lemma JoinKeeps(s: System, i: ReplicaId, e': Enclave.Enclave)
    requires i < s.n && EnclavesOk(s.ledger, s.n, s.enclaves)
    requires LeadersMovedOn(s.ledger, s.enclaves) && HistoryOk(s.usigs, s.enclaves)
    requires e' == s.enclaves[i].(peers := e'.peers)
    ensures EnclavesOk(s.ledger, s.n, s.enclaves[i := e'])
    ensures LeadersMovedOn(s.ledger, s.enclaves[i := e']) && HistoryOk(s.usigs, s.enclaves[i := e'])
  {
    hide LockOk, InOrder;
    assert EnclaveOk(s.ledger, s.n, i, s.enclaves[i]);
    forall c | c in s.usigs ensures c.creator < |s.enclaves| && Past(c, s.enclaves[i := e'][c.creator]) {
      assert Past(c, s.enclaves[c.creator]);
    }
  }

  lemma TimeOutKeeps(s: System, i: ReplicaId)
    requires ConsensusInv(s) && i < s.n
    ensures var r := Enclave.ReSignLastPrepared(s.enclaves[i]);
            ConsensusInv(s.(enclaves := s.enclaves[i := r.0], usigs := s.usigs + {r.1.value}))
  {
    hide UsigsOk, LedgerOk, OneBlockPerView, HistoryOk, LockOk;
    ReSignIssues(s, i);
    var r := Enclave.ReSignLastPrepared(s.enclaves[i]);
    IssueKeeps(s, i, r.0, r.1.value);
  }

  lemma VoteKeeps(s: System, i: ReplicaId, b: Block)
    requires ConsensusInv(s) && i < s.n && b in s.ledger && b.justification.Quorum?
    requires b.view == s.enclaves[i].view && Prepared(s.enclaves[i], b).1.Success?
    ensures var r := Prepared(s.enclaves[i], b);
            ConsensusInv(s.(enclaves := s.enclaves[i := r.0], usigs := s.usigs + {r.1.value}))
  {
    hide UsigsOk, OneBlockPerView, HistoryOk, LockOk, BlockOk;
    VoteIssues(s, i, b);
    var r := Prepared(s.enclaves[i], b);
    IssueKeeps(s, i, r.0, r.1.value);
  }

  lemma StepKeepsConsensus(s: System, step: Step)
    requires ConsensusInv(s) && Enabled(s, step)
    ensures ConsensusInv(Next(s, step))
    ensures Grows(s.ledger, Next(s, step).ledger) && s.usigs <= Next(s, step).usigs
  {
    hide EnclavesOk, UsigsOk, LedgerOk, OneBlockPerView, HistoryOk, Issues;
    var i := step.replica;
    match step
    case Join(_, peer) => JoinKeeps(s, i, Enclave.AddPeer(s.enclaves[i], peer, peer).0);
    case TimeOut(_) =>
      TimeOutKeeps(s, i);
    case Propose(_, _, _, _) => ProposeKeeps(s, step);
    case Vote(_, b) =>
      VoteKeeps(s, i, b);
    case Execute(_, _) =>
  }

  lemma InitialConsensus(n: nat)
    ensures ConsensusInv(Initial(n))
  {
    var s := Initial(n);
    assert Known(s.ledger, GENESIS);
    forall i | 0 <= i < n ensures EnclaveOk(s.ledger, n, i, s.enclaves[i]) {
    }
  }
}
