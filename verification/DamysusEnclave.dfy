/**
 * The trusted automaton of a Damysus replica. It signs one commitment per view, condenses a
 * quorum of commitments into an accumulator and remembers the last prepared block.
 */
module DamysusEnclave {
  import opened Wrappers
  import opened DamysusTypes

  datatype EnclaveError =
    | NoPredecessorView
    | JustificationIsGenesis
    | JustificationInvalidView
    | BlockToPrepareIsForWrongView
    | JustificationBlockHashDoesNotMatchCommitmentBlockHash
    | InvalidAccumulatorSignature
    | IncompatibleCommitmentForAccumulation
    | NonDescendingOrderOfCommitmentsForAccumulation
    | NotEnoughValidCommitmentsForAccumulation
    | DoubleKeyReceived
    | KeyMismatch

  type Issue = Result<SignedCommitment, EnclaveError>

  /** The state of the automaton, together with the peers whose keys it holds. */
  datatype Enclave =
    Enclave(
      me: ReplicaId,
      quorum: nat,
      peers: set<ReplicaId>,
      view: View,
      preparedView: View,
      preparedHash: BlockHash)
  {
    predicate Verifies(c: SignedCommitment) {
      c.creator in peers && c.ProperlySigned()
    }

    function Commitment(view: View, blockView: View, blockHash: BlockHash, kind: Kind, isPrepare: bool)
      : SignedCommitment
    {
      var phase := if isPrepare then Phase.Prepare else Phase.NewView;
      var digest := CommitmentDigest(me, view, preparedView, phase, kind);
      SignedCommitment(me, view, preparedView, preparedHash, blockView, blockHash, phase, kind,
                       Signature(me, digest))
    }
  }

  function InitialEnclave(me: ReplicaId, quorum: nat): Enclave {
    Enclave(me, quorum, {}, 0, 0, GenesisHash)
  }

  // ---------------------------------------------------------------------------------------------
  // Specification of the four calls

  function AddPeer(e: Enclave, id: ReplicaId, key: ReplicaId): (Enclave, Result<(), EnclaveError>) {
    if id != key then (e, Failure(KeyMismatch))
    else if id in e.peers then (e, Failure(DoubleKeyReceived))
    else (e.(peers := e.peers + {id}), Success(()))
  }

  function CreateUsig(e: Enclave, blockHash: BlockHash, blockView: View): (Enclave, Issue) {
    (e.(view := e.view + 1),
     Success(e.Commitment(e.view, blockView, blockHash, Usig, e.view == blockView)))
  }

  function ReSignLastPrepared(e: Enclave): (Enclave, Issue) {
    CreateUsig(e, e.preparedHash, e.preparedView)
  }

  function Prepare(e: Enclave, blockView: View, blockHash: BlockHash, justification: Justification,
                   parent: Parent, justificationHash: BlockHash)
    : (Enclave, Issue)
  {
    if justification.Genesis? then (e, Failure(JustificationIsGenesis))
    else
      var c := justification.commitment;
      if c.UsableFor() != e.view then (e, Failure(JustificationInvalidView))
      else if e.view != blockView then (e, Failure(BlockToPrepareIsForWrongView))
      else if c.NamedHash() != justificationHash then
        (e, Failure(JustificationBlockHashDoesNotMatchCommitmentBlockHash))
      else if !c.kind.Accumulator? || !e.Verifies(c) then (e, Failure(InvalidAccumulatorSignature))
      else
        var e' := if parent == ParentHash(justificationHash)
                  then e.(preparedHash := c.NamedHash(), preparedView := c.NamedView())
                  else e;
        CreateUsig(e', blockHash, e.view)
  }

  /**
   * Walks down from index `k` and checks one commitment at a time, until a quorum was counted.
   * Yields whether all commitments counted are in the prepare phase.
   */
  function Collect(e: Enclave, cs: seq<SignedCommitment>, k: nat, seen: set<ReplicaId>, isPrepare: bool)
    : Result<bool, EnclaveError>
    requires 0 < |cs| && k <= |cs|
    requires e.view > 0
  {
    var last := cs[|cs| - 1];
    if |cs| - k >= e.quorum then Success(isPrepare)
    else if k == 0 then Failure(NotEnoughValidCommitmentsForAccumulation)
    else
      var c := cs[k - 1];
      var stillPrepare := isPrepare && c.phase.Prepare?;
      var error := Objection(e, last, c, seen, stillPrepare);
      if error.Some? then Failure(error.value)
      else Collect(e, cs, k - 1, seen + {c.creator}, stillPrepare)
  }

  /** What keeps a single commitment from being counted. */
  function Objection(e: Enclave, last: SignedCommitment, c: SignedCommitment, seen: set<ReplicaId>, stillPrepare: bool)
    : Option<EnclaveError>
    requires e.view > 0
  {
    if c.creator in seen then Some(IncompatibleCommitmentForAccumulation)
    else if c.preparedView > last.preparedView then Some(NonDescendingOrderOfCommitmentsForAccumulation)
    else if e.view - 1 != c.view then Some(IncompatibleCommitmentForAccumulation)
    else if stillPrepare && last.NamedView() != c.NamedView() then Some(IncompatibleCommitmentForAccumulation)
    else if stillPrepare && last.NamedHash() != c.NamedHash() then Some(IncompatibleCommitmentForAccumulation)
    else if !c.kind.Usig? || !e.Verifies(c) then Some(IncompatibleCommitmentForAccumulation)
    else None
  }

  /** The accumulator that is issued once the commitments were counted. */
  function Condense(e: Enclave, last: SignedCommitment, isPrepare: bool): Issue
    requires e.view > 0
  {
    if isPrepare && e.view - 1 != last.NamedView() then Failure(IncompatibleCommitmentForAccumulation)
    else
      Success(e.Commitment(e.view - 1,
                           if isPrepare then last.NamedView() else last.preparedView,
                           if isPrepare then last.NamedHash() else last.preparedHash,
                           Accumulator, isPrepare))
  }

  function Accumulate(e: Enclave, cs: seq<SignedCommitment>): Issue {
    if e.view == 0 then Failure(NoPredecessorView)
    else if cs == [] then Failure(NotEnoughValidCommitmentsForAccumulation)
    else
      match Collect(e, cs, |cs|, {}, true)
      case Failure(error) => Failure(error)
      case Success(isPrepare) => Condense(e, cs[|cs| - 1], isPrepare)
  }

  // ---------------------------------------------------------------------------------------------
  // What a successful accumulation means

  ghost predicate AllPrepare(cs: seq<SignedCommitment>, from: nat) {
    forall k :: from <= k < |cs| ==> cs[k].phase.Prepare?
  }

  /** One of the commitments from the end of the list is fit to be counted. */
  ghost predicate Fit(e: Enclave, cs: seq<SignedCommitment>, k: nat)
    requires k < |cs|
  {
    var last := cs[|cs| - 1];
    && cs[k].view + 1 == e.view
    && cs[k].preparedView <= last.preparedView
    && cs[k].kind.Usig?
    && e.Verifies(cs[k])
    && (AllPrepare(cs, k) ==> cs[k].NamedView() == last.NamedView() && cs[k].NamedHash() == last.NamedHash())
  }

  ghost predicate DistinctCreators(cs: seq<SignedCommitment>, from: int) {
    forall i, j :: 0 <= from <= i < j < |cs| ==> cs[i].creator != cs[j].creator
  }

  ghost predicate FitBetween(e: Enclave, cs: seq<SignedCommitment>, from: int, to: int) {
    forall k :: 0 <= from <= k < to <= |cs| ==> Fit(e, cs, k)
  }

  /** The commitments that count are a quorum of fit commitments by distinct creators. */
  ghost predicate Acceptable(e: Enclave, cs: seq<SignedCommitment>) {
    && 0 < e.quorum <= |cs|
    && DistinctCreators(cs, |cs| - e.quorum)
    && FitBetween(e, cs, |cs| - e.quorum, |cs|)
    && (AllPrepare(cs, |cs| - e.quorum) ==> cs[|cs| - 1].NamedView() + 1 == e.view)
  }

  ghost predicate CreatorsFrom(cs: seq<SignedCommitment>, from: nat, ids: set<ReplicaId>) {
    && (forall k :: from <= k < |cs| ==> cs[k].creator in ids)
    && (forall id :: id in ids ==> exists k :: from <= k < |cs| && cs[k].creator == id)
  }

  lemma ObjectionMeaning(e: Enclave, cs: seq<SignedCommitment>, k: nat, seen: set<ReplicaId>)
    requires k < |cs| && e.view > 0
    ensures Objection(e, cs[|cs| - 1], cs[k], seen, AllPrepare(cs, k)).None? <==> cs[k].creator !in seen && Fit(e, cs, k)
  {
  }

  lemma {:induction false} CollectMeaning(e: Enclave, cs: seq<SignedCommitment>, k: nat, seen: set<ReplicaId>, isPrepare: bool)
    requires 0 < |cs| && k <= |cs|
    requires e.view > 0 && 0 < e.quorum && |cs| - k <= e.quorum
    requires CreatorsFrom(cs, k, seen) && DistinctCreators(cs, k)
    requires isPrepare <==> AllPrepare(cs, k)
    ensures var first := |cs| - e.quorum;
            Collect(e, cs, k, seen, isPrepare).Success? <==>
              0 <= first && DistinctCreators(cs, first) && FitBetween(e, cs, first, k)
    ensures var first := |cs| - e.quorum;
            Collect(e, cs, k, seen, isPrepare).Success? ==>
              0 <= first && Collect(e, cs, k, seen, isPrepare).value == AllPrepare(cs, first)
    decreases k
  {
    hide Objection, Fit;
    var first := |cs| - e.quorum;
    if first != k && k != 0 {
      var c := cs[k - 1];
      var stillPrepare := isPrepare && c.phase.Prepare?;
      assert stillPrepare <==> AllPrepare(cs, k - 1);
      ObjectionMeaning(e, cs, k - 1, seen);
      if c.creator in seen {
        assert !DistinctCreators(cs, k - 1);
        assert 0 <= first ==> !DistinctCreators(cs, first);
      } else if !Fit(e, cs, k - 1) {
        assert 0 <= first ==> !FitBetween(e, cs, first, k);
      } else {
        CollectMeaning(e, cs, k - 1, seen + {c.creator}, stillPrepare);
        assert 0 <= first ==> (FitBetween(e, cs, first, k) <==> FitBetween(e, cs, first, k - 1));
      }
    }
  }

  /**
   * Accumulation succeeds exactly on a quorum of fit commitments. When all commitments counted
   * are in the prepare phase the accumulator names their common block of the previous view,
   * otherwise it names the block with the highest prepared view among those counted.
   */
  lemma AccumulateMeaning(e: Enclave, cs: seq<SignedCommitment>)
    requires e.view > 0 && 0 < e.quorum
    ensures Accumulate(e, cs).Success? <==> Acceptable(e, cs)
    ensures Acceptable(e, cs) ==>
              var a := Accumulate(e, cs).value;
              var first := |cs| - e.quorum;
              && a.kind.Accumulator? && a.creator == e.me && a.view + 1 == e.view && a.ProperlySigned()
              && (AllPrepare(cs, first) ==>
                    a.NamedView() == a.view &&
                    forall k :: first <= k < |cs| ==>
                      cs[k].NamedView() == a.view && cs[k].NamedHash() == a.NamedHash())
              && (!AllPrepare(cs, first) ==>
                    && (exists k :: first <= k < |cs| && cs[k].preparedView == a.NamedView() && cs[k].preparedHash == a.NamedHash())
                    && (forall k :: first <= k < |cs| ==> cs[k].preparedView <= a.NamedView()))
  {
    if cs != [] {
      CollectMeaning(e, cs, |cs|, {}, true);
      if Acceptable(e, cs) {
        var first, last := |cs| - e.quorum, cs[|cs| - 1];
        assert Fit(e, cs, |cs| - 1);
        forall k | first <= k < |cs|
          ensures cs[k].preparedView <= last.preparedView
          ensures AllPrepare(cs, first) ==> cs[k].NamedView() == last.NamedView() && cs[k].NamedHash() == last.NamedHash()
        {
          assert Fit(e, cs, k);
          assert AllPrepare(cs, first) ==> AllPrepare(cs, k);
        }
      }
    }
  }

  // ---------------------------------------------------------------------------------------------
  // Whole runs of one enclave, under any host

  datatype Call =
    | CallAddPeer(id: ReplicaId, key: ReplicaId)
    | CallAccumulate(commitments: seq<SignedCommitment>)
    | CallPrepare(blockView: View, blockHash: BlockHash, justification: Justification, parent: Parent,
                  justificationHash: BlockHash)
    | CallReSign

  function Perform(e: Enclave, call: Call): (Enclave, Option<SignedCommitment>) {
    match call
    case CallAddPeer(id, key) => (AddPeer(e, id, key).0, None)
    case CallAccumulate(cs) => (e, Issued(Accumulate(e, cs)))
    case CallPrepare(bv, bh, j, p, jh) => var r := Prepare(e, bv, bh, j, p, jh); (r.0, Issued(r.1))
    case CallReSign => var r := ReSignLastPrepared(e); (r.0, Issued(r.1))
  }

  function Issued(r: Issue): Option<SignedCommitment> {
    match r
    case Success(c) => Some(c)
    case Failure(_) => None
  }

  /** The usig commitments a sequence of calls makes the enclave issue, oldest first. */
  function UsigsIssued(e: Enclave, calls: seq<Call>): seq<SignedCommitment>
    decreases |calls|
  {
    if calls == [] then []
    else
      var r := Perform(e, calls[0]);
      (if r.1.Some? && r.1.value.kind.Usig? then [r.1.value] else []) + UsigsIssued(r.0, calls[1..])
  }

  /**
   * Whatever the host asks for, including calls that fail, an enclave issues at most one usig
   * commitment per view, and their views increase.
   */
  lemma {:induction false} UsigViewsIncrease(e: Enclave, calls: seq<Call>)
    ensures var us := UsigsIssued(e, calls);
            && (forall i :: 0 <= i < |us| ==> us[i].creator == e.me && e.view <= us[i].view && us[i].ProperlySigned())
            && (forall i, j :: 0 <= i < j < |us| ==> us[i].view < us[j].view)
    decreases |calls|
  {
    if calls != [] {
      var r := Perform(e, calls[0]);
      UsigViewsIncrease(r.0, calls[1..]);
      var issued := if r.1.Some? && r.1.value.kind.Usig? then [r.1.value] else [];
      assert r.0.me == e.me && e.view <= r.0.view;
      assert issued != [] ==> issued[0].view == e.view && r.0.view == e.view + 1;
      assert issued != [] ==> issued[0].creator == e.me && issued[0].ProperlySigned();
      assert UsigsIssued(e, calls) == issued + UsigsIssued(r.0, calls[1..]);
    }
  }
}
