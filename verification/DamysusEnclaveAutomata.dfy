/**
 * The trusted automaton in the form the program keeps it, proved against DamysusEnclave.
 */
module DamysusEnclaveAutomata {
  import opened Wrappers
  import opened DamysusTypes
  import Spec = DamysusEnclave

  type Enclave = Spec.Enclave
  type EnclaveError = Spec.EnclaveError
  type Issue = Spec.Issue

  class EnclaveAutomata {
    const me: ReplicaId
    const quorum: nat
    var peers: set<ReplicaId>
    var view: View
    var lastPreparedBlockHash: BlockHash
    var lastPreparedBlockView: View

    ghost function State(): Enclave
      reads this
    {
      Spec.Enclave.Enclave(me, quorum, peers, view, lastPreparedBlockView, lastPreparedBlockHash)
    }

    constructor (me: ReplicaId, quorum: nat)
      ensures State() == Spec.InitialEnclave(me, quorum)
      ensures this.me == me && this.quorum == quorum
    {
      this.me := me;
      this.quorum := quorum;
      peers := {};
      view := 0;
      lastPreparedBlockHash := GenesisHash;
      lastPreparedBlockView := 0;
    }

    method AddPeer(id: ReplicaId, key: ReplicaId) returns (r: Result<(), EnclaveError>)
      modifies this
      ensures (State(), r) == Spec.AddPeer(old(State()), id, key)
    {
      if id != key {
        return Failure(Spec.KeyMismatch);
      }
      if id in peers {
        return Failure(Spec.DoubleKeyReceived);
      }
      peers := peers + {id};
      return Success(());
    }

    /** The check the untrusted part of a replica makes. */
    method VerifyUntrusted(c: SignedCommitment) returns (ok: bool)
      ensures ok == State().Verifies(c)
    {
      ok := c.creator in peers && c.signature == Signature(c.creator, c.Digest());
    }

    method CreateCommitment(view: View, blockView: View, blockHash: BlockHash, kind: Kind, isPrepare: bool)
      returns (c: SignedCommitment)
      ensures c == State().Commitment(view, blockView, blockHash, kind, isPrepare)
    {
      var phase := Phase.NewView;
      if isPrepare {
        phase := Phase.Prepare;
      }
      var signature := Signature(me, CommitmentDigest(me, view, lastPreparedBlockView, phase, kind));
      c := SignedCommitment(me, view, lastPreparedBlockView, lastPreparedBlockHash, blockView, blockHash,
                            phase, kind, signature);
    }

    method CreateUsig(blockHash: BlockHash, blockView: View) returns (r: Issue)
      modifies this
      ensures (State(), r) == Spec.CreateUsig(old(State()), blockHash, blockView)
    {
      var isPrepare := view == blockView;
      var c := CreateCommitment(view, blockView, blockHash, Usig, isPrepare);
      view := view + 1;
      r := Success(c);
    }

    method ReSignLastPrepared() returns (r: Issue)
      modifies this
      ensures (State(), r) == Spec.ReSignLastPrepared(old(State()))
    {
      r := CreateUsig(lastPreparedBlockHash, lastPreparedBlockView);
    }

    method Prepare(blockView: View, blockHash: BlockHash, justification: Justification, parent: Parent,
                   justificationHash: BlockHash)
      returns (r: Issue)
      modifies this
      ensures (State(), r) ==
              Spec.Prepare(old(State()), blockView, blockHash, justification, parent, justificationHash)
    {
      if justification.Genesis? {
        return Failure(Spec.JustificationIsGenesis);
      }
      var c := justification.commitment;
      if c.UsableFor() != view {
        return Failure(Spec.JustificationInvalidView);
      }
      if view != blockView {
        return Failure(Spec.BlockToPrepareIsForWrongView);
      }
      if c.NamedHash() != justificationHash {
        return Failure(Spec.JustificationBlockHashDoesNotMatchCommitmentBlockHash);
      }
      var verified := VerifyUntrusted(c);
      if !c.kind.Accumulator? || !verified {
        return Failure(Spec.InvalidAccumulatorSignature);
      }
      if parent == ParentHash(justificationHash) {
        lastPreparedBlockHash := c.NamedHash();
        lastPreparedBlockView := c.NamedView();
      }
      r := CreateUsig(blockHash, view);
    }

    /** A view without predecessor makes the program panic, so callers must have left view 0. */
    method Accumulate(commitments: seq<SignedCommitment>) returns (r: Issue)
      requires view > 0 && 0 < quorum
      ensures r == Spec.Accumulate(State(), commitments)
    {
      var previous := view - 1;
      var isPrepare := true;
      var valid := 0;
      var seen: set<ReplicaId> := {};
      if commitments == [] {
        return Failure(Spec.NotEnoughValidCommitmentsForAccumulation);
      }
      var last := commitments[|commitments| - 1];
      var blockView, blockHash := last.NamedView(), last.NamedHash();
      var k := |commitments|;
      while k > 0 && valid < quorum
        invariant 0 <= k <= |commitments| && valid == |commitments| - k <= quorum
        invariant Spec.Collect(State(), commitments, |commitments|, {}, true)
               == Spec.Collect(State(), commitments, k, seen, isPrepare)
        invariant isPrepare ==> blockView == last.NamedView() && blockHash == last.NamedHash()
        invariant !isPrepare ==> blockView == last.preparedView && blockHash == last.preparedHash
      {
        var c := commitments[k - 1];
        if c.creator in seen {
          return Failure(Spec.IncompatibleCommitmentForAccumulation);
        }
        if c.preparedView > last.preparedView {
          return Failure(Spec.NonDescendingOrderOfCommitmentsForAccumulation);
        }
        if !c.phase.Prepare? {
          blockView, blockHash, isPrepare := last.preparedView, last.preparedHash, false;
        }
        if previous != c.view {
          return Failure(Spec.IncompatibleCommitmentForAccumulation);
        }
        if isPrepare && blockView != c.NamedView() {
          return Failure(Spec.IncompatibleCommitmentForAccumulation);
        }
        if isPrepare && blockHash != c.NamedHash() {
          return Failure(Spec.IncompatibleCommitmentForAccumulation);
        }
        var verified := VerifyUntrusted(c);
        if !c.kind.Usig? || !verified {
          return Failure(Spec.IncompatibleCommitmentForAccumulation);
        }
        seen := seen + {c.creator};
        valid := valid + 1;
        k := k - 1;
      }
      if valid < quorum {
        return Failure(Spec.NotEnoughValidCommitmentsForAccumulation);
      }
      if isPrepare && previous != blockView {
        return Failure(Spec.IncompatibleCommitmentForAccumulation);
      }
      var a := CreateCommitment(previous, blockView, blockHash, Accumulator, isPrepare);
      r := Success(a);
    }
  }
}
