/**
 * Values exchanged by Damysus replicas: views, commitments, blocks and messages.
 *
 * Hashes and signatures are symbolic. A digest is a value that carries exactly the fields the
 * program feeds to its hasher, so two values have the same digest exactly when they agree on
 * those fields. A signature carries its signer and the digest it covers.
 */
module DamysusTypes {
  import opened ReplicaSets

  type View = nat
  type ReplicaId = nat
  type ClientId = nat
  type RequestId = nat

  /** Every leader holds two consecutive views. */
  function Leader(view: View, n: nat): ReplicaId
    requires n > 0
  {
    (view / 2) % n
  }

  /** The number of replicas whose commitments justify a proposal. */
  function QuorumSize(n: nat): nat {
    n / 2 + 1
  }

  /** A replica leads the same two consecutive views of every round of 2n views, and no others. */
  lemma LeadsTwoViewsPerRound(view: View, n: nat, i: ReplicaId)
    requires i < n
    ensures Leader(view, n) == i <==> exists round: nat :: view == 2 * RoundStart(round, n, i) || view == 2 * RoundStart(round, n, i) + 1
  {
    if Leader(view, n) == i {
      assert view / 2 == RoundStart(view / 2 / n, n, i);
    }
    forall round: nat | view == 2 * RoundStart(round, n, i) || view == 2 * RoundStart(round, n, i) + 1
      ensures Leader(view, n) == i
    {
      RemainderInRound(round, n, i);
    }
  }

  /** How many leaders were before replica `i` in the given round. */
  function RoundStart(round: nat, n: nat, i: ReplicaId): nat {
    round * n + i
  }

  lemma RemainderInRound(round: nat, n: nat, i: ReplicaId)
    requires i < n
    ensures RoundStart(round, n, i) % n == i
  {
    var x := RoundStart(round, n, i);
    DivisionIsUnique(n, x / n, x % n, round, i);
  }

  lemma DivisionIsUnique(n: nat, q: nat, r: nat, q': nat, r': nat)
    requires q * n + r == q' * n + r' && r < n && r' < n
    ensures q == q' && r == r'
  {
    Distance(n, q - q', r' - r);
  }

  lemma Distance(n: nat, d: int, e: int)
    requires d * n == e && 0 - n < e < n
    ensures d == 0
  {
  }

  /** Any two groups of `q` out of `n` replicas have a member in common. */
  ghost predicate AlwaysMeet(n: nat, q: nat) {
    forall a: set<nat>, b: set<nat> :: a <= Replicas(n) && b <= Replicas(n) && |a| == q && |b| == q ==> a * b != {}
  }

  /** A quorum is the least group size for which any two groups have a member in common. */
  lemma QuorumIsLeastThatMeets(n: nat, q: nat)
    requires q <= n
    ensures AlwaysMeet(n, q) <==> q >= QuorumSize(n)
  {
    if q >= QuorumSize(n) {
      forall a: set<nat>, b: set<nat> | a <= Replicas(n) && b <= Replicas(n) && |a| == q && |b| == q ensures a * b != {} {
        SubsetSize(a + b, Replicas(n));
        assert |a + b| == |a| + |b| - |a * b|;
      }
    } else {
      var a, b := Replicas(q), Replicas(2 * q) - Replicas(q);
      assert Replicas(2 * q) == a + b;
      assert a <= Replicas(n) && b <= Replicas(n) && |a| == q && |b| == q && a * b == {};
    }
  }

  datatype Phase = NewView | Prepare

  datatype Kind = Accumulator | Usig

  /** What a commitment's hash covers: neither of the two block hashes is part of it. */
  datatype CommitmentDigest =
    CommitmentDigest(creator: ReplicaId, view: View, preparedView: View, phase: Phase, kind: Kind)

  datatype Signature = Signature(signer: ReplicaId, digest: CommitmentDigest)

  datatype SignedCommitment =
    SignedCommitment(
      creator: ReplicaId,
      view: View,
      preparedView: View,
      preparedHash: BlockHash,
      blockView: View,
      blockHash: BlockHash,
      phase: Phase,
      kind: Kind,
      signature: Signature)
  {
    function Digest(): CommitmentDigest {
      CommitmentDigest(creator, view, preparedView, phase, kind)
    }

    /** The view in which the commitment counts towards a proposal. */
    function UsableFor(): View {
      view + 1
    }

    /** The view of the block the commitment stands for. */
    function NamedView(): View {
      if kind.Accumulator? || phase.Prepare? then blockView else preparedView
    }

    /** The hash of the block the commitment stands for. */
    function NamedHash(): BlockHash {
      if kind.Accumulator? || phase.Prepare? then blockHash else preparedHash
    }

    predicate ProperlySigned() {
      signature == Signature(creator, Digest())
    }
  }

  /** Parent of a block: the block of the view before, when the leader had it. */
  datatype Parent = NoParent | ParentHash(hash: BlockHash)

  datatype JustificationDigest = GenesisDigest | QuorumDigest(digest: CommitmentDigest, signature: Signature)

  /** What a block's hash covers: the transactions are not part of it. */
  datatype BlockHash =
    | GenesisHash
    | HashOf(creator: ReplicaId, view: View, justification: JustificationDigest, parent: Parent)

  datatype Justification = Genesis | Quorum(commitment: SignedCommitment)
  {
    function Digest(): JustificationDigest {
      match this
      case Genesis => GenesisDigest
      case Quorum(c) => QuorumDigest(c.Digest(), c.signature)
    }
  }

  datatype Transaction = Transaction(client: ClientId, request: RequestId, payload: seq<bv8>)

  datatype Block =
    Block(
      creator: ReplicaId,
      view: View,
      justification: Justification,
      parent: Parent,
      transactions: seq<Transaction>)
  {
    /** The genesis block has a fixed hash, any other block hashes its header. */
    function Hash(): BlockHash {
      if this == GENESIS then GenesisHash else HashOf(creator, view, justification.Digest(), parent)
    }

    /** The accumulator of a block other than genesis. */
    function Accumulator(): SignedCommitment
      requires justification.Quorum?
    {
      justification.commitment
    }

    /** The parent of the block is the block its accumulator names. */
    predicate Linked() {
      justification.Quorum? && parent == ParentHash(justification.commitment.NamedHash())
    }
  }

  const GENESIS: Block := Block(0, 0, Genesis, NoParent, [])

  datatype Message =
    | NewBlock(block: Block, prepare: SignedCommitment)
    | Commit(commitment: SignedCommitment)
    | Handshake(key: ReplicaId)
    | BlockRequest(view: View)
    | RequestedBlock(block: Block)

  datatype Destination = Broadcast | Unicast(to: ReplicaId)

  datatype Envelope = Envelope(destination: Destination, from: ReplicaId, message: Message)
}
