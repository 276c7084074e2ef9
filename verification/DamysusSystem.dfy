/**
 * The protocol as a step system over n replicas.
 *
 * A state records every enclave, every usig commitment ever issued, every block ever proposed
 * together with the commitments counted for its accumulator, and what each replica executed.
 * Steps of different replicas interleave freely. A replica that takes no more steps has stopped,
 * and a commitment or block that no step uses was lost; a step may use anything issued before,
 * however late or often, so delay, loss, repetition and reordering of messages are all covered.
 */
module DamysusSystem {
  import opened DamysusTypes
  import Enclave = DamysusEnclave

  /** Every block ever proposed, with the commitments counted for its accumulator. */
  type Ledger = map<Block, seq<SignedCommitment>>

  datatype System =
    System(
      n: nat,
      enclaves: seq<Enclave.Enclave>,
      usigs: set<SignedCommitment>,
      ledger: Ledger,
      executed: seq<seq<Block>>)

  datatype Step =
    | Join(replica: ReplicaId, peer: ReplicaId)
    | TimeOut(replica: ReplicaId)
    | Propose(replica: ReplicaId, commitments: seq<SignedCommitment>, parent: Parent, transactions: seq<Transaction>)
    | Vote(replica: ReplicaId, block: Block)
    | Execute(replica: ReplicaId, block: Block)

  function Initial(n: nat): System {
    System(n, seq(n, i requires 0 <= i < n => Enclave.InitialEnclave(i, QuorumSize(n))), {}, map[], seq(n, i => []))
  }

  predicate Known(ledger: Ledger, b: Block) {
    b == GENESIS || b in ledger
  }

  /** The leader's accumulator and the block it proposes with it. */
  function Proposal(s: System, i: ReplicaId, cs: seq<SignedCommitment>, parent: Parent, txs: seq<Transaction>)
    : Block
    requires i < |s.enclaves|
    requires Enclave.Accumulate(s.enclaves[i], cs).Success?
  {
    Block(i, s.enclaves[i].view, Quorum(Enclave.Accumulate(s.enclaves[i], cs).value), parent, txs)
  }

  /** The call to the enclave by which a replica prepares a block. */
  function Prepared(e: Enclave.Enclave, b: Block): (Enclave.Enclave, Enclave.Issue)
    requires b.justification.Quorum?
  {
    Enclave.Prepare(e, b.view, b.Hash(), b.justification, b.parent, b.Accumulator().NamedHash())
  }

  /** The block a justification names. */
  ghost predicate Names(ledger: Ledger, b: Block, j: Block) {
    && Known(ledger, j)
    && b.justification.Quorum?
    && j.view == b.Accumulator().NamedView()
    && j.Hash() == b.Accumulator().NamedHash()
  }

  /** Three blocks in a row, each the parent and the justification of the next. */
  ghost predicate ThreeChain(ledger: Ledger, b: Block, j: Block, g: Block) {
    && b in ledger && j in ledger
    && Names(ledger, b, j) && b.parent == ParentHash(j.Hash())
    && Names(ledger, j, g) && j.parent == ParentHash(g.Hash())
  }

  ghost predicate Executable(ledger: Ledger, b: Block) {
    exists j, g :: ThreeChain(ledger, b, j, g)
  }

  ghost function Grandparent(ledger: Ledger, b: Block): (g: Block)
    requires Executable(ledger, b)
    ensures exists j :: ThreeChain(ledger, b, j, g)
  {
    var j, g :| ThreeChain(ledger, b, j, g);
    g
  }

  /** The block that justifies `b`, or genesis when there is none. */
  ghost function Justifier(ledger: Ledger, b: Block): Block {
    if j :| Names(ledger, b, j) then j else GENESIS
  }

  /** The blocks still to be executed up to and including `b`, ancestors first. */
  ghost function Pending(ledger: Ledger, done: seq<Block>, b: Block): seq<Block>
    decreases b.view
  {
    if b == GENESIS || b in done then []
    else
      var j := Justifier(ledger, b);
      if j.view < b.view then Pending(ledger, done, j) + [b] else [b]
  }

  ghost predicate Enabled(s: System, step: Step) {
    && step.replica < s.n == |s.enclaves| == |s.executed|
    && var e := s.enclaves[step.replica];
      match step
      case Join(i, peer) => true
      case TimeOut(i) => true
      case Propose(i, cs, parent, txs) =>
        && i == Leader(e.view, s.n)
        && (forall c :: c in cs ==> c in s.usigs)
        && Enclave.Accumulate(e, cs).Success?
        && (parent.ParentHash? ==> exists p :: Known(s.ledger, p) && p.view + 1 == e.view && p.Hash() == parent.hash)
        && Prepared(e, Proposal(s, i, cs, parent, txs)).1.Success?
      case Vote(i, b) =>
        b in s.ledger && b.view == e.view && b.justification.Quorum? && Prepared(e, b).1.Success?
      case Execute(i, b) =>
        Executable(s.ledger, b)
  }

  ghost function Next(s: System, step: Step): System
    requires Enabled(s, step)
  {
    var i := step.replica;
    var e := s.enclaves[i];
    match step
    case Join(_, peer) =>
      s.(enclaves := s.enclaves[i := Enclave.AddPeer(e, peer, peer).0])
    case TimeOut(_) =>
      var r := Enclave.ReSignLastPrepared(e);
      s.(enclaves := s.enclaves[i := r.0], usigs := s.usigs + {r.1.value})
    case Propose(_, cs, parent, txs) =>
      var b := Proposal(s, i, cs, parent, txs);
      var r := Prepared(e, b);
      s.(enclaves := s.enclaves[i := r.0], usigs := s.usigs + {r.1.value},
         ledger := s.ledger[b := Counted(e, cs)])
    case Vote(_, b) =>
      var r := Prepared(e, b);
      s.(enclaves := s.enclaves[i := r.0], usigs := s.usigs + {r.1.value})
    case Execute(_, b) =>
      s.(executed := s.executed[i := s.executed[i] + Pending(s.ledger, s.executed[i], Grandparent(s.ledger, b))])
  }

  /** The commitments an accumulator counts are the last ones of the list. */
  function Counted(e: Enclave.Enclave, cs: seq<SignedCommitment>): seq<SignedCommitment> {
    if e.quorum <= |cs| then cs[|cs| - e.quorum..] else cs
  }

  ghost predicate EnabledAll(s: System, steps: seq<Step>)
    decreases |steps|
  {
    steps == [] || (Enabled(s, steps[0]) && EnabledAll(Next(s, steps[0]), steps[1..]))
  }

  ghost function Run(s: System, steps: seq<Step>): System
    requires EnabledAll(s, steps)
    decreases |steps|
  {
    if steps == [] then s else Run(Next(s, steps[0]), steps[1..])
  }
}
