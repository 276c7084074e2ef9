/**
 * The enclaves of the mobility service agree on a key: each proposes one and all use the least.
 * Encryption is ideal, and packets may be delivered in any order, repeatedly or not at all.
 */
module KeyAgreement {
  import opened ReplicaSets

  type ReplicaId = nat

  const KEY_LIMIT: nat := 0x1_0000_0000_0000_0000_0000_0000_0000_0000

  /** A key of 128 bits. Keys are ordered like the numbers that their bytes write down. */
  type Key = k: nat | k < KEY_LIMIT

  /** A key pair generated by an enclave or derived from a key. Its public key identifies it. */
  datatype KeyPair = Generated(owner: ReplicaId) | Derived(seed: Key)

  /** The key that the owners of two key pairs both compute. */
  function SharedKey(own: KeyPair, remote: KeyPair): set<KeyPair> {
    {own, remote}
  }

  datatype Sealed = Sealed(key: set<KeyPair>, content: Key)

  datatype Message = Attestation(publicKey: KeyPair) | ProposedSecret(publicKey: KeyPair, secret: Sealed)

  datatype Packet = Packet(sender: ReplicaId, receiver: ReplicaId, message: Message)

  /** A replica with its enclave. */
  datatype Local = Local(me: ReplicaId, n: nat, keyPair: KeyPair, proposedKey: Key,
                         usedKey: Key, usedKeyPair: KeyPair, proposalsFrom: set<ReplicaId>, ready: bool)

  /** The replica after a message, what it sends and whether it reports to be ready. */
  datatype Outcome = Outcome(local: Local, sent: set<Packet>, reports: bool)

  function Started(me: ReplicaId, n: nat, proposedKey: Key): Local {
    Local(me, n, Generated(me), proposedKey, proposedKey, Derived(proposedKey), {me}, false)
  }

  /** The replica can decrypt the message. Otherwise it stops. */
  predicate Opens(l: Local, sender: ReplicaId, m: Message) {
    sender != l.me && m.ProposedSecret? ==> m.secret.key == SharedKey(l.keyPair, m.publicKey)
  }

  function WithProposal(l: Local, sender: ReplicaId, key: Key): Local {
    var smaller := if l.usedKey > key then l.(usedKey := key, usedKeyPair := Derived(key)) else l;
    var proposals := l.proposalsFrom + {sender};
    smaller.(proposalsFrom := proposals, ready := l.ready || |proposals| >= l.n)
  }

  function Received(l: Local, sender: ReplicaId, m: Message): Outcome
    requires Opens(l, sender, m)
  {
    if sender == l.me then Outcome(l, {}, false)
    else match m
      case Attestation(publicKey) =>
        var secret := Sealed(SharedKey(l.keyPair, publicKey), l.proposedKey);
        Outcome(l, {Packet(l.me, sender, ProposedSecret(l.keyPair, secret))}, false)
      case ProposedSecret(_, secret) =>
        var l' := WithProposal(l, sender, secret.content);
        Outcome(l', {}, l'.ready && !l.ready)
  }

  // ---------------------------------------------------------------------------------------------
  // Runs of all replicas

  datatype System = System(locals: seq<Local>, network: set<Packet>)

  /** The attestations that the replicas broadcast when they start. */
  function Broadcasts(n: nat): set<Packet> {
    set i, j | 0 <= i < n && 0 <= j < n :: Packet(i, j, Attestation(Generated(i)))
  }

  function Initial(keys: seq<Key>): System {
    System(seq(|keys|, i requires 0 <= i < |keys| => Started(i, |keys|, keys[i])), Broadcasts(|keys|))
  }

  ghost predicate Deliverable(s: System, p: Packet) {
    p in s.network && p.receiver < |s.locals| && Opens(s.locals[p.receiver], p.sender, p.message)
  }

  ghost function Delivered(s: System, p: Packet): System
    requires Deliverable(s, p)
  {
    var o := Received(s.locals[p.receiver], p.sender, p.message);
    System(s.locals[p.receiver := o.local], s.network + o.sent)
  }

  /** Packets that are in the network when they are delivered. */
  ghost predicate RunOf(s: System, packets: seq<Packet>)
    decreases |packets|
  {
    packets == [] || (Deliverable(s, packets[0]) && RunOf(Delivered(s, packets[0]), packets[1..]))
  }

  ghost function After(s: System, packets: seq<Packet>): System
    requires RunOf(s, packets)
    decreases |packets|
  {
    if packets == [] then s else After(Delivered(s, packets[0]), packets[1..])
  }

  // ---------------------------------------------------------------------------------------------
  // What every delivery keeps

  /** A key is the least of the proposals of some replicas. */
  ghost predicate Least(keys: seq<Key>, proposers: set<ReplicaId>, key: Key) {
    && (forall j :: j in proposers ==> j < |keys| && key <= keys[j])
    && exists j :: j in proposers && j < |keys| && keys[j] == key
  }

  ghost predicate LocalOk(keys: seq<Key>, l: Local, i: ReplicaId) {
    && i < |keys| && l.me == i && l.n == |keys| && l.keyPair == Generated(i) && l.proposedKey == keys[i]
    && i in l.proposalsFrom && Least(keys, l.proposalsFrom, l.usedKey) && l.usedKeyPair == Derived(l.usedKey)
    && (l.ready <==> l.n > 1 && |l.proposalsFrom| >= l.n)
  }

  ghost predicate PacketOk(keys: seq<Key>, p: Packet) {
    && p.sender < |keys| && p.receiver < |keys|
    && match p.message
       case Attestation(publicKey) => publicKey == Generated(p.sender)
       case ProposedSecret(publicKey, secret) =>
         publicKey == Generated(p.sender) &&
         secret == Sealed(SharedKey(Generated(p.receiver), Generated(p.sender)), keys[p.sender])
  }

  ghost predicate Inv(keys: seq<Key>, s: System) {
    && |s.locals| == |keys|
    && (forall i :: 0 <= i < |keys| ==> LocalOk(keys, s.locals[i], i))
    && (forall p :: p in s.network ==> PacketOk(keys, p))
  }

  lemma InitialInv(keys: seq<Key>)
    ensures Inv(keys, Initial(keys))
  {
    forall i | 0 <= i < |keys| ensures LocalOk(keys, Initial(keys).locals[i], i) {
      var l := Initial(keys).locals[i];
      assert |l.proposalsFrom| == 1;
      assert i in l.proposalsFrom && keys[i] == l.usedKey;
    }
  }

  lemma ProposalKeeps(keys: seq<Key>, l: Local, i: ReplicaId, sender: ReplicaId)
    requires LocalOk(keys, l, i) && sender < |keys| && sender != i
    ensures LocalOk(keys, WithProposal(l, sender, keys[sender]), i)
  {
    var l' := WithProposal(l, sender, keys[sender]);
    assert Least(keys, l'.proposalsFrom, l'.usedKey) by {
      if l.usedKey > keys[sender] {
        assert sender in l'.proposalsFrom;
      } else {
        var j :| j in l.proposalsFrom && j < |keys| && keys[j] == l.usedKey;
        assert j in l'.proposalsFrom;
      }
    }
    assert l.proposalsFrom <= l'.proposalsFrom;
    SubsetSize(l.proposalsFrom, l'.proposalsFrom);
  }

  /** No replica stops over a packet, and every delivery keeps the invariant. */
  lemma DeliveryKeeps(keys: seq<Key>, s: System, p: Packet)
    requires Inv(keys, s) && p in s.network
    ensures Deliverable(s, p) && Inv(keys, Delivered(s, p))
  {
    var i := p.receiver;
    assert PacketOk(keys, p) && LocalOk(keys, s.locals[i], i);
    if p.sender != i && p.message.ProposedSecret? {
      ProposalKeeps(keys, s.locals[i], i, p.sender);
    }
  }

  lemma {:induction false} RunKeeps(keys: seq<Key>, s: System, packets: seq<Packet>)
    requires Inv(keys, s) && RunOf(s, packets)
    ensures Inv(keys, After(s, packets))
    decreases |packets|
  {
    if packets != [] {
      DeliveryKeeps(keys, s, packets[0]);
      RunKeeps(keys, Delivered(s, packets[0]), packets[1..]);
    }
  }

  /** The other replicas whose proposals are delivered to a replica. */
  ghost function Proposers(packets: seq<Packet>, i: ReplicaId): set<ReplicaId> {
    set p | p in packets && p.receiver == i && p.sender != i && p.message.ProposedSecret? :: p.sender
  }

  lemma {:induction false} ProposalsAreThoseDelivered(keys: seq<Key>, s: System, packets: seq<Packet>, i: ReplicaId)
    requires Inv(keys, s) && RunOf(s, packets) && i < |keys| == |After(s, packets).locals|
    ensures After(s, packets).locals[i].proposalsFrom == s.locals[i].proposalsFrom + Proposers(packets, i)
    decreases |packets|
  {
    if packets != [] {
      var p, rest := packets[0], packets[1..];
      DeliveryKeeps(keys, s, p);
      ProposalsAreThoseDelivered(keys, Delivered(s, p), rest, i);
      assert LocalOk(keys, s.locals[p.receiver], p.receiver);
      ProposersOfFirst(packets, i);
    }
  }

  lemma ProposersOfFirst(packets: seq<Packet>, i: ReplicaId)
    requires packets != []
    ensures var p := packets[0];
            Proposers(packets, i) == Proposers(packets[1..], i) +
              if p.receiver == i && p.sender != i && p.message.ProposedSecret? then {p.sender} else {}
  {
    assert forall p :: p in packets <==> p == packets[0] || p in packets[1..];
  }

  /**
   * A replica is ready exactly when the proposals of all others were delivered to it, and there
   * has to be another one.
   */
  lemma ReadyExactlyWhenAllProposed(keys: seq<Key>, packets: seq<Packet>, i: ReplicaId)
    requires RunOf(Initial(keys), packets) && i < |keys|
    ensures var s := After(Initial(keys), packets);
            |s.locals| == |keys| &&
            (s.locals[i].ready <==> |keys| > 1 && Proposers(packets, i) == Replicas(|keys|) - {i})
  {
    InitialInv(keys);
    RunKeeps(keys, Initial(keys), packets);
    ProposalsAreThoseDelivered(keys, Initial(keys), packets, i);
    var l := After(Initial(keys), packets).locals[i];
    assert LocalOk(keys, l, i);
    assert l.proposalsFrom <= Replicas(|keys|);
    SubsetSize(l.proposalsFrom, Replicas(|keys|));
  }

  // ---------------------------------------------------------------------------------------------
  // Everyone can become ready

  /** What a replica proposes to another one. */
  function Proposal(keys: seq<Key>, sender: ReplicaId, receiver: ReplicaId): Packet
    requires sender < |keys|
  {
    Packet(sender, receiver,
           ProposedSecret(Generated(sender), Sealed(SharedKey(Generated(receiver), Generated(sender)), keys[sender])))
  }

  /** An attestation is answered with the own proposal, which only its sender can decrypt. */
  lemma AttestationIsAnswered(keys: seq<Key>, s: System, p: Packet)
    requires Inv(keys, s) && p in s.network && p.message.Attestation? && p.sender != p.receiver
    ensures Deliverable(s, p) && p.receiver < |keys| && Proposal(keys, p.receiver, p.sender) in Delivered(s, p).network
  {
    assert PacketOk(keys, p) && LocalOk(keys, s.locals[p.receiver], p.receiver);
    assert SharedKey(Generated(p.receiver), Generated(p.sender)) == SharedKey(Generated(p.sender), Generated(p.receiver));
  }

  /** Packets in the network can be delivered in any order, and what is in the network stays there. */
  lemma {:induction false} AnyOrder(keys: seq<Key>, s: System, packets: seq<Packet>)
    requires Inv(keys, s) && forall p :: p in packets ==> p in s.network
    ensures RunOf(s, packets) && s.network <= After(s, packets).network
    ensures forall p :: p in packets && p.message.Attestation? && p.sender != p.receiver ==>
              p.receiver < |keys| && Proposal(keys, p.receiver, p.sender) in After(s, packets).network
    decreases |packets|
  {
    if packets != [] {
      var p := packets[0];
      assert p in packets;
      DeliveryKeeps(keys, s, p);
      AnyOrder(keys, Delivered(s, p), packets[1..]);
      if p.message.Attestation? && p.sender != p.receiver {
        AttestationIsAnswered(keys, s, p);
      }
    }
  }

  lemma {:induction false} RunsCompose(s: System, packets: seq<Packet>, later: seq<Packet>)
    requires RunOf(s, packets) && RunOf(After(s, packets), later)
    ensures RunOf(s, packets + later) && After(s, packets + later) == After(After(s, packets), later)
    decreases |packets|
  {
    if packets == [] {
      assert packets + later == later;
    } else {
      RunsCompose(Delivered(s, packets[0]), packets[1..], later);
      assert (packets + later)[1..] == packets[1..] + later;
    }
  }

  /** The elements of a set in some order. */
  lemma {:induction false} InSomeOrder(packets: set<Packet>) returns (r: seq<Packet>)
    ensures forall p :: p in r <==> p in packets
  {
    r := [];
    if packets != {} {
      var p :| p in packets;
      r := InSomeOrder(packets - {p});
      r := r + [p];
    }
  }

  /** Once all attestations were delivered, all proposals are in the network. */
  lemma AttestationsBringProposals(keys: seq<Key>, attestations: seq<Packet>)
    requires forall p :: p in attestations <==> p in Broadcasts(|keys|)
    ensures RunOf(Initial(keys), attestations) && Inv(keys, After(Initial(keys), attestations))
    ensures forall p :: p in Proposals(keys) ==> p in After(Initial(keys), attestations).network
  {
    hide Inv, RunOf, After;
    InitialInv(keys);
    AnyOrder(keys, Initial(keys), attestations);
    RunKeeps(keys, Initial(keys), attestations);
    forall p | p in Proposals(keys) ensures p in After(Initial(keys), attestations).network {
      var i, j :| 0 <= i < |keys| && 0 <= j < |keys| && i != j && p == Proposal(keys, i, j);
      assert Packet(j, i, Attestation(Generated(j))) in attestations;
    }
  }

  function Proposals(keys: seq<Key>): set<Packet> {
    set i, j | 0 <= i < |keys| && 0 <= j < |keys| && i != j :: Proposal(keys, i, j)
  }

  lemma AllPropose(keys: seq<Key>, attestations: seq<Packet>, proposals: seq<Packet>, i: ReplicaId)
    requires forall p :: p in attestations <==> p in Broadcasts(|keys|)
    requires forall p :: p in proposals <==> p in Proposals(keys)
    requires i < |keys|
    ensures Proposers(attestations + proposals, i) == Replicas(|keys|) - {i}
  {
    var packets := attestations + proposals;
    forall j | j in Replicas(|keys|) - {i} ensures j in Proposers(packets, i) {
      assert Proposal(keys, j, i) in packets;
    }
    forall j | j in Proposers(packets, i) ensures j in Replicas(|keys|) - {i} {
      var p :| p in packets && p.receiver == i && p.sender != i && p.message.ProposedSecret? && p.sender == j;
      assert p in proposals;
    }
  }

  /** From the start of any group, a run exists after which all its replicas are ready. */
  lemma EveryoneCanBecomeReady(keys: seq<Key>) returns (packets: seq<Packet>)
    requires |keys| > 1
    ensures RunOf(Initial(keys), packets) && |After(Initial(keys), packets).locals| == |keys|
    ensures forall i :: 0 <= i < |keys| ==> After(Initial(keys), packets).locals[i].ready
  {
    hide Inv, RunOf, After, Initial, Proposers, Proposals, Broadcasts;
    var attestations := InSomeOrder(Broadcasts(|keys|));
    AttestationsBringProposals(keys, attestations);
    var proposals := InSomeOrder(Proposals(keys));
    AnyOrder(keys, After(Initial(keys), attestations), proposals);
    RunsCompose(Initial(keys), attestations, proposals);
    packets := attestations + proposals;
    forall i | 0 <= i < |keys|
      ensures |After(Initial(keys), packets).locals| == |keys| && After(Initial(keys), packets).locals[i].ready
    {
      AllPropose(keys, attestations, proposals, i);
      ReadyExactlyWhenAllProposed(keys, packets, i);
    }
    ReadyExactlyWhenAllProposed(keys, packets, 0);
  }

  /** A replica that is ready uses the least of all keys proposed and the key pair derived from it. */
  lemma ReadyUsesLeast(keys: seq<Key>, packets: seq<Packet>, i: ReplicaId)
    requires RunOf(Initial(keys), packets) && i < |keys| == |After(Initial(keys), packets).locals|
    requires After(Initial(keys), packets).locals[i].ready
    ensures var l := After(Initial(keys), packets).locals[i];
            l.usedKey in keys && (forall j :: 0 <= j < |keys| ==> l.usedKey <= keys[j]) && l.usedKeyPair == Derived(l.usedKey)
  {
    InitialInv(keys);
    RunKeeps(keys, Initial(keys), packets);
    var l := After(Initial(keys), packets).locals[i];
    assert LocalOk(keys, l, i);
    assert l.proposalsFrom <= Replicas(|keys|);
    SubsetSize(l.proposalsFrom, Replicas(|keys|));
    forall j | 0 <= j < |keys| ensures l.usedKey <= keys[j] {
      assert j in Replicas(|keys|);
    }
  }

  /** Two ready replicas use the same key and key pair, also when one is observed later in the run than the other. */
  lemma ReadyReplicasAgree(keys: seq<Key>, packets: seq<Packet>, later: seq<Packet>, i: ReplicaId, j: ReplicaId)
    requires RunOf(Initial(keys), packets) && RunOf(Initial(keys), packets + later)
    requires i < |keys| == |After(Initial(keys), packets).locals|
    requires j < |keys| == |After(Initial(keys), packets + later).locals|
    requires After(Initial(keys), packets).locals[i].ready && After(Initial(keys), packets + later).locals[j].ready
    ensures var l, l' := After(Initial(keys), packets).locals[i], After(Initial(keys), packets + later).locals[j];
            l.usedKey == l'.usedKey && l.usedKeyPair == l'.usedKeyPair
  {
    ReadyUsesLeast(keys, packets, i);
    ReadyUsesLeast(keys, packets + later, j);
  }

  /** A replica that is ready stays so and uses the same key for good. */
  lemma {:induction false} ReadyIsFinal(keys: seq<Key>, s: System, packets: seq<Packet>, i: ReplicaId)
    requires Inv(keys, s) && RunOf(s, packets) && i < |keys| && s.locals[i].ready
    ensures |After(s, packets).locals| == |keys|
    ensures var l := After(s, packets).locals[i];
            l.ready && l.usedKey == s.locals[i].usedKey && l.usedKeyPair == s.locals[i].usedKeyPair
    decreases |packets|
  {
    if packets != [] {
      var p := packets[0];
      DeliveryKeeps(keys, s, p);
      ReadyKeepsKey(keys, s, p, i);
      ReadyIsFinal(keys, Delivered(s, p), packets[1..], i);
    }
  }

  lemma ReadyKeepsKey(keys: seq<Key>, s: System, p: Packet, i: ReplicaId)
    requires Inv(keys, s) && Deliverable(s, p) && i < |keys| && s.locals[i].ready
    ensures var l := Delivered(s, p).locals[i];
            l.ready && l.usedKey == s.locals[i].usedKey && l.usedKeyPair == s.locals[i].usedKeyPair
  {
    var l := s.locals[i];
    assert LocalOk(keys, l, i) && PacketOk(keys, p);
    assert l.proposalsFrom <= Replicas(|keys|);
    SubsetSize(l.proposalsFrom, Replicas(|keys|));
    assert p.sender in l.proposalsFrom;
  }

  // ---------------------------------------------------------------------------------------------
  // The enclave and the server as the program keeps them

  class Enclave {
    const keyPair: KeyPair
    const proposedKey: Key
    var usedKey: Key
    var usedKeyPair: KeyPair

    constructor (id: ReplicaId, random: Key)
      ensures keyPair == Generated(id) && proposedKey == random && usedKey == random && usedKeyPair == Derived(random)
    {
      keyPair := Generated(id);
      proposedKey := random;
      usedKey := random;
      usedKeyPair := Derived(random);
    }

    /** The own proposal for the owner of a public key. */
    method MaContinue(remote: KeyPair) returns (m: Message)
      ensures m == ProposedSecret(keyPair, Sealed(SharedKey(keyPair, remote), proposedKey))
    {
      m := ProposedSecret(keyPair, Sealed(SharedKey(keyPair, remote), proposedKey));
    }

    /** Takes in a proposal, unless it cannot be decrypted. */
    method MaFinish(remote: KeyPair, secret: Sealed) returns (decrypted: bool)
      modifies this
      ensures decrypted <==> secret.key == SharedKey(keyPair, remote)
      ensures usedKey == if decrypted && secret.content < old(usedKey) then secret.content else old(usedKey)
      ensures usedKeyPair == if usedKey == old(usedKey) then old(usedKeyPair) else Derived(usedKey)
    {
      if secret.key != SharedKey(keyPair, remote) {
        return false;
      }
      if usedKey > secret.content {
        usedKey := secret.content;
        usedKeyPair := Derived(usedKey);
      }
      return true;
    }
  }

  class Server {
    const me: ReplicaId
    const n: nat
    const enclave: Enclave
    var proposalsFrom: set<ReplicaId>
    /** The channel that reports readiness was used. */
    var readyTaken: bool

    ghost function Now(): Local
      reads this, enclave
    {
      Local(me, n, enclave.keyPair, enclave.proposedKey, enclave.usedKey, enclave.usedKeyPair, proposalsFrom, readyTaken)
    }

    constructor (id: ReplicaId, size: nat, random: Key)
      ensures Now() == Started(id, size, random) && fresh(enclave)
    {
      me := id;
      n := size;
      enclave := new Enclave(id, random);
      proposalsFrom := {id};
      readyTaken := false;
    }

    method Receive(sender: ReplicaId, m: Message) returns (sent: set<Packet>, reports: bool)
      requires Opens(Now(), sender, m)
      modifies this, enclave
      ensures Outcome(Now(), sent, reports) == Received(old(Now()), sender, m)
    {
      sent, reports := {}, false;
      if sender != me {
        match m
        case Attestation(publicKey) =>
          var proposal := enclave.MaContinue(publicKey);
          sent := {Packet(me, sender, proposal)};
        case ProposedSecret(publicKey, secret) =>
          var decrypted := enclave.MaFinish(publicKey, secret);
          proposalsFrom := proposalsFrom + {sender};
          if |proposalsFrom| >= n && !readyTaken {
            readyTaken, reports := true, true;
          }
      }
    }
  }
}
