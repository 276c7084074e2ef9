/**
 * Clusters from their start on: every schedule of events keeps the deliveries of all replicas in
 * agreement, and there are schedules after which all replicas have executed any number of blocks.
 */
module DamysusScenarios {
  import opened Wrappers
  import opened ReplicaSets
  import opened DamysusTypes
  import opened DamysusSystem
  import opened DamysusSafety
  import opened DamysusDelivery
  import opened DamysusRuns
  import opened DamysusBlockstore
  import opened DamysusLocal
  import opened DamysusReplicaSteps
  import opened DamysusReplica
  import opened DamysusCluster
  import opened DamysusProgress
  import Enclave = DamysusEnclave

  function Greeting(i: ReplicaId): Envelope {
    Envelope(Destination.Broadcast, i, Handshake(i))
  }

  /** A replica that has added its own key and told the others. */
  function GreetedLocal(n: nat, i: ReplicaId): Local {
    JoinedLocal(StartLocal(n, i), i).(outbox := [Greeting(i)])
  }

  lemma NewIsInPlace(rs: seq<Replica>, i: nat)
    requires |rs| > 1 && i < |rs| && New(rs[i], i, |rs|)
    ensures InPlace(rs, i, Initial(|rs|)) && rs[i].Here() == StartLocal(|rs|, i)
  {
  }

  lemma GreetMeans(n: nat, i: ReplicaId, s: System, l': Local, t: System)
    requires Performed(Greet, StartLocal(n, i), s, l', t)
    ensures l' == GreetedLocal(n, i)
  {
    hide Enabled, Next;
  }

  lemma StartKnowsNobody(rs: seq<Replica>, i: nat)
    requires i < |rs| && rs[i].Here() == StartLocal(|rs|, i)
    ensures Due(rs, i, Greet)
  {
  }

  /** All replicas add their own keys and broadcast them. */
  method GreetAll(rs: seq<Replica>) returns (ghost s: System)
    requires |rs| > 1 && Apart(rs) && forall i :: 0 <= i < |rs| ==> New(rs[i], i, |rs|)
    modifies Objects(rs)
    ensures Running(rs, s) && forall i :: 0 <= i < |rs| ==> rs[i].Here() == GreetedLocal(|rs|, i)
  {
    hide New, InPlace, Objects, Footprint, Apart, Performed, Due, JoinedLocal, StartLocal;
    s := Initial(|rs|);
    forall i | 0 <= i < |rs| ensures InPlace(rs, i, s) && rs[i].Here() == StartLocal(|rs|, i) {
      NewIsInPlace(rs, i);
    }
    for k := 0 to |rs|
      invariant Running(rs, s)
      invariant forall i :: 0 <= i < k ==> rs[i].Here() == GreetedLocal(|rs|, i)
      invariant forall i :: k <= i < |rs| ==> rs[i].Here() == StartLocal(|rs|, i)
    {
      StartKnowsNobody(rs, k);
      ghost var before := s;
      s := Perform(rs, k, Greet, s);
      GreetMeans(|rs|, k, before, rs[k].Here(), s);
    }
  }

  /** A lone replica has all keys as soon as it adds its own. */
  method GreetAlone(rs: seq<Replica>) returns (ghost s: System)
    requires |rs| == 1 && Apart(rs) && New(rs[0], 0, 1)
    modifies Footprint(rs[0])
    ensures Running(rs, s)
  {
    rs[0].InitHandshake();
    s := rs[0].sys;
  }

  method Start(n: nat) returns (rs: seq<Replica>, ghost s: System)
    requires n > 0
    ensures |rs| == n && fresh(Objects(rs)) && Running(rs, s)
    ensures n > 1 ==> forall i :: 0 <= i < n ==> rs[i].Here() == GreetedLocal(n, i)
  {
    hide New, InPlace, Objects, Footprint, Apart;
    rs := Create(n);
    if n == 1 {
      InObjects(rs, 0);
      s := GreetAlone(rs);
    } else {
      s := GreetAll(rs);
    }
  }

  /**
   * Agreement for every schedule: whatever messages of the replicas are delivered, in whatever
   * order and how often, and whenever timers fire, the deliveries of any two replicas are
   * prefix-comparable, and each delivers every request at most once. A lone replica never leaves
   * view 0 and delivers nothing.
   */
  method RunSchedule(n: nat, events: seq<Event>) returns (rs: seq<Replica>)
    requires n > 0
    ensures |rs| == n
    ensures forall i, j :: 0 <= i < n && 0 <= j < n ==> Comparable(rs[i].delivery, rs[j].delivery)
    ensures forall i :: 0 <= i < n ==> ExactlyOnce(Delivery(rs[i].executedTransactions, rs[i].delivery))
    ensures n == 1 ==> rs[0].view == 0 && rs[0].delivery == []
  {
    hide Objects, InPlace, Apart;
    ghost var s;
    rs, s := Start(n);
    for k := 0 to |events|
      invariant Running(rs, s) && fresh(Objects(rs))
    {
      s := Happen(rs, events[k], s);
    }
    RunningAgree(rs, s);
  }

  lemma RunningAgree(rs: seq<Replica>, s: System)
    requires Running(rs, s)
    ensures forall i, j :: 0 <= i < |rs| && 0 <= j < |rs| ==> Comparable(rs[i].delivery, rs[j].delivery)
    ensures forall i :: 0 <= i < |rs| ==> ExactlyOnce(Delivery(rs[i].executedTransactions, rs[i].delivery))
    ensures |rs| == 1 ==> rs[0].view == 0 && rs[0].delivery == []
  {
    hide Comparable, ExactlyOnce, Synced;
    forall i | 0 <= i < |rs| ensures ExactlyOnce(Delivery(rs[i].executedTransactions, rs[i].delivery)) {
      assert InPlace(rs, i, s);
      DeliversExactlyOnce(rs[i]);
    }
    forall i, j | 0 <= i < |rs| && 0 <= j < |rs| ensures Comparable(rs[i].delivery, rs[j].delivery) {
      assert InPlace(rs, i, s) && InPlace(rs, j, s);
      DeliveriesAgree(rs[i], rs[j]);
    }
    if |rs| == 1 {
      assert InPlace(rs, 0, s);
      StartDeliversNothing(rs[0].Here(), s);
    }
  }

  // ---------------------------------------------------------------------------------------------
  // A schedule without faults

  /** A replica of a running cluster is in line with the system. */
  lemma RunningSynced(rs: seq<Replica>, s: System, i: nat)
    requires Running(rs, s) && i < |rs|
    ensures Synced(rs[i].Here(), s) && rs[i].Here().me == i && rs[i].Here().n == |rs| && Reachable(s)
    ensures i < s.n == |s.enclaves| == |s.executed| == |rs| && s.enclaves[i] == rs[i].Here().enclave
  {
    assert InPlace(rs, i, s);
    SettledView(rs[i].Here(), s);
    hide Reachable;
  }

  lemma CountMeans(l: Local, s: System, l': Local, t: System, from: ReplicaId, c: SignedCommitment)
    requires Performed(Take(from, Commit(c)), l, s, l', t) && Unbuffered(l)
    requires CountableBy(l.n, l.me, l.view, l.enclave, from, c) && c.UsableFor() == l.view && c.creator !in l.senders
    ensures TakenInFully(l, s, l', t, c)
  {
    hide TakenIn, CountableBy, ReflectedAs, SentToSelf;
    var k: Local, u: System :| HandledAs(from, Commit(c), l, s, k, u) && ReflectedAs(k, u, l', t, SentToSelf(l, k));
    assert TakenIn(l, s, k, u, c);
  }

  /** The vote of a standing replica is on its way to the leader of its view. */
  lemma VoteIsDue(rs: seq<Replica>, i: nat, leader: nat, blocks: seq<Block>, lockView: View, lockHash: BlockHash)
    requires i < |rs| && leader < |rs| && Standing(rs[i].Here(), i, |rs|, blocks, lockView, lockHash)
    requires VoteOf(|rs|, i, Ballot(i, blocks[|blocks| - 1], lockView, lockHash))
             == Envelope(Destination.Unicast(leader), i, Commit(Ballot(i, blocks[|blocks| - 1], lockView, lockHash)))
    ensures Due(rs, leader, Take(i, Commit(Ballot(i, blocks[|blocks| - 1], lockView, lockHash))))
  {
    hide Ballot, VoteOf, Holds;
  }

  // ---------------------------------------------------------------------------------------------
  // Exchanging keys

  /** How far a replica has come once it has the keys of the given peers. */
  ghost predicate Admitted(l: Local, i: ReplicaId, n: nat, peers: set<ReplicaId>) {
    if peers == Replicas(n) then InRound(l, i, n, [GENESIS], 0, GenesisHash) else Keyed(l, i, n, peers)
  }

  lemma GreetedIsAdmitted(n: nat, i: ReplicaId)
    requires i < n && n > 1
    ensures Admitted(GreetedLocal(n, i), i, n, {i}) && Greeting(i) in GreetedLocal(n, i).outbox
  {
    assert |{i}| == 1;
  }

  lemma KeyMeans(l: Local, s: System, l': Local, t: System, i: ReplicaId, n: nat, peers: set<ReplicaId>, k: ReplicaId)
    requires Admitted(l, i, n, peers) && peers <= Replicas(n) && k < n && k !in peers
    requires Performed(Take(k, Handshake(k)), l, s, l', t)
    ensures Admitted(l', i, n, peers + {k}) && forall e :: e in l.outbox ==> e in l'.outbox
    ensures t.n == s.n && t.executed == s.executed
  {
    hide JoinedAs, StartedAs, Standing, Holds, InRound, ReflectedAs, SentToSelf;
    assert k in Replicas(n);
    SubsetSize(peers + {k}, Replicas(n));
    var m: Local, u: System :| HandledAs(k, Handshake(k), l, s, m, u) && ReflectedAs(m, u, l', t, SentToSelf(l, m));
    if |peers| + 1 < n {
      OneMoreKey(l, s, m, u, i, n, peers, k);
      NothingToReflect(l, m, u, l', t);
    } else {
      LastKeyReflected(l, s, m, u, l', t, i, n, peers, k);
    }
  }

  lemma NothingToReflect(l: Local, k: Local, u: System, l': Local, t: System)
    requires k.outbox == l.outbox && ReflectedAs(k, u, l', t, SentToSelf(l, k))
    ensures l' == k && t == u
  {
    assert k.outbox[|l.outbox|..] == [];
  }

  lemma LastKeyReflected(l: Local, s: System, m: Local, u: System, l': Local, t: System, i: ReplicaId, n: nat,
                         peers: set<ReplicaId>, k: ReplicaId)
    requires Keyed(l, i, n, peers) && k !in peers && peers + {k} == Replicas(n) && StartedAs(l, s, m, u, k)
    requires ReflectedAs(m, u, l', t, SentToSelf(l, m))
    ensures InRound(l', i, n, [GENESIS], 0, GenesisHash) && forall e :: e in l.outbox ==> e in l'.outbox
    ensures t.n == s.n && t.executed == s.executed
  {
    hide StartedAs, Standing, InRound, ReflectedAs, SentToSelf, VoteOf, Ballot, OwnBallot, CountedNone;
    LastKey(l, s, m, u, i, n, peers, k);
    StandingParts(m, i, n, [GENESIS], 0, GenesisHash);
    var vote := VoteOf(n, i, Ballot(i, GENESIS, 0, GenesisHash));
    assert m.outbox == l.outbox + [vote] + [];
    SentBallot(l, m, n, i, [GENESIS], 0, GenesisHash, []);
    ReflectedInRound(m, u, l', t, i, n, [GENESIS], 0, GenesisHash);
  }

  lemma GreetingIsDue(rs: seq<Replica>, i: nat, k: nat)
    requires i < |rs| && k < |rs| && Greeting(k) in rs[k].Here().outbox
    ensures Due(rs, i, Take(k, Handshake(k)))
  {
  }

  ghost predicate AllGreeted(rs: seq<Replica>)
    reads rs
  {
    forall k :: 0 <= k < |rs| ==> Greeting(k) in rs[k].outbox
  }

  ghost predicate NoneExecuted(s: System, n: nat) {
    |s.executed| == n && forall k :: 0 <= k < n ==> s.executed[k] == []
  }

  /** One replica receives the key of another one. */
  method TakeOneKey(rs: seq<Replica>, i: nat, k: nat, ghost peers: set<ReplicaId>, ghost s: System) returns (ghost t: System)
    requires |rs| > 1 && Running(rs, s) && i < |rs| && k < |rs| && k !in peers && peers <= Replicas(|rs|)
    requires Admitted(rs[i].Here(), i, |rs|, peers) && AllGreeted(rs) && NoneExecuted(s, |rs|)
    modifies Objects(rs)
    ensures Running(rs, t) && AllGreeted(rs) && NoneExecuted(t, |rs|) && Admitted(rs[i].Here(), i, |rs|, peers + {k})
    ensures forall j :: 0 <= j < |rs| && j != i ==> rs[j].Here() == old(rs[j].Here())
  {
    hide Objects, InPlace, Apart, Performed, Due, Admitted, Greeting, Replicas;
    GreetingIsDue(rs, i, k);
    ghost var l := rs[i].Here();
    t := Perform(rs, i, Take(k, Handshake(k)), s);
    KeyMeans(l, s, rs[i].Here(), t, i, |rs|, peers, k);
    forall j | 0 <= j < |rs| ensures Greeting(j) in rs[j].outbox {
      assert j != i ==> rs[j].Here().outbox == old(rs[j].Here().outbox);
    }
  }

  /** One replica receives the keys of all others. */
  method TakeKeys(rs: seq<Replica>, i: nat, ghost s0: System) returns (ghost s: System)
    requires |rs| > 1 && Running(rs, s0) && i < |rs| && rs[i].Here() == GreetedLocal(|rs|, i) && AllGreeted(rs)
    requires NoneExecuted(s0, |rs|)
    modifies Objects(rs)
    ensures Running(rs, s) && AllGreeted(rs) && NoneExecuted(s, |rs|)
    ensures InRound(rs[i].Here(), i, |rs|, [GENESIS], 0, GenesisHash)
    ensures forall k :: 0 <= k < |rs| && k != i ==> rs[k].Here() == old(rs[k].Here())
  {
    hide Objects, InPlace, Apart, InRound, Admitted, GreetedLocal, AllGreeted, Running, NoneExecuted;
    GreetedIsAdmitted(|rs|, i);
    s := s0;
    ghost var peers: set<ReplicaId> := {i};
    for k := 0 to |rs|
      invariant Running(rs, s) && AllGreeted(rs) && NoneExecuted(s, |rs|)
      invariant Admitted(rs[i].Here(), i, |rs|, peers)
      invariant forall j :: j in peers <==> j == i || 0 <= j < k
      invariant forall j :: 0 <= j < |rs| && j != i ==> rs[j].Here() == old(rs[j].Here())
    {
      if k != i {
        s := TakeOneKey(rs, i, k, peers, s);
        peers := peers + {k};
      }
    }
    assert peers == Replicas(|rs|);
    AdmittedAll(rs[i].Here(), i, |rs|);
  }

  lemma AdmittedAll(l: Local, i: ReplicaId, n: nat)
    requires Admitted(l, i, n, Replicas(n))
    ensures InRound(l, i, n, [GENESIS], 0, GenesisHash)
  {
  }

  /** All replicas receive all keys and leave view 0. */
  method LeaveViewZero(rs: seq<Replica>, ghost s0: System) returns (ghost s: System)
    requires |rs| > 1 && Running(rs, s0) && forall i :: 0 <= i < |rs| ==> rs[i].Here() == GreetedLocal(|rs|, i)
    modifies Objects(rs)
    ensures Running(rs, s) && NoneExecuted(s, |rs|)
    ensures forall i :: 0 <= i < |rs| ==> InRound(rs[i].Here(), i, |rs|, [GENESIS], 0, GenesisHash)
  {
    hide Objects, InPlace, Apart, GreetedLocal, Greeting, InRound;
    s := s0;
    GreetedStart(rs, s);
    for k := 0 to |rs|
      invariant Running(rs, s) && AllGreeted(rs) && NoneExecuted(s, |rs|)
      invariant forall i :: 0 <= i < k ==> InRound(rs[i].Here(), i, |rs|, [GENESIS], 0, GenesisHash)
      invariant forall i :: k <= i < |rs| ==> rs[i].Here() == GreetedLocal(|rs|, i)
    {
      s := TakeKeys(rs, k, s);
    }
  }

  lemma GreetedStart(rs: seq<Replica>, s: System)
    requires |rs| > 1 && Running(rs, s) && forall i :: 0 <= i < |rs| ==> rs[i].Here() == GreetedLocal(|rs|, i)
    ensures AllGreeted(rs) && NoneExecuted(s, |rs|)
  {
    hide Synced, InPlace, Objects, Apart;
    RunningSynced(rs, s, 0);
    forall i | 0 <= i < |rs| ensures Greeting(i) in rs[i].Here().outbox && i < |s.executed| && s.executed[i] == [] {
      RunningSynced(rs, s, i);
      StartDeliversNothing(rs[i].Here(), s);
    }
  }

  // ---------------------------------------------------------------------------------------------
  // Rounds

  /** A leader that has counted some votes, but no quorum yet. */
  ghost predicate Counting(l: Local, i: ReplicaId, n: nat, blocks: seq<Block>, lockView: View, lockHash: BlockHash) {
    && Standing(l, i, n, blocks, lockView, lockHash) && l.senders == CreatorSet(l.commitments)
    && |l.commitments| < QuorumSize(n) && Ballots(n, l.commitments, blocks[|blocks| - 1], lockView, lockHash)
  }

  lemma LeaderCounts(l: Local, i: ReplicaId, n: nat, blocks: seq<Block>, lockView: View, lockHash: BlockHash)
    requires n > 1 && InRound(l, i, n, blocks, lockView, lockHash) && Leader(|blocks|, n) == i
    ensures Counting(l, i, n, blocks, lockView, lockHash) && l.senders == {i}
  {
    hide Leader, Holds;
    QuorumBounds(n);
    assert l.commitments[0].creator == i;
    assert CreatorSet(l.commitments) == {i};
  }

  /** Another vote does not complete the quorum. */
  lemma CountingMeans(l: Local, s: System, l': Local, t: System, i: ReplicaId, n: nat, blocks: seq<Block>, lockView: View,
                      lockHash: BlockHash, k: ReplicaId)
    requires Counting(l, i, n, blocks, lockView, lockHash) && k < n && k !in l.senders
    requires |l.commitments| + 1 < QuorumSize(n) && TakenInFully(l, s, l', t, Ballot(k, blocks[|blocks| - 1], lockView, lockHash))
    ensures t == s && Counting(l', i, n, blocks, lockView, lockHash) && l'.senders == l.senders + {k}
    ensures |l'.commitments| == |l.commitments| + 1
  {
    hide Standing, Ballots, Ballot, QuorumSize, TakenInFully, ProposedFully;
    StandingParts(l, i, n, blocks, lockView, lockHash);
    TakenInQuietly(l, s, l', t, Ballot(k, blocks[|blocks| - 1], lockView, lockHash));
    BallotsOneMore(n, l.commitments, k, blocks[|blocks| - 1], lockView, lockHash);
    CountOne(l, s, l', t, i, n, blocks, lockView, lockHash, Ballot(k, blocks[|blocks| - 1], lockView, lockHash));
  }

  /** The leader counts one more vote. */
  method CountVote(rs: seq<Replica>, leader: nat, k: nat, blocks: seq<Block>, lockView: View, lockHash: BlockHash, ghost s: System)
    returns (ghost t: System)
    requires |rs| > 1 && Running(rs, s) && leader < |rs| && k < |rs| && blocks != [] && leader == Leader(|blocks|, |rs|)
    requires blocks[|blocks| - 1].view == |blocks| - 1
    requires Counting(rs[leader].Here(), leader, |rs|, blocks, lockView, lockHash) && k !in rs[leader].Here().senders
    requires Standing(rs[k].Here(), k, |rs|, blocks, lockView, lockHash)
    modifies Objects(rs)
    ensures Running(rs, t)
    ensures TakenInFully(old(rs[leader].Here()), s, rs[leader].Here(), t, Ballot(k, blocks[|blocks| - 1], lockView, lockHash))
    ensures forall i :: 0 <= i < |rs| && i != leader ==> rs[i].Here() == old(rs[i].Here())
  {
    ghost var l := rs[leader].Here();
    StandingParts(l, leader, |rs|, blocks, lockView, lockHash);
    BallotCounts(|rs|, k, blocks, lockView, lockHash, l, leader);
    VoteIsDue(rs, k, leader, blocks, lockView, lockHash);
    hide Objects, InPlace, Apart, Performed, Due, Standing, Leader, VoteOf, CountableBy, TakenInFully, Unbuffered, Counting, Ballot;
    var vote := Ballot(k, blocks[|blocks| - 1], lockView, lockHash);
    t := Perform(rs, leader, Take(k, Commit(vote)), s);
    CountMeans(l, s, rs[leader].Here(), t, k, vote);
  }

  /** The vote that completes the quorum. */
  lemma QuorumReached(l: Local, i: ReplicaId, n: nat, blocks: seq<Block>, lockView: View, lockHash: BlockHash, k: ReplicaId)
    requires Counting(l, i, n, blocks, lockView, lockHash) && k < n && k !in l.senders && |l.commitments| + 1 == QuorumSize(n)
    ensures blocks != []
    ensures var l' := CollectedLocal(l, Ballot(k, blocks[|blocks| - 1], lockView, lockHash));
            && |l'.commitments| == QuorumSize(n) && Ballots(n, l'.commitments, blocks[|blocks| - 1], lockView, lockHash)
            && forall may :: Standing(l'.(mayPropose := may).(mayPropose := false), i, n, blocks, lockView, lockHash)
  {
    hide Standing, Ballots, Ballot, QuorumSize;
    StandingParts(l, i, n, blocks, lockView, lockHash);
    BallotsOneMore(n, l.commitments, k, blocks[|blocks| - 1], lockView, lockHash);
  }

  lemma BlockTimerMeans(l: Local, s: System, l': Local, t: System)
    requires Performed(BlockTimer, l, s, l', t) && Unbuffered(l) && l.mayPropose
    ensures ProposedFully(l, s, l', t)
  {
    hide Proposed, ReflectedAs, SentToSelf;
    var k: Local, u: System :| TimedAs(l, s, k, u) && ReflectedAs(k, u, l', t, SentToSelf(l, k));
    assert Proposed(l, s, k, u);
  }

  /** The leader counts the vote that completes its quorum and proposes, at the latest when its timer fires. */
  method CompleteQuorum(rs: seq<Replica>, leader: nat, k: nat, blocks: seq<Block>, lockView: View, lockHash: BlockHash, ghost s: System)
    returns (ghost l: Local, ghost t: System)
    requires |rs| > 1 && Running(rs, s) && leader < |rs| && k < |rs| && blocks != [] && leader == Leader(|blocks|, |rs|)
    requires blocks[|blocks| - 1].view == |blocks| - 1
    requires Counting(rs[leader].Here(), leader, |rs|, blocks, lockView, lockHash) && k !in rs[leader].Here().senders
    requires |rs[leader].Here().commitments| + 1 == QuorumSize(|rs|) && Standing(rs[k].Here(), k, |rs|, blocks, lockView, lockHash)
    modifies Objects(rs)
    ensures Running(rs, t) && ProposedFully(l, s, rs[leader].Here(), t)
    ensures l.enclave == old(rs[leader].Here()).enclave && |l.commitments| == QuorumSize(|rs|)
    ensures Standing(l.(mayPropose := false), leader, |rs|, blocks, lockView, lockHash)
    ensures Ballots(|rs|, l.commitments, blocks[|blocks| - 1], lockView, lockHash)
    ensures forall i :: 0 <= i < |rs| && i != leader ==> rs[i].Here() == old(rs[i].Here())
  {
    hide Objects, InPlace, Apart, Performed, Standing, Leader, Counting, Ballot, Ballots, Proposed, Unbuffered, QuorumSize,
         TakenInFully, ProposedFully;
    ghost var before := rs[leader].Here();
    CountingParts(before, leader, |rs|, blocks, lockView, lockHash);
    QuorumReached(before, leader, |rs|, blocks, lockView, lockHash, k);
    t := CountVote(rs, leader, k, blocks, lockView, lockHash, s);
    TakenInQuietly(before, s, rs[leader].Here(), t, Ballot(k, blocks[|blocks| - 1], lockView, lockHash));
    l := CollectedLocal(before, Ballot(k, blocks[|blocks| - 1], lockView, lockHash));
    if rs[leader].view == |blocks| {
      l := rs[leader].Here();
      t := Perform(rs, leader, BlockTimer, t);
      BlockTimerMeans(l, s, rs[leader].Here(), t);
    }
  }

  lemma CountingParts(l: Local, i: ReplicaId, n: nat, blocks: seq<Block>, lockView: View, lockHash: BlockHash)
    requires Counting(l, i, n, blocks, lockView, lockHash)
    ensures Standing(l, i, n, blocks, lockView, lockHash) && l.n == n && l.view == |blocks| && Unbuffered(l)
    ensures forall c, may :: Unbuffered(CollectedLocal(l, c).(mayPropose := may))
  {
  }

  lemma SomeVoteMissing(l: Local, i: ReplicaId, n: nat, blocks: seq<Block>, lockView: View, lockHash: BlockHash)
    requires n > 1 && Counting(l, i, n, blocks, lockView, lockHash)
    ensures |l.senders| == |l.commitments| < n
  {
    hide Standing, CreatorSet;
    CreatorSetSize(l.commitments);
    QuorumBounds(n);
  }

  /** While there is no quorum, the vote of the next replica is missing. */
  lemma NextVoter(n: nat, i: ReplicaId, k: nat, senders: set<ReplicaId>)
    requires i < n && k <= n && |senders| < n && forall j: ReplicaId :: j in senders <==> j == i || j < k
    ensures var next := if k == i then k + 1 else k; next < n && next !in senders
  {
    if (if k == i then k + 1 else k) >= n {
      assert Replicas(n) <= senders;
      SubsetSize(Replicas(n), senders);
      assert false;
    }
  }

  ghost function HereOf(r: Replica): Local
    reads Footprint(r)
  {
    r.Here()
  }

  /** The leader counts votes until one is missing for a quorum. */
  method CountVotes(rs: seq<Replica>, leader: nat, blocks: seq<Block>, lockView: View, lockHash: BlockHash, ghost s: System)
    returns (k: nat)
    requires |rs| > 1 && Running(rs, s) && leader < |rs| && blocks != [] && leader == Leader(|blocks|, |rs|)
    requires blocks[|blocks| - 1].view == |blocks| - 1
    requires forall i :: 0 <= i < |rs| ==> InRound(rs[i].Here(), i, |rs|, blocks, lockView, lockHash)
    modifies Objects(rs)
    ensures Running(rs, s) && k < |rs| && k !in rs[leader].Here().senders && k != leader
    ensures Counting(rs[leader].Here(), leader, |rs|, blocks, lockView, lockHash)
    ensures |rs[leader].Here().commitments| + 1 == QuorumSize(|rs|)
    ensures forall i :: 0 <= i < |rs| && i != leader ==> rs[i].Here() == old(rs[i].Here())
  {
    hide Objects, InPlace, Apart, Standing, Leader, Counting, Ballot, InRound, QuorumSize, TakenInFully, CreatorSet;
    LeaderCounts(rs[leader].Here(), leader, |rs|, blocks, lockView, lockHash);
    k := 0;
    SomeVoteMissing(rs[leader].Here(), leader, |rs|, blocks, lockView, lockHash);
    while |rs[leader].commitments| + 1 < QuorumSize(|rs|)
      invariant Running(rs, s) && k <= |rs| && Counting(rs[leader].Here(), leader, |rs|, blocks, lockView, lockHash)
      invariant forall j: ReplicaId :: j in rs[leader].Here().senders <==> j == leader || j < k
      invariant |rs[leader].Here().senders| < |rs|
      invariant forall i :: 0 <= i < |rs| && i != leader ==> rs[i].Here() == old(rs[i].Here())
      decreases |rs| - k
    {
      NextVoter(|rs|, leader, k, rs[leader].Here().senders);
      if k != leader {
        InRoundStands(rs[k].Here(), k, |rs|, blocks, lockView, lockHash);
        ghost var l := rs[leader].Here();
        ghost var t := CountVote(rs, leader, k, blocks, lockView, lockHash, s);
        CountingMeans(l, s, rs[leader].Here(), t, leader, |rs|, blocks, lockView, lockHash, k);
        SomeVoteMissing(rs[leader].Here(), leader, |rs|, blocks, lockView, lockHash);
      }
      k := k + 1;
    }
    NextVoter(|rs|, leader, k, rs[leader].Here().senders);
    if k == leader {
      k := k + 1;
    }
    CountingBelow(rs[leader].Here(), leader, |rs|, blocks, lockView, lockHash);
  }

  lemma CountingBelow(l: Local, i: ReplicaId, n: nat, blocks: seq<Block>, lockView: View, lockHash: BlockHash)
    requires Counting(l, i, n, blocks, lockView, lockHash)
    ensures |l.commitments| < QuorumSize(n)
  {
  }

  lemma InRoundStands(l: Local, i: ReplicaId, n: nat, blocks: seq<Block>, lockView: View, lockHash: BlockHash)
    requires InRound(l, i, n, blocks, lockView, lockHash)
    ensures Standing(l, i, n, blocks, lockView, lockHash)
  {
  }

  /** The block that a replica announced last is the last message it sent. */
  lemma LastAnnounced(r: Replica, i: ReplicaId, b: Block, c: SignedCommitment)
    requires LastSent(r.Here(), Envelope(Destination.Broadcast, i, NewBlock(b, c)))
    ensures r.outbox != [] && r.outbox[|r.outbox| - 1].message == NewBlock(b, c)
    ensures Envelope(Destination.Broadcast, i, NewBlock(b, c)) in r.Here().outbox
  {
  }

  /** The leader of a round collects votes, proposes a block and counts its own vote for it if it leads the next view too. */
  method Lead(rs: seq<Replica>, leader: nat, blocks: seq<Block>, lockView: View, lockHash: BlockHash, ghost s: System)
    returns (b: Block, ghost t: System)
    requires |rs| > 1 && Running(rs, s) && leader < |rs| && Stack(|rs|, s.ledger, blocks) && leader == Leader(|blocks|, |rs|)
    requires forall i :: 0 <= i < |rs| ==> InRound(rs[i].Here(), i, |rs|, blocks, lockView, lockHash)
    requires ExecutedBelow(s, leader, blocks)
    modifies Objects(rs)
    ensures Running(rs, t) && OnTop(|rs|, b, blocks[|blocks| - 1]) && b in t.ledger && Stack(|rs|, t.ledger, blocks + [b])
    ensures var p := blocks[|blocks| - 1];
            && InRound(rs[leader].Here(), leader, |rs|, blocks + [b], p.view, p.Hash()) && ExecutedBelow(t, leader, blocks + [b])
            && Envelope(Destination.Broadcast, leader, NewBlock(b, Ballot(leader, b, p.view, p.Hash()))) in rs[leader].Here().outbox
    ensures |t.executed| == |s.executed| && forall i :: 0 <= i < |s.executed| && i != leader ==> t.executed[i] == s.executed[i]
    ensures forall x :: x in s.ledger ==> x in t.ledger
    ensures forall i :: 0 <= i < |rs| && i != leader ==> rs[i].Here() == old(rs[i].Here())
  {
    hide Objects, InPlace, Apart, Standing, Leader, Counting, Ballot, Ballots, InRound, QuorumSize, Synced, Reachable, Stack, OnTop,
         ExecutedBelow, ProposedFully, LastSent;
    StackTop(|rs|, s.ledger, blocks);
    var p := blocks[|blocks| - 1];
    var k := CountVotes(rs, leader, blocks, lockView, lockHash, s);
    RunningSynced(rs, s, leader);
    InRoundStands(rs[k].Here(), k, |rs|, blocks, lockView, lockHash);
    ghost var l;
    l, t := CompleteQuorum(rs, leader, k, blocks, lockView, lockHash, s);
    ghost var block := LeadOnTop(l, s, rs[leader].Here(), t, leader, |rs|, blocks, lockView, lockHash);
    RunningSynced(rs, t, leader);
    LastAnnounced(rs[leader], leader, block, Ballot(leader, block, p.view, p.Hash()));
    b := rs[leader].outbox[|rs[leader].outbox| - 1].message.block;
  }

  lemma AcceptMeans(l: Local, s: System, l': Local, t: System, from: ReplicaId, b: Block, c: SignedCommitment)
    requires Performed(Take(from, NewBlock(b, c)), l, s, l', t) && Unbuffered(l) && l.open == map[]
    requires AcceptableTo(l.enclave, b, c) && b.view == l.view
    ensures AcceptedFully(l, s, l', t, b)
  {
    hide Accepted, AcceptableTo, ReflectedAs, SentToSelf;
    var k: Local, u: System :| HandledAs(from, NewBlock(b, c), l, s, k, u) && ReflectedAs(k, u, l', t, SentToSelf(l, k));
    assert Accepted(l, s, k, u, Vote(l.me, b), b);
  }

  lemma BlockIsDue(rs: seq<Replica>, i: nat, leader: nat, b: Block, c: SignedCommitment)
    requires i < |rs| && leader < |rs| && Envelope(Destination.Broadcast, leader, NewBlock(b, c)) in rs[leader].Here().outbox
    ensures Due(rs, i, Take(leader, NewBlock(b, c)))
  {
  }

  /** Another replica accepts the block of the round and counts its own vote for it if it leads the next view. */
  method Follow(rs: seq<Replica>, i: nat, leader: nat, blocks: seq<Block>, b: Block, lockView: View, lockHash: BlockHash, ghost s: System)
    returns (ghost t: System)
    requires |rs| > 1 && Running(rs, s) && i < |rs| && leader < |rs| && i != leader && Stack(|rs|, s.ledger, blocks) && b in s.ledger
    requires OnTop(|rs|, b, blocks[|blocks| - 1]) && InRound(rs[i].Here(), i, |rs|, blocks, lockView, lockHash)
    requires ExecutedBelow(s, i, blocks)
    requires var p := blocks[|blocks| - 1];
             Envelope(Destination.Broadcast, leader, NewBlock(b, Ballot(leader, b, p.view, p.Hash()))) in rs[leader].Here().outbox
    modifies Objects(rs)
    ensures Running(rs, t) && b in t.ledger && Stack(|rs|, t.ledger, blocks + [b])
    ensures var p := blocks[|blocks| - 1];
            InRound(rs[i].Here(), i, |rs|, blocks + [b], p.view, p.Hash()) && ExecutedBelow(t, i, blocks + [b])
    ensures |t.executed| == |s.executed| && forall k :: 0 <= k < |s.executed| && k != i ==> t.executed[k] == s.executed[k]
    ensures forall x :: x in s.ledger ==> x in t.ledger
    ensures forall k :: 0 <= k < |rs| && k != i ==> rs[k].Here() == old(rs[k].Here())
  {
    hide Objects, InPlace, Apart, Standing, Leader, Ballot, InRound, Synced, Reachable, Stack, OnTop, ExecutedBelow, Performed, Due,
         AcceptedFully, AcceptableTo, Unbuffered, Member;
    StackTop(|rs|, s.ledger, blocks);
    var p := blocks[|blocks| - 1];
    var c := Ballot(leader, b, p.view, p.Hash());
    ghost var l := rs[i].Here();
    InRoundStands(l, i, |rs|, blocks, lockView, lockHash);
    StandingParts(l, i, |rs|, blocks, lockView, lockHash);
    OnTopView(|rs|, b, p);
    BlockAcceptable(|rs|, i, leader, b, p, lockView, lockHash);
    BlockIsDue(rs, i, leader, b, c);
    RunningSynced(rs, s, i);
    t := Perform(rs, i, Take(leader, NewBlock(b, c)), s);
    AcceptMeans(l, s, rs[i].Here(), t, leader, b, c);
    FollowOnTop(l, s, rs[i].Here(), t, i, |rs|, blocks, b, lockView, lockHash);
  }

  /** A replica has voted for the top of a stack and executed all but the two topmost blocks. */
  ghost predicate Caught(l: Local, s: System, i: nat, n: nat, blocks: seq<Block>, lockView: View, lockHash: BlockHash) {
    InRound(l, i, n, blocks, lockView, lockHash) && ExecutedBelow(s, i, blocks)
  }

  lemma CaughtStays(l: Local, s: System, t: System, i: nat, n: nat, blocks: seq<Block>, lockView: View, lockHash: BlockHash)
    requires Caught(l, s, i, n, blocks, lockView, lockHash) && |t.executed| == |s.executed|
    requires i < |s.executed| ==> t.executed[i] == s.executed[i]
    ensures Caught(l, t, i, n, blocks, lockView, lockHash)
  {
    hide InRound;
  }

  lemma StackStays(n: nat, ledger: Ledger, ledger': Ledger, blocks: seq<Block>)
    requires Stack(n, ledger, blocks) && forall x :: x in ledger ==> x in ledger'
    ensures Stack(n, ledger', blocks)
  {
    hide OnTop;
  }

  /** All replicas are between rounds. */
  ghost predicate Between(rs: seq<Replica>, s: System, blocks: seq<Block>, lockView: View, lockHash: BlockHash)
    reads Objects(rs)
  {
    && Running(rs, s) && Stack(|rs|, s.ledger, blocks)
    && forall i :: 0 <= i < |rs| ==> Caught(HereOf(rs[i]), s, i, |rs|, blocks, lockView, lockHash)
  }

  /** The leader and the first `k` replicas have voted for block `b` on top, the others not yet. */
  ghost predicate Midway(rs: seq<Replica>, s: System, blocks: seq<Block>, lockView: View, lockHash: BlockHash, leader: nat,
                         b: Block, k: nat)
    requires leader < |rs| && blocks != []
    reads Objects(rs)
  {
    var p := blocks[|blocks| - 1];
    && Running(rs, s) && b in s.ledger && OnTop(|rs|, b, p) && Stack(|rs|, s.ledger, blocks + [b]) && Stack(|rs|, s.ledger, blocks)
    && Envelope(Destination.Broadcast, leader, NewBlock(b, Ballot(leader, b, p.view, p.Hash()))) in HereOf(rs[leader]).outbox
    && (forall i :: 0 <= i < |rs| && (i < k || i == leader) ==>
          Caught(HereOf(rs[i]), s, i, |rs|, blocks + [b], p.view, p.Hash()))
    && (forall i :: k <= i < |rs| && i != leader ==> Caught(HereOf(rs[i]), s, i, |rs|, blocks, lockView, lockHash))
  }

  method LeadFirst(rs: seq<Replica>, blocks: seq<Block>, lockView: View, lockHash: BlockHash, ghost s: System, leader: nat)
    returns (b: Block, ghost t: System)
    requires |rs| > 1 && Between(rs, s, blocks, lockView, lockHash) && blocks != [] && leader == Leader(|blocks|, |rs|) < |rs|
    modifies Objects(rs)
    ensures Midway(rs, t, blocks, lockView, lockHash, leader, b, 0)
  {
    hide Objects, InPlace, Apart, Ballot, InRound, Stack, OnTop, ExecutedBelow, Leader, Synced, Reachable;
    RunningSynced(rs, s, 0);
    forall i | 0 <= i < |rs| ensures InRound(rs[i].Here(), i, |rs|, blocks, lockView, lockHash) && ExecutedBelow(s, i, blocks) {
      assert Caught(HereOf(rs[i]), s, i, |rs|, blocks, lockView, lockHash);
    }
    b, t := Lead(rs, leader, blocks, lockView, lockHash, s);
    StackStays(|rs|, s.ledger, t.ledger, blocks);
    forall i | 0 <= i < |rs| && i != leader ensures Caught(HereOf(rs[i]), t, i, |rs|, blocks, lockView, lockHash) {
      CaughtStays(old(HereOf(rs[i])), s, t, i, |rs|, blocks, lockView, lockHash);
    }
  }

  method FollowNext(rs: seq<Replica>, blocks: seq<Block>, lockView: View, lockHash: BlockHash, ghost s: System, leader: nat,
                    b: Block, k: nat)
    returns (ghost t: System)
    requires |rs| > 1 && leader < |rs| && blocks != [] && k < |rs| && Midway(rs, s, blocks, lockView, lockHash, leader, b, k)
    modifies Objects(rs)
    ensures Midway(rs, t, blocks, lockView, lockHash, leader, b, k + 1)
  {
    hide Objects, InPlace, Apart, Ballot, InRound, Stack, OnTop, ExecutedBelow, Synced, Reachable;
    if k == leader {
      t := s;
      return;
    }
    var p := blocks[|blocks| - 1];
    RunningSynced(rs, s, k);
    assert Caught(HereOf(rs[k]), s, k, |rs|, blocks, lockView, lockHash);
    t := Follow(rs, k, leader, blocks, b, lockView, lockHash, s);
    StackStays(|rs|, s.ledger, t.ledger, blocks);
    forall i | 0 <= i < |rs| && i != k
      ensures old(Caught(HereOf(rs[i]), s, i, |rs|, blocks, lockView, lockHash)) ==>
                Caught(HereOf(rs[i]), t, i, |rs|, blocks, lockView, lockHash)
      ensures old(Caught(HereOf(rs[i]), s, i, |rs|, blocks + [b], p.view, p.Hash())) ==>
                Caught(HereOf(rs[i]), t, i, |rs|, blocks + [b], p.view, p.Hash())
    {
      if old(Caught(HereOf(rs[i]), s, i, |rs|, blocks, lockView, lockHash)) {
        CaughtStays(old(HereOf(rs[i])), s, t, i, |rs|, blocks, lockView, lockHash);
      }
      if old(Caught(HereOf(rs[i]), s, i, |rs|, blocks + [b], p.view, p.Hash())) {
        CaughtStays(old(HereOf(rs[i])), s, t, i, |rs|, blocks + [b], p.view, p.Hash());
      }
    }
  }

  /** One round: the leader proposes and all replicas vote. */
  method Round(rs: seq<Replica>, blocks: seq<Block>, lockView: View, lockHash: BlockHash, ghost s: System)
    returns (b: Block, ghost t: System)
    requires |rs| > 1 && Between(rs, s, blocks, lockView, lockHash)
    modifies Objects(rs)
    ensures blocks != [] && Between(rs, t, blocks + [b], blocks[|blocks| - 1].view, blocks[|blocks| - 1].Hash())
  {
    hide Leader, Midway, Between, Objects;
    BetweenTop(rs, s, blocks, lockView, lockHash);
    var leader := Leader(|blocks|, |rs|);
    b, t := LeadFirst(rs, blocks, lockView, lockHash, s, leader);
    for k := 0 to |rs|
      invariant Midway(rs, t, blocks, lockView, lockHash, leader, b, k)
    {
      t := FollowNext(rs, blocks, lockView, lockHash, t, leader, b, k);
    }
    MidwayEnds(rs, t, blocks, lockView, lockHash, leader, b);
  }

  lemma BetweenTop(rs: seq<Replica>, s: System, blocks: seq<Block>, lockView: View, lockHash: BlockHash)
    requires |rs| > 0 && Between(rs, s, blocks, lockView, lockHash)
    ensures blocks != [] && Leader(|blocks|, |rs|) < |rs|
  {
    hide Running, Caught;
  }

  lemma MidwayEnds(rs: seq<Replica>, s: System, blocks: seq<Block>, lockView: View, lockHash: BlockHash, leader: nat, b: Block)
    requires leader < |rs| && blocks != [] && Midway(rs, s, blocks, lockView, lockHash, leader, b, |rs|)
    ensures Between(rs, s, blocks + [b], blocks[|blocks| - 1].view, blocks[|blocks| - 1].Hash())
  {
    hide Caught, Stack, Running, OnTop;
  }

  // ---------------------------------------------------------------------------------------------
  // Progress

  lemma FirstBetween(rs: seq<Replica>, s: System)
    requires |rs| > 1 && Running(rs, s) && NoneExecuted(s, |rs|)
    requires forall i :: 0 <= i < |rs| ==> InRound(rs[i].Here(), i, |rs|, [GENESIS], 0, GenesisHash)
    ensures Between(rs, s, [GENESIS], 0, GenesisHash)
  {
    hide InRound, Running;
  }

  /** The blocks a replica has executed are exactly those of the given views. */
  ghost predicate ExecutedUpTo(r: Replica, k: nat)
    reads r.blockstore
  {
    forall v: View :: Lookup(r.blockstore.blocks, v).Some? && Lookup(r.blockstore.blocks, v).value.executed <==> 1 <= v <= k
  }

  lemma ExecutedMeans(r: Replica, s: System, i: nat, blocks: seq<Block>, k: nat)
    requires Synced(r.Here(), s) && r.me == i && ExecutedBelow(s, i, blocks) && Stack(r.n, s.ledger, blocks) && |blocks| == k + 3
    ensures ExecutedUpTo(r, k) && r.delivery == DeliverBlocks(NOTHING, blocks[1..k + 1]).log
  {
    hide Reachable, OnTop, DeliverBlocks;
    var executed := blocks[1..k + 1];
    assert s.executed[i] == executed;
    forall v: View ensures Lookup(r.blockstore.blocks, v).Some? && Lookup(r.blockstore.blocks, v).value.executed <==> 1 <= v <= k {
      if 1 <= v <= k {
        assert executed[v - 1] == blocks[v] && executed[v - 1] in executed;
      }
      if Lookup(r.blockstore.blocks, v).Some? && Lookup(r.blockstore.blocks, v).value.executed {
        var j :| 0 <= j < |executed| && executed[j] == Lookup(r.blockstore.blocks, v).value.block;
        assert executed[j] == blocks[j + 1];
      }
    }
  }

  /**
   * For any number of replicas but one and any number of blocks there is a schedule, made up of
   * messages the replicas sent and of block timers, after which every replica has executed exactly
   * the blocks of the first views and all have delivered the same.
   */
  method Progress(n: nat, k: nat) returns (rs: seq<Replica>)
    requires n > 1
    ensures |rs| == n && forall i :: 0 <= i < n ==> ExecutedUpTo(rs[i], k)
    ensures forall i, j :: 0 <= i < n && 0 <= j < n ==> rs[i].delivery == rs[j].delivery
  {
    hide Between, Running, Objects, GreetedLocal, InRound, NoneExecuted, ExecutedUpTo;
    ghost var s;
    rs, s := Start(n);
    s := LeaveViewZero(rs, s);
    FirstBetween(rs, s);
    var blocks, lockView, lockHash := [GENESIS], 0, GenesisHash;
    for round := 0 to k + 2
      invariant |blocks| == round + 1 && Between(rs, s, blocks, lockView, lockHash) && fresh(Objects(rs))
    {
      var top := blocks[|blocks| - 1];
      var b;
      b, s := Round(rs, blocks, lockView, lockHash, s);
      blocks, lockView, lockHash := blocks + [b], top.view, top.Hash();
    }
    AllExecuted(rs, s, blocks, lockView, lockHash, k);
  }

  lemma AllExecuted(rs: seq<Replica>, s: System, blocks: seq<Block>, lockView: View, lockHash: BlockHash, k: nat)
    requires Between(rs, s, blocks, lockView, lockHash) && |blocks| == k + 3
    ensures forall i :: 0 <= i < |rs| ==> ExecutedUpTo(rs[i], k)
    ensures forall i, j :: 0 <= i < |rs| && 0 <= j < |rs| ==> rs[i].delivery == rs[j].delivery
  {
    hide ExecutedUpTo, Synced, Stack, ExecutedBelow, InRound, DeliverBlocks, InPlace, Objects;
    forall i | 0 <= i < |rs|
      ensures ExecutedUpTo(rs[i], k) && rs[i].delivery == DeliverBlocks(NOTHING, blocks[1..k + 1]).log
    {
      assert Caught(HereOf(rs[i]), s, i, |rs|, blocks, lockView, lockHash);
      RunningSynced(rs, s, i);
      ExecutedMeans(rs[i], s, i, blocks, k);
    }
  }
}
