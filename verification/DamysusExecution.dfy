/**
 * Execution of a chain of stored blocks: walk back along justifications to a block that was
 * executed before or to genesis, then execute the blocks passed, ancestors first.
 */
module DamysusExecution {
  import opened Wrappers
  import opened DamysusTypes
  import opened DamysusSystem
  import opened DamysusInvariant
  import opened DamysusChain
  import opened DamysusRuns
  import opened DamysusBlockstore
  import opened DamysusDelivery
  import opened DamysusLocal
  import opened DamysusSafety

  /** Justifications of stored blocks point to earlier views. */
  ghost predicate Descending(store: Store) {
    forall v: View :: Lookup(store, v).Some? && Lookup(store, v).value.block.justification.Quorum? ==>
      Lookup(store, v).value.block.Accumulator().NamedView() < v
  }

  /** The views to execute for the block of view `v`, ancestors first; none when an ancestor is missing. */
  function Backlog(store: Store, v: View): Option<seq<View>>
    decreases v
  {
    match Lookup(store, v)
    case None => None
    case Some(entry) =>
      if entry.executed || entry.block.justification.Genesis? then Some([])
      else
        var j := entry.block.Accumulator().NamedView();
        if j < v then Then(Backlog(store, j), [v]) else None
  }

  function Then(o: Option<seq<View>>, tail: seq<View>): Option<seq<View>> {
    match o
    case None => None
    case Some(vs) => Some(vs + tail)
  }

  function Reversed(vs: seq<View>): seq<View> {
    seq(|vs|, i requires 0 <= i < |vs| => vs[|vs| - 1 - i])
  }

  lemma ThenThen(o: Option<seq<View>>, a: seq<View>, b: seq<View>)
    ensures Then(Then(o, a), b) == Then(o, a + b)
  {
    if o.Some? {
      assert (o.value + a) + b == o.value + (a + b);
    }
  }

  lemma ThenNothing(o: Option<seq<View>>)
    ensures Then(o, []) == o
  {
    if o.Some? {
      assert o.value + [] == o.value;
    }
  }

  lemma NothingThen(vs: seq<View>)
    ensures Then(Some([]), vs) == Some(vs)
  {
    assert [] + vs == vs;
  }

  lemma NothingReversed()
    ensures Reversed([]) == []
  {
  }

  lemma ReversedAppend(vs: seq<View>, v: View)
    ensures Reversed(vs + [v]) == [v] + Reversed(vs)
  {
  }

  function Mark(store: Store, v: View): Store {
    if v < |store| && store[v].Some? then store[v := Some(Entry(store[v].value.block, true))] else store
  }

  /** The store after the given views were executed one after the other. */
  function MarkAll(store: Store, vs: seq<View>): Store {
    if vs == [] then store else Mark(MarkAll(store, vs[..|vs| - 1]), vs[|vs| - 1])
  }

  function BlockAt(store: Store, v: View): Block {
    if Lookup(store, v).Some? then Lookup(store, v).value.block else GENESIS
  }

  function BlocksAt(store: Store, vs: seq<View>): seq<Block> {
    seq(|vs|, i requires 0 <= i < |vs| => BlockAt(store, vs[i]))
  }

  /** The view to execute from when the block completes a chain of three whose first two are stored. */
  function ChainStart(store: Store, b: Block): Option<View> {
    if b.justification.Genesis? || Lookup(store, b.Accumulator().NamedView()).None? then None
    else
      var j := Lookup(store, b.Accumulator().NamedView()).value.block;
      if j.justification.Genesis? || Lookup(store, j.Accumulator().NamedView()).None? then None
      else
        var g := Lookup(store, j.Accumulator().NamedView()).value.block;
        if b.parent == ParentHash(j.Hash()) && j.parent == ParentHash(g.Hash()) then Some(g.view) else None
  }

  /** The store holds exactly this block at its view. */
  predicate Stored(store: Store, b: Block) {
    Lookup(store, b.view).Some? && Lookup(store, b.view).value.block == b
  }

  predicate ExecutionDue(store: Store, b: Block) {
    ChainStart(store, b).Some? && Backlog(store, ChainStart(store, b).value).Some?
  }

  /** The store once the execution a block calls for has happened. */
  function StoreAfter(store: Store, b: Block): Store {
    if ExecutionDue(store, b) then MarkAll(store, Backlog(store, ChainStart(store, b).value).value) else store
  }

  function DeliveredAfter(store: Store, b: Block, d: Delivery): Delivery {
    if ExecutionDue(store, b) then DeliverBlocks(d, BlocksAt(store, Backlog(store, ChainStart(store, b).value).value)) else d
  }

  /** Blocks stay where they are, and executed ones stay executed. */
  ghost predicate StoreGrows(store: Store, store': Store) {
    forall v: View :: Lookup(store, v).Some? ==>
      && Lookup(store', v).Some?
      && Lookup(store', v).value.block == Lookup(store, v).value.block
      && (Lookup(store, v).value.executed ==> Lookup(store', v).value.executed)
  }

  lemma StoreGrowsFurther(store: Store, store': Store, store'': Store)
    requires StoreGrows(store, store') && StoreGrows(store', store'')
    ensures StoreGrows(store, store'')
  {
  }

  lemma StoreGrowsAt(store: Store, store': Store, v: View)
    requires StoreGrows(store, store') && Lookup(store, v).Some?
    ensures Lookup(store', v).Some? && Lookup(store', v).value.block == Lookup(store, v).value.block
  {
  }

  lemma StoreGrowsNot(store: Store)
    ensures StoreGrows(store, store)
  {
  }

  lemma StoreAfterGrows(store: Store, b: Block)
    ensures StoreGrows(store, StoreAfter(store, b))
    ensures forall v: View :: Lookup(StoreAfter(store, b), v).Some? <==> Lookup(store, v).Some?
  {
    if ExecutionDue(store, b) {
      forall v: View
        ensures Lookup(StoreAfter(store, b), v).Some? <==> Lookup(store, v).Some?
        ensures Lookup(store, v).Some? ==>
                  && Lookup(StoreAfter(store, b), v).value.block == Lookup(store, v).value.block
                  && (Lookup(store, v).value.executed ==> Lookup(StoreAfter(store, b), v).value.executed)
      {
        MarkAllMeaning(store, Backlog(store, ChainStart(store, b).value).value, v);
      }
    }
  }

  lemma InsertedGrows(store: Store, b: Block)
    requires Lookup(store, b.view).None?
    ensures StoreGrows(store, Inserted(store, b))
  {
    forall v: View | Lookup(store, v).Some? ensures Lookup(Inserted(store, b), v) == Lookup(store, v) {
      InsertedMeaning(store, b, v);
    }
  }

  // ---------------------------------------------------------------------------------------------
  // The shape of a backlog

  /** View `u` is the justification of the block stored at view `v`. */
  ghost predicate JustifiedBy(store: Store, v: View, u: View) {
    Lookup(store, v).Some? && Lookup(store, v).value.block.justification.Quorum?
    && Lookup(store, v).value.block.Accumulator().NamedView() == u
  }

  /** View `u` holds a block other than genesis that was not executed yet. */
  ghost predicate Unexecuted(store: Store, u: View) {
    Lookup(store, u).Some? && !Lookup(store, u).value.executed && Lookup(store, u).value.block.justification.Quorum?
  }

  /** Nothing before the block of view `u` is left to execute. */
  ghost predicate Grounded(store: Store, u: View) {
    Lookup(store, u).Some? && (Lookup(store, u).value.executed || Lookup(store, u).value.block.justification.Genesis?)
  }

  /**
   * A backlog is a run of stored blocks that were not executed before, ascending along
   * justifications from a grounded block up to the block asked for.
   */
  lemma {:induction false} BacklogShape(store: Store, v: View)
    requires Backlog(store, v).Some?
    ensures var vs := Backlog(store, v).value;
            && (forall k :: 0 <= k < |vs| ==> vs[k] <= v && Unexecuted(store, vs[k]))
            && (forall k, l :: 0 <= k < l < |vs| ==> vs[k] < vs[l])
            && (forall k :: 0 < k < |vs| ==> JustifiedBy(store, vs[k], vs[k - 1]))
            && (vs == [] ==> Grounded(store, v))
            && (vs != [] ==> vs[|vs| - 1] == v && exists u :: JustifiedBy(store, vs[0], u) && Grounded(store, u))
    decreases v
  {
    var entry := Lookup(store, v).value;
    if !entry.executed && entry.block.justification.Quorum? {
      var j := entry.block.Accumulator().NamedView();
      BacklogShape(store, j);
      assert JustifiedBy(store, v, j);
    }
  }

  /** A way from view `v` along justifications of stored blocks down to a grounded block. */
  ghost predicate WayDown(store: Store, v: View, vs: seq<View>) {
    && vs != [] && vs[0] == v
    && (forall k :: 0 < k < |vs| ==> JustifiedBy(store, vs[k - 1], vs[k]))
    && Grounded(store, vs[|vs| - 1])
  }

  /** There is a backlog exactly when some way leads down to a grounded block. */
  lemma {:induction false} BacklogExactly(store: Store, v: View)
    requires Descending(store)
    ensures Backlog(store, v).Some? <==> exists vs :: WayDown(store, v, vs)
    decreases v
  {
    if Grounded(store, v) {
      assert WayDown(store, v, [v]);
    } else if Lookup(store, v).Some? {
      var j := Lookup(store, v).value.block.Accumulator().NamedView();
      BacklogExactly(store, j);
      if Backlog(store, j).Some? {
        var vs :| WayDown(store, j, vs);
        StepUp(store, v, j, vs);
      }
      if vs :| WayDown(store, v, vs) {
        StepDown(store, v, j, vs);
      }
    } else if vs :| WayDown(store, v, vs) {
      assert |vs| > 1 ==> JustifiedBy(store, vs[0], vs[1]);
    }
  }

  lemma StepUp(store: Store, v: View, j: View, vs: seq<View>)
    requires WayDown(store, j, vs) && JustifiedBy(store, v, j)
    ensures WayDown(store, v, [v] + vs)
  {
    var up := [v] + vs;
    forall k | 0 < k < |up| ensures JustifiedBy(store, up[k - 1], up[k]) {
      assert up[k] == vs[k - 1];
      if k > 1 {
        assert up[k - 1] == vs[k - 2];
      }
    }
  }

  lemma StepDown(store: Store, v: View, j: View, vs: seq<View>)
    requires WayDown(store, v, vs) && JustifiedBy(store, v, j) && !Grounded(store, v)
    ensures WayDown(store, j, vs[1..])
  {
    assert |vs| > 1 ==> JustifiedBy(store, vs[0], vs[1]);
  }

  /** Executing a backlog marks the block asked for and all blocks on the way down but genesis. */
  lemma {:induction false} WayIsExecuted(store: Store, v: View, vs: seq<View>)
    requires Descending(store) && WayDown(store, v, vs)
    ensures Backlog(store, v).Some?
    ensures var store' := MarkAll(store, Backlog(store, v).value);
            && Lookup(store', v).Some?
            && (Lookup(store', v).value.executed || Lookup(store', v).value.block.justification.Genesis?)
  {
    BacklogExactly(store, v);
    BacklogShape(store, v);
    MarkAllMeaning(store, Backlog(store, v).value, v);
  }

  lemma {:induction false} MarkAllMeaning(store: Store, vs: seq<View>, v: View)
    ensures |MarkAll(store, vs)| == |store|
    ensures Lookup(MarkAll(store, vs), v).Some? <==> Lookup(store, v).Some?
    ensures Lookup(store, v).Some? ==>
              Lookup(MarkAll(store, vs), v).value ==
              Entry(Lookup(store, v).value.block, Lookup(store, v).value.executed || v in vs)
    decreases |vs|
  {
    if vs != [] {
      MarkAllMeaning(store, vs[..|vs| - 1], v);
      MarkAllMeaning(store, vs[..|vs| - 1], vs[|vs| - 1]);
      assert vs == vs[..|vs| - 1] + [vs[|vs| - 1]];
    }
  }

  /** Executing one view more. */
  lemma ExecuteNext(store: Store, d: Delivery, vs: seq<View>, k: nat)
    requires k < |vs| && Lookup(store, vs[k]).Some?
    ensures Lookup(MarkAll(store, vs[..k]), vs[k]).Some?
    ensures MarkAll(store, vs[..k + 1]) == Mark(MarkAll(store, vs[..k]), vs[k])
    ensures DeliverBlocks(d, BlocksAt(store, vs[..k + 1]))
         == DeliverAll(DeliverBlocks(d, BlocksAt(store, vs[..k])), BlockAt(MarkAll(store, vs[..k]), vs[k]).transactions)
  {
    MarkAllMeaning(store, vs[..k], vs[k]);
    assert vs[..k + 1][..k] == vs[..k];
    var blocks := BlocksAt(store, vs[..k + 1]);
    assert blocks[..k] == BlocksAt(store, vs[..k]) && blocks[k] == BlockAt(store, vs[k]);
  }

  // ---------------------------------------------------------------------------------------------
  // A backlog is what the step system has the replica execute

  lemma StoreDescends(s: System, store: Store, view: View)
    requires Reachable(s) && StoreOk(s.ledger, store, view)
    ensures Descending(store)
  {
    forall v: View | Lookup(store, v).Some? && Lookup(store, v).value.block.justification.Quorum?
      ensures Lookup(store, v).value.block.Accumulator().NamedView() < v
    {
      KnownBlock(s, Lookup(store, v).value.block);
    }
  }

  /** The block stored at the view a justification names is the block it names. */
  lemma StoredJustifier(s: System, store: Store, view: View, b: Block)
    requires Reachable(s) && StoreOk(s.ledger, store, view) && b in s.ledger
    ensures Chained(s.ledger) && b.justification.Quorum?
    ensures var j := b.Accumulator().NamedView();
            Lookup(store, j).Some? ==>
              Names(s.ledger, b, Lookup(store, j).value.block) && Lookup(store, j).value.block == Justifier(s.ledger, b)
  {
    ReachableInv(s);
    LedgerIsChained(s);
    KnownBlock(s, b);
    var a := b.Accumulator();
    if Lookup(store, a.NamedView()).Some? {
      NamedBlock(s, Lookup(store, a.NamedView()).value.block, a.NamedHash());
    }
  }

  /** Both the backlog and what is pending of a block end with it and continue those of its justification. */
  lemma PendingStep(s: System, store: Store, view: View, executed: seq<Block>, b: Block) returns (j: Block)
    requires Reachable(s) && StoreOk(s.ledger, store, view) && b in s.ledger && b !in executed
    requires Lookup(store, b.view) == Some(Entry(b, false)) && Backlog(store, b.view).Some?
    ensures j.view < b.view && Lookup(store, j.view).Some? && Lookup(store, j.view).value.block == j
    ensures Backlog(store, j.view).Some? && Backlog(store, b.view).value == Backlog(store, j.view).value + [b.view]
    ensures Pending(s.ledger, executed, b) == Pending(s.ledger, executed, j) + [b]
  {
    hide Reachable, Chained;
    KnownBlock(s, b);
    StoredJustifier(s, store, view, b);
    j := Justifier(s.ledger, b);
  }

  lemma {:induction false} BacklogIsPending(s: System, store: Store, view: View, executed: seq<Block>, d: Delivery, b: Block)
    requires Reachable(s) && StoreOk(s.ledger, store, view) && Executions(executed, store, d)
    requires Lookup(store, b.view).Some? && Lookup(store, b.view).value.block == b
    requires Backlog(store, b.view).Some?
    ensures BlocksAt(store, Backlog(store, b.view).value) == Pending(s.ledger, executed, b)
    decreases b.view
  {
    hide Reachable;
    if b != GENESIS && b !in executed {
      hide Backlog, Pending;
      var j := PendingStep(s, store, view, executed, b);
      BacklogIsPending(s, store, view, executed, d, j);
      var vs := Backlog(store, j.view).value;
      assert BlocksAt(store, vs + [b.view]) == BlocksAt(store, vs) + [b];
    } else if b != GENESIS {
      assert Lookup(store, b.view).value.executed;
    }
  }

  /** Executing the backlog keeps the replica's record of executions in line with the system. */
  lemma BacklogExecuted(s: System, store: Store, view: View, executed: seq<Block>, d: Delivery, b: Block)
    requires Reachable(s) && StoreOk(s.ledger, store, view) && Executions(executed, store, d)
    requires Lookup(store, b.view).Some? && Lookup(store, b.view).value.block == b
    requires Backlog(store, b.view).Some?
    ensures var vs := Backlog(store, b.view).value;
            && StoreOk(s.ledger, MarkAll(store, vs), view)
            && Executions(executed + Pending(s.ledger, executed, b), MarkAll(store, vs), DeliverBlocks(d, BlocksAt(store, vs)))
  {
    var vs := Backlog(store, b.view).value;
    var store' := MarkAll(store, vs);
    var blocks := BlocksAt(store, vs);
    BacklogShape(store, b.view);
    BacklogIsPending(s, store, view, executed, d, b);
    DeliverBlocksAppend(NOTHING, executed, blocks);
    forall v: View
      ensures |store'| == |store|
      ensures Lookup(store', v).Some? <==> Lookup(store, v).Some?
      ensures Lookup(store, v).Some? ==>
                Lookup(store', v).value == Entry(Lookup(store, v).value.block, Lookup(store, v).value.executed || v in vs)
    {
      MarkAllMeaning(store, vs, v);
    }
    GenesisStaysUnmarked(s, store, view, executed, d, b);
    MarkedAreExecuted(s, store, view, executed, d, vs, store');
  }

  /** The justification of a stored block is stored as well and grounded. */
  ghost predicate JustifiedByGrounded(store: Store, v: View) {
    exists u: View :: JustifiedBy(store, v, u) && u < v && Grounded(store, u)
  }

  /** The executed blocks of a store are closed under justifications, down to genesis. */
  lemma ExecutionsAreClosed(s: System, me: ReplicaId, store: Store, view: View, d: Delivery, v: View)
    requires Reachable(s) && me < s.n == |s.executed| && StoreOk(s.ledger, store, view)
    requires Executions(s.executed[me], store, d)
    requires Lookup(store, v).Some? && Lookup(store, v).value.executed
    ensures JustifiedByGrounded(store, v)
  {
    hide Reachable, Names;
    var blocks, b := s.executed[me], Lookup(store, v).value.block;
    assert Consecutive(s.ledger, blocks) by {
      ReachableInv(s);
      CommittedOnOneChain(s);
      ExecutedIsConsecutive(s.ledger, blocks);
    }
    var k :| 0 <= k < |blocks| && blocks[k] == b;
    var j := Predecessor(blocks, k);
    assert k > 0 ==> j in blocks;
    assert Grounded(store, j.view);
    NamedByBlock(s.ledger, b, j);
    assert JustifiedBy(store, v, j.view);
  }

  lemma NamedByBlock(ledger: Ledger, b: Block, j: Block)
    requires Names(ledger, b, j)
    ensures b.justification.Quorum? && b.Accumulator().NamedView() == j.view
  {
  }

  lemma GenesisStaysUnmarked(s: System, store: Store, view: View, executed: seq<Block>, d: Delivery, b: Block)
    requires Reachable(s) && StoreOk(s.ledger, store, view) && Executions(executed, store, d)
    requires Backlog(store, b.view).Some?
    ensures 0 !in Backlog(store, b.view).value
  {
    BacklogShape(store, b.view);
    var vs := Backlog(store, b.view).value;
    forall k | 0 <= k < |vs| ensures vs[k] != 0 {
      assert Unexecuted(store, vs[k]);
    }
  }

  lemma MarkedAreExecuted(s: System, store: Store, view: View, executed: seq<Block>, d: Delivery, vs: seq<View>, store': Store)
    requires Reachable(s) && StoreOk(s.ledger, store, view) && Executions(executed, store, d)
    requires forall k :: 0 <= k < |vs| ==> Lookup(store, vs[k]).Some?
    requires forall v: View ::
               && (Lookup(store', v).Some? <==> Lookup(store, v).Some?)
               && (Lookup(store, v).Some? ==>
                     Lookup(store', v).value == Entry(Lookup(store, v).value.block, Lookup(store, v).value.executed || v in vs))
    ensures forall v: View :: Lookup(store', v).Some? ==>
              (Lookup(store', v).value.executed <==> Lookup(store', v).value.block in executed + BlocksAt(store, vs))
    ensures forall b :: b in executed + BlocksAt(store, vs) ==> Lookup(store', b.view) == Some(Entry(b, true))
  {
    var blocks := BlocksAt(store, vs);
    forall v: View | Lookup(store', v).Some?
      ensures Lookup(store', v).value.executed <==> Lookup(store', v).value.block in executed + blocks
    {
      if v in vs {
        var k :| 0 <= k < |vs| && vs[k] == v;
        assert blocks[k] == Lookup(store, v).value.block;
      } else {
        forall k | 0 <= k < |blocks| ensures blocks[k].view != v {
          assert blocks[k].view == vs[k];
        }
      }
    }
    forall b | b in executed + blocks ensures Lookup(store', b.view) == Some(Entry(b, true)) {
      if b in executed {
        assert Lookup(store, b.view) == Some(Entry(b, true));
      } else {
        var k :| 0 <= k < |blocks| && blocks[k] == b;
        assert b.view == vs[k];
      }
    }
  }
}
