/**
 * Chains of blocks along justifications.
 */
module DamysusChain {
  import opened DamysusTypes
  import opened DamysusSystem

  /** Every block but genesis is justified by exactly one earlier block. */
  ghost predicate Chained(ledger: Ledger) {
    && (forall b, j, k :: Names(ledger, b, j) && Names(ledger, b, k) ==> j == k)
    && (forall b :: b in ledger ==> b != GENESIS && Names(ledger, b, Justifier(ledger, b)) && Justifier(ledger, b).view < b.view)
  }

  /** All blocks from the first one after genesis to `b`. */
  ghost function Chain(ledger: Ledger, b: Block): seq<Block> {
    Pending(ledger, [], b)
  }

  /** Block `g` is `j` or one of the blocks before it. */
  ghost predicate Extends(ledger: Ledger, j: Block, g: Block)
    decreases j.view
  {
    j == g || (Justifier(ledger, j).view < j.view && Extends(ledger, Justifier(ledger, j), g))
  }

  lemma JustifierIs(ledger: Ledger, b: Block, j: Block)
    requires Chained(ledger) && Names(ledger, b, j)
    ensures Justifier(ledger, b) == j
  {
  }

  lemma ThreeChainIs(ledger: Ledger, b: Block, j: Block, g: Block)
    requires Chained(ledger) && ThreeChain(ledger, b, j, g)
    ensures Executable(ledger, b) && Grandparent(ledger, b) == g
  {
    var h := Grandparent(ledger, b);
    var k :| ThreeChain(ledger, b, k, h);
    assert k == j;
  }

  lemma ExtendsThrough(ledger: Ledger, j: Block, k: Block, g: Block)
    requires Chained(ledger) && Names(ledger, j, k) && k.view < j.view && Extends(ledger, k, g)
    ensures Extends(ledger, j, g)
  {
    JustifierIs(ledger, j, k);
  }

  lemma {:induction false} ExtendsNotLater(ledger: Ledger, h: Block, g: Block)
    requires Extends(ledger, h, g)
    ensures g.view <= h.view && (g != h ==> g.view < h.view)
    decreases h.view
  {
    if h != g {
      ExtendsNotLater(ledger, Justifier(ledger, h), g);
    }
  }

  lemma {:induction false} ExtendsIsPrefix(ledger: Ledger, h: Block, g: Block)
    requires Chained(ledger) && Known(ledger, h) && Known(ledger, g) && Extends(ledger, h, g)
    ensures Chain(ledger, g) <= Chain(ledger, h)
    decreases h.view
  {
    if h != g {
      assert h != GENESIS;
      ExtendsIsPrefix(ledger, Justifier(ledger, h), g);
    }
  }

  lemma {:induction false} ChainMembers(ledger: Ledger, b: Block)
    requires Chained(ledger) && Known(ledger, b)
    ensures forall x :: x in Chain(ledger, b) ==> x in ledger && x.view <= b.view
    ensures b != GENESIS ==> Chain(ledger, b) != [] && Chain(ledger, b)[|Chain(ledger, b)| - 1] == b
    decreases b.view
  {
    if b != GENESIS {
      ChainMembers(ledger, Justifier(ledger, b));
    }
  }

  ghost function Predecessor(blocks: seq<Block>, k: nat): Block
    requires k < |blocks|
  {
    if k == 0 then GENESIS else blocks[k - 1]
  }

  /** Each block is justified by the one before it, and the first by genesis. Views increase. */
  ghost predicate Consecutive(ledger: Ledger, blocks: seq<Block>) {
    && (forall k :: 0 <= k < |blocks| ==> Names(ledger, blocks[k], Predecessor(blocks, k)))
    && (forall k :: 0 <= k < |blocks| ==> Predecessor(blocks, k).view < blocks[k].view)
  }

  lemma ConsecutiveAppend(ledger: Ledger, blocks: seq<Block>, b: Block)
    requires Consecutive(ledger, blocks)
    requires var j := if blocks == [] then GENESIS else blocks[|blocks| - 1]; Names(ledger, b, j) && j.view < b.view
    ensures Consecutive(ledger, blocks + [b])
  {
    hide Names;
    var all := blocks + [b];
    forall k | 0 <= k < |all|
      ensures Names(ledger, all[k], Predecessor(all, k)) && Predecessor(all, k).view < all[k].view
    {
      assert k < |blocks| ==> Predecessor(all, k) == Predecessor(blocks, k);
    }
  }

  lemma {:induction false} ChainIsConsecutive(ledger: Ledger, b: Block)
    requires Chained(ledger) && Known(ledger, b)
    ensures Consecutive(ledger, Chain(ledger, b))
    decreases b.view
  {
    if b != GENESIS {
      var j := Justifier(ledger, b);
      ChainIsConsecutive(ledger, j);
      ChainMembers(ledger, j);
      ConsecutiveAppend(ledger, Chain(ledger, j), b);
    }
  }

  /** Executing `h` on top of the chain of `g` continues that chain. */
  lemma {:induction false} PendingContinues(ledger: Ledger, g: Block, h: Block)
    requires Chained(ledger) && Known(ledger, h) && Known(ledger, g) && Extends(ledger, h, g)
    ensures Chain(ledger, g) + Pending(ledger, Chain(ledger, g), h) == Chain(ledger, h)
    decreases h.view
  {
    var done := Chain(ledger, g);
    ChainMembers(ledger, g);
    if h != g {
      var k := Justifier(ledger, h);
      ExtendsNotLater(ledger, h, g);
      PendingContinues(ledger, g, k);
      assert done + (Pending(ledger, done, k) + [h]) == (done + Pending(ledger, done, k)) + [h];
    } else {
      assert Pending(ledger, done, h) == [];
    }
  }

  lemma PendingOfAncestor(ledger: Ledger, h: Block, g: Block)
    requires Chained(ledger) && Known(ledger, h) && Known(ledger, g) && Extends(ledger, h, g)
    ensures Pending(ledger, Chain(ledger, h), g) == []
  {
    ExtendsIsPrefix(ledger, h, g);
    ChainMembers(ledger, g);
    if g != GENESIS {
      var c := Chain(ledger, g);
      assert c[|c| - 1] == Chain(ledger, h)[|c| - 1];
    }
  }

  lemma {:induction false} ChainStays(ledger: Ledger, ledger': Ledger, b: Block)
    requires Chained(ledger) && Chained(ledger') && Known(ledger, b)
    requires forall x :: x in ledger ==> x in ledger'
    ensures Chain(ledger', b) == Chain(ledger, b)
    decreases b.view
  {
    if b != GENESIS {
      var j := Justifier(ledger, b);
      ChainStays(ledger, ledger', j);
      assert Names(ledger', b, j);
      JustifierIs(ledger', b, j);
    }
  }
}
