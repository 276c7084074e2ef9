/**
 * The block store of a replica: a vector with one optional block per view. Each block carries a
 * flag that tells whether the replica executed it.
 */
module DamysusBlockstore {
  import opened Wrappers
  import opened DamysusTypes

  datatype Entry = Entry(block: Block, executed: bool)

  type Store = seq<Option<Entry>>

  function Lookup(store: Store, view: View): Option<Entry> {
    if view < |store| then store[view] else None
  }

  /** The store with a block put at the index of its view, padded as far as needed. */
  function Inserted(store: Store, block: Block): Store {
    var entry := Some(Entry(block, false));
    if block.view < |store| then store[block.view := entry]
    else store + seq(block.view - |store|, i => None) + [entry]
  }

  lemma InsertedMeaning(store: Store, block: Block, v: View)
    ensures |Inserted(store, block)| == if block.view < |store| then |store| else block.view + 1
    ensures Lookup(Inserted(store, block), v) == if v == block.view then Some(Entry(block, false)) else Lookup(store, v)
  {
  }

  class Blockstore {
    var blocks: Store

    /** The vector always holds the genesis block, so it is never empty. */
    ghost predicate Valid()
      reads this
    {
      |blocks| > 0
    }

    constructor ()
      ensures Valid() && blocks == [Some(Entry(GENESIS, false))]
    {
      blocks := [Some(Entry(GENESIS, false))];
    }

    /** The program asserts that the view is free. */
    method Insert(block: Block)
      requires Valid() && Lookup(blocks, block.view).None?
      modifies this
      ensures Valid() && blocks == Inserted(old(blocks), block)
    {
      var view := block.view;
      ghost var before := blocks;
      if view > |blocks| {
        var missing := view - |blocks|;
        for k := 0 to missing
          invariant blocks == before + seq(k, i => None)
        {
          blocks := blocks + [None];
        }
      }
      if view == |blocks| {
        blocks := blocks + [Some(Entry(block, false))];
      } else {
        assert blocks[view].None?;
        blocks := blocks[view := Some(Entry(block, false))];
      }
    }

    method Get(view: View) returns (r: Option<Block>)
      requires Valid()
      ensures r.Some? <==> Lookup(blocks, view).Some?
      ensures r.Some? ==> r.value == Lookup(blocks, view).value.block
    {
      if view > |blocks| - 1 {
        return None;
      }
      match blocks[view] {
        case None => return None;
        case Some(entry) => return Some(entry.block);
      }
    }

    method IsExecuted(view: View) returns (r: bool)
      requires Valid() && Lookup(blocks, view).Some?
      ensures r == Lookup(blocks, view).value.executed
    {
      r := blocks[view].value.executed;
    }

    method Execute(view: View)
      requires Valid() && Lookup(blocks, view).Some?
      modifies this
      ensures blocks == old(blocks)[view := Some(Entry(old(blocks)[view].value.block, true))]
      ensures Valid()
    {
      blocks := blocks[view := Some(Entry(blocks[view].value.block, true))];
    }
  }
}
