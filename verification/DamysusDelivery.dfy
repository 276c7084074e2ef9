/**
 * Delivery of the transactions of executed blocks: a transaction is delivered unless its client
 * already had a request with the same or a higher id delivered.
 */
module DamysusDelivery {
  import opened Wrappers
  import opened DamysusTypes

  /** The last request id delivered per client, and everything delivered so far. */
  datatype Delivery = Delivery(table: map<ClientId, RequestId>, log: seq<Transaction>)

  const NOTHING: Delivery := Delivery(map[], [])

  function DeliverTransaction(d: Delivery, tx: Transaction): Delivery {
    if tx.client in d.table && d.table[tx.client] >= tx.request then d
    else Delivery(d.table[tx.client := tx.request], d.log + [tx])
  }

  function DeliverAll(d: Delivery, txs: seq<Transaction>): Delivery {
    if txs == [] then d
    else DeliverTransaction(DeliverAll(d, txs[..|txs| - 1]), txs[|txs| - 1])
  }

  function DeliverBlocks(d: Delivery, blocks: seq<Block>): Delivery {
    if blocks == [] then d
    else DeliverAll(DeliverBlocks(d, blocks[..|blocks| - 1]), blocks[|blocks| - 1].transactions)
  }

  lemma {:induction false} DeliverAllGrows(d: Delivery, txs: seq<Transaction>)
    ensures d.log <= DeliverAll(d, txs).log
    decreases |txs|
  {
    if txs != [] {
      DeliverAllGrows(d, txs[..|txs| - 1]);
    }
  }

  lemma {:induction false} DeliverBlocksAppend(d: Delivery, blocks: seq<Block>, more: seq<Block>)
    ensures DeliverBlocks(d, blocks + more) == DeliverBlocks(DeliverBlocks(d, blocks), more)
    decreases |more|
  {
    if more == [] {
      assert blocks + more == blocks;
    } else {
      var all := blocks + more;
      assert all[..|all| - 1] == blocks + more[..|more| - 1];
      DeliverBlocksAppend(d, blocks, more[..|more| - 1]);
    }
  }

  /** Executing more blocks only appends to what was delivered. */
  lemma {:induction false} DeliveryGrows(d: Delivery, blocks: seq<Block>, blocks': seq<Block>)
    requires blocks <= blocks'
    ensures DeliverBlocks(d, blocks).log <= DeliverBlocks(d, blocks').log
    decreases |blocks'|
  {
    if blocks != blocks' {
      var init := blocks'[..|blocks'| - 1];
      DeliveryGrows(d, blocks, init);
      DeliverAllGrows(DeliverBlocks(d, init), blocks'[|blocks'| - 1].transactions);
    }
  }

  // ---------------------------------------------------------------------------------------------
  // Exactly-once delivery

  /** The id delivered last for a client. */
  function LastDelivered(log: seq<Transaction>, client: ClientId): Option<RequestId> {
    if log == [] then None
    else if log[|log| - 1].client == client then Some(log[|log| - 1].request)
    else LastDelivered(log[..|log| - 1], client)
  }

  function LastRecorded(table: map<ClientId, RequestId>, client: ClientId): Option<RequestId> {
    if client in table then Some(table[client]) else None
  }

  /** Ids delivered for one client strictly increase, and the table holds the last of them. */
  ghost predicate ExactlyOnce(d: Delivery) {
    && (forall client :: LastRecorded(d.table, client) == LastDelivered(d.log, client))
    && (forall i :: 0 <= i < |d.log| ==> d.log[i].client in d.table && d.log[i].request <= d.table[d.log[i].client])
    && (forall i, j :: 0 <= i < j < |d.log| && d.log[i].client == d.log[j].client ==> d.log[i].request < d.log[j].request)
  }

  lemma TransactionDeliveredOnce(d: Delivery, tx: Transaction)
    requires ExactlyOnce(d)
    ensures ExactlyOnce(DeliverTransaction(d, tx))
  {
    var d' := DeliverTransaction(d, tx);
    if d' != d {
      assert d'.log[..|d'.log| - 1] == d.log;
    }
  }

  lemma {:induction false} AllDeliveredOnce(d: Delivery, txs: seq<Transaction>)
    requires ExactlyOnce(d)
    ensures ExactlyOnce(DeliverAll(d, txs))
    decreases |txs|
  {
    if txs != [] {
      AllDeliveredOnce(d, txs[..|txs| - 1]);
      TransactionDeliveredOnce(DeliverAll(d, txs[..|txs| - 1]), txs[|txs| - 1]);
    }
  }

  /** Whatever blocks are executed, every request is delivered at most once and in order. */
  lemma {:induction false} DeliveredExactlyOnce(blocks: seq<Block>)
    ensures ExactlyOnce(DeliverBlocks(NOTHING, blocks))
    decreases |blocks|
  {
    if blocks != [] {
      DeliveredExactlyOnce(blocks[..|blocks| - 1]);
      AllDeliveredOnce(DeliverBlocks(NOTHING, blocks[..|blocks| - 1]), blocks[|blocks| - 1].transactions);
    }
  }

  // ---------------------------------------------------------------------------------------------
  // What is left to propose

  /** The client has had no request with the same or a higher id delivered. */
  predicate Undelivered(table: map<ClientId, RequestId>, tx: Transaction) {
    tx.client in table ==> table[tx.client] < tx.request
  }

  /** Those of the transactions that are undelivered, in their order. */
  function Remaining(table: map<ClientId, RequestId>, txs: seq<Transaction>): seq<Transaction> {
    if txs == [] then []
    else Remaining(table, txs[..|txs| - 1]) + (if Undelivered(table, txs[|txs| - 1]) then [txs[|txs| - 1]] else [])
  }

  /** An undelivered transaction remains as often as it occurred, and no other one does. */
  lemma {:induction false} RemainingMeaning(table: map<ClientId, RequestId>, txs: seq<Transaction>, tx: Transaction)
    ensures multiset(Remaining(table, txs))[tx] == if Undelivered(table, tx) then multiset(txs)[tx] else 0
  {
    if txs != [] {
      var n := |txs| - 1;
      RemainingMeaning(table, txs[..n], tx);
      assert txs == txs[..n] + [txs[n]];
    }
  }

  /** What remains of two lists one after the other remains in that order. */
  lemma {:induction false} RemainingInOrder(table: map<ClientId, RequestId>, txs: seq<Transaction>, more: seq<Transaction>)
    ensures Remaining(table, txs + more) == Remaining(table, txs) + Remaining(table, more)
    decreases |more|
  {
    hide Undelivered;
    if more == [] {
      assert txs + more == txs;
    } else {
      var all, n := txs + more, |more| - 1;
      RemainingInOrder(table, txs, more[..n]);
      assert all[..|all| - 1] == txs + more[..n] && all[|all| - 1] == more[n];
    }
  }

  // ---------------------------------------------------------------------------------------------
  // Which transactions are delivered

  /** All transactions of the blocks, one after the other. */
  function Transactions(blocks: seq<Block>): seq<Transaction> {
    if blocks == [] then [] else Transactions(blocks[..|blocks| - 1]) + blocks[|blocks| - 1].transactions
  }

  /** The request at position `k` has a greater id than every earlier one of its client. */
  predicate NewAt(txs: seq<Transaction>, k: nat)
    requires k < |txs|
  {
    forall i :: 0 <= i < k && txs[i].client == txs[k].client ==> txs[i].request < txs[k].request
  }

  /** The requests that are new at their position, in order. */
  function NewOnes(txs: seq<Transaction>): seq<Transaction> {
    if txs == [] then []
    else NewOnes(txs[..|txs| - 1]) + (if NewAt(txs, |txs| - 1) then [txs[|txs| - 1]] else [])
  }

  ghost predicate AskedFor(txs: seq<Transaction>, client: ClientId, request: RequestId) {
    exists i :: 0 <= i < |txs| && txs[i].client == client && txs[i].request == request
  }

  /** The table holds the greatest id of each client that occurs. */
  ghost predicate TableOf(table: map<ClientId, RequestId>, txs: seq<Transaction>) {
    && (forall i :: 0 <= i < |txs| ==> txs[i].client in table && txs[i].request <= table[txs[i].client])
    && (forall client :: client in table ==> AskedFor(txs, client, table[client]))
  }

  /** What was delivered are the new ones of the given transactions. */
  ghost predicate DeliveryOf(d: Delivery, txs: seq<Transaction>) {
    d.log == NewOnes(txs) && TableOf(d.table, txs)
  }

  lemma {:induction false} DeliversNewOnes(d: Delivery, before: seq<Transaction>, txs: seq<Transaction>)
    requires DeliveryOf(d, before)
    ensures DeliveryOf(DeliverAll(d, txs), before + txs)
    decreases |txs|
  {
    hide DeliveryOf, DeliverTransaction;
    if txs == [] {
      assert before + txs == before;
    } else {
      var init, last := txs[..|txs| - 1], txs[|txs| - 1];
      DeliversNewOnes(d, before, init);
      DeliversNewOne(DeliverAll(d, init), before + init, last);
      OneMoreTransaction(before, txs);
    }
  }

  lemma OneMoreTransaction(before: seq<Transaction>, txs: seq<Transaction>)
    requires txs != []
    ensures before + txs == before + txs[..|txs| - 1] + [txs[|txs| - 1]]
  {
  }

  lemma DeliversNewOne(d: Delivery, before: seq<Transaction>, tx: Transaction)
    requires DeliveryOf(d, before)
    ensures DeliveryOf(DeliverTransaction(d, tx), before + [tx])
  {
    var txs := before + [tx];
    assert txs[..|before|] == before && txs[|before|] == tx;
    assert NewAt(txs, |before|) <==> Undelivered(d.table, tx) by {
      NewIsUndelivered(d.table, before, tx);
    }
    TableStays(d.table, before, tx);
    hide TableOf, NewAt;
  }

  lemma NewIsUndelivered(table: map<ClientId, RequestId>, before: seq<Transaction>, tx: Transaction)
    requires TableOf(table, before)
    ensures NewAt(before + [tx], |before|) <==> Undelivered(table, tx)
  {
    var txs := before + [tx];
    if tx.client in table {
      assert AskedFor(before, tx.client, table[tx.client]);
      var i :| 0 <= i < |before| && before[i].client == tx.client && before[i].request == table[tx.client];
      assert txs[i] == before[i];
    }
    if Undelivered(table, tx) {
      forall i | 0 <= i < |before| && txs[i].client == tx.client ensures txs[i].request < tx.request {
        assert txs[i] == before[i];
      }
    }
  }

  lemma TableStays(table: map<ClientId, RequestId>, before: seq<Transaction>, tx: Transaction)
    requires TableOf(table, before)
    ensures TableOf(if Undelivered(table, tx) then table[tx.client := tx.request] else table, before + [tx])
  {
    var txs := before + [tx];
    var table' := if Undelivered(table, tx) then table[tx.client := tx.request] else table;
    forall client | client in table' ensures AskedFor(txs, client, table'[client]) {
      if client == tx.client && Undelivered(table, tx) {
        assert txs[|before|] == tx;
      } else {
        assert AskedFor(before, client, table[client]);
        var i :| 0 <= i < |before| && before[i].client == client && before[i].request == table[client];
        assert txs[i] == before[i];
      }
    }
  }

  /**
   * Whatever blocks are executed, what is delivered are exactly the requests that have a greater id
   * than every earlier one of the same client, in the order of the blocks.
   */
  lemma {:induction false} DeliversExactlyTheNew(blocks: seq<Block>)
    ensures DeliverBlocks(NOTHING, blocks).log == NewOnes(Transactions(blocks))
    ensures TableOf(DeliverBlocks(NOTHING, blocks).table, Transactions(blocks))
    decreases |blocks|
  {
    if blocks != [] {
      var n := |blocks| - 1;
      DeliversExactlyTheNew(blocks[..n]);
      DeliversNewOnes(DeliverBlocks(NOTHING, blocks[..n]), Transactions(blocks[..n]), blocks[n].transactions);
    }
  }

  lemma NewAtPrefix(txs: seq<Transaction>, n: nat, k: nat)
    requires k < n <= |txs|
    ensures NewAt(txs[..n], k) <==> NewAt(txs, k)
  {
    if NewAt(txs[..n], k) {
      forall i | 0 <= i < k && txs[i].client == txs[k].client ensures txs[i].request < txs[k].request {
        assert txs[..n][i] == txs[i];
      }
    }
  }

  /** The request is new at some position. */
  ghost predicate NewIn(txs: seq<Transaction>, tx: Transaction) {
    exists k: nat :: k < |txs| && txs[k] == tx && NewAt(txs, k)
  }

  /** A request is among the new ones exactly when it is new at some position. */
  lemma {:induction false} NewOnesMeaning(txs: seq<Transaction>, tx: Transaction)
    ensures tx in NewOnes(txs) <==> NewIn(txs, tx)
  {
    if txs != [] {
      hide NewAt;
      var n := |txs| - 1;
      NewOnesMeaning(txs[..n], tx);
      if NewIn(txs[..n], tx) {
        var k: nat :| k < n && txs[..n][k] == tx && NewAt(txs[..n], k);
        NewAtPrefix(txs, n, k);
        assert txs[k] == tx;
      }
      if NewIn(txs, tx) {
        var k: nat :| k < |txs| && txs[k] == tx && NewAt(txs, k);
        if k < n {
          NewAtPrefix(txs, n, k);
          assert txs[..n][k] == tx;
        }
      }
    }
  }
}
