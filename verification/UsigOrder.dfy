/**
 * Turns USIG messages of one signer, which arrive in any order and any number of times, into the
 * order of their counters without gaps. Iterators of the program are modelled as fully drained.
 */
module UsigOrder {
  import opened HeapBuffers
  import Usig

  type Count = nat
  type View = nat

  datatype Message =
    | NewView(count: Count, nextView: View, payload: seq<bv8>)
    | ViewChange(count: Count, nextView: View, payload: seq<bv8>)
    | Ordinary(count: Count, payload: seq<bv8>)

  datatype Verdict = Expected | AlreadySeen | NotNext

  class CountChecker {
    var nextCount: Count

    constructor ()
      ensures nextCount == 0
    {
      nextCount := 0;
    }

    method Next(count: Count) returns (r: Verdict)
      modifies this
      ensures r == if count < old(nextCount) then AlreadySeen else if count == old(nextCount) then Expected else NotNext
      ensures nextCount == if r.Expected? then old(nextCount) + 1 else old(nextCount)
    {
      if count < nextCount {
        return AlreadySeen;
      } else if count == nextCount {
        nextCount := nextCount + 1;
        return Expected;
      }
      return NotNext;
    }
  }

  // ---------------------------------------------------------------------------------------------
  // What the state of an enforcer means

  /** The state together with everything received and everything yielded so far. */
  datatype Order = Order(next: Count, buffer: seq<Message>, received: set<Message>, yielded: seq<Message>)

  /** The heap in the order in which it is popped. */
  ghost predicate ByCounter(buffer: seq<Message>) {
    forall i, j :: 0 <= i < j < |buffer| ==> buffer[i].count <= buffer[j].count
  }

  /** Only received messages are buffered and yielded, the latter with strictly increasing counters. */
  ghost predicate Sound(o: Order) {
    && ByCounter(o.buffer)
    && (forall m :: m in o.buffer ==> m in o.received)
    && (forall m :: m in o.yielded ==> m in o.received && m.count < o.next)
    && (forall i, j :: 0 <= i < j < |o.yielded| ==> o.yielded[i].count < o.yielded[j].count)
  }

  /** No message that is still to come was lost. */
  ghost predicate Lossless(o: Order) {
    forall m :: m in o.received && m.count >= o.next ==> m in o.buffer
  }

  /** The messages yielded have the counters 0, 1, 2 and so on. */
  ghost predicate Gapless(o: Order) {
    |o.yielded| == o.next && forall k :: 0 <= k < |o.yielded| ==> o.yielded[k].count == k
  }

  /** No buffered message could be yielded. */
  ghost predicate Drained(o: Order) {
    forall m :: m in o.buffer ==> m.count > o.next
  }

  ghost predicate InOrder(o: Order) {
    Sound(o) && Lossless(o) && Gapless(o) && Drained(o)
  }

  /** A message with the given counter arrived. */
  ghost predicate Arrived(received: set<Message>, c: Count) {
    exists m :: m in received && m.count == c
  }

  /** The counter expected next is the least one that was not received. */
  lemma NextIsLeastMissing(o: Order)
    requires InOrder(o)
    ensures !Arrived(o.received, o.next)
    ensures forall c: Count :: c < o.next ==> Arrived(o.received, c)
  {
    forall c: Count | c < o.next ensures Arrived(o.received, c) {
      assert o.yielded[c] in o.yielded;
    }
  }

  /** Whatever the order and number of arrivals, what was received decides what was yielded. */
  lemma ArrivalOrderIsIrrelevant(o: Order, o': Order)
    requires InOrder(o) && InOrder(o') && o.received == o'.received
    requires forall m, l :: m in o.received && l in o.received && m.count == l.count ==> m == l
    ensures o.next == o'.next && o.yielded == o'.yielded
  {
    NextIsLeastMissing(o);
    NextIsLeastMissing(o');
    assert o.next == o'.next;
    forall k | 0 <= k < o.next ensures o.yielded[k] == o'.yielded[k] {
      assert o.yielded[k] in o.yielded && o'.yielded[k] in o'.yielded;
    }
  }

  /**
   * End to end: when everything received stems from one signer, whose k-th message carries counter
   * k, the messages yielded are a prefix of what was signed, in the order of signing. The prefix
   * ends at the first message that did not arrive.
   */
  lemma YieldsPrefixOfSigned(o: Order, signed: seq<Message>)
    requires InOrder(o)
    requires forall k :: 0 <= k < |signed| ==> signed[k].count == k
    requires forall m :: m in o.received ==> m in signed
    ensures o.yielded <= signed
    ensures o.next < |signed| ==> signed[o.next] !in o.received
  {
    forall k | 0 <= k < |o.yielded| ensures k < |signed| && o.yielded[k] == signed[k] {
      assert o.yielded[k] in o.yielded;
      var l :| 0 <= l < |signed| && signed[l] == o.yielded[k];
    }
    assert o.yielded != [] ==> o.yielded[|o.yielded| - 1].count < |signed|;
    assert o.yielded == signed[..|o.yielded|];
    NextIsLeastMissing(o);
  }

  /** A message passes verification with one of the signatures that were issued. */
  ghost predicate Authentic(encode: Message -> Usig.Bytes, keys: map<Usig.ReplicaId, Usig.Key>, id: Usig.ReplicaId,
                            signatures: seq<Usig.Signature>, m: Message)
  {
    exists k :: 0 <= k < |signatures| &&
      Usig.Verified(keys, id, encode(m), Usig.Signature(m.count, signatures[k].signature)).Success?
  }

  /** The bytes signed for each message. */
  function Encoded(encode: Message -> Usig.Bytes, signed: seq<Message>): seq<Usig.Bytes> {
    seq(|signed|, k requires 0 <= k < |signed| => encode(signed[k]))
  }

  /**
   * The same with verification in between: a receiver that only takes in messages verified with
   * signatures of the signer yields a prefix of what was signed.
   */
  lemma VerifiedStreamIsPrefix(o: Order, encode: Message -> Usig.Bytes, keys: map<Usig.ReplicaId, Usig.Key>,
                               id: Usig.ReplicaId, key: Usig.Key, signed: seq<Message>, signatures: seq<Usig.Signature>)
    requires InOrder(o) && id in keys && |signed| <= Usig.U64_LIMIT
    requires forall k :: 0 <= k < |signed| ==> signed[k].count == k
    requires forall m, l :: encode(m) == encode(l) && m.count == l.count ==> m == l
    requires Usig.Stamped(key, |signed|, Encoded(encode, signed), signatures)
    requires forall m :: m in o.received ==> m.count < Usig.U64_LIMIT && Authentic(encode, keys, id, signatures, m)
    ensures o.yielded <= signed
  {
    forall m | m in o.received ensures m in signed {
      var k :| 0 <= k < |signatures| &&
               Usig.Verified(keys, id, encode(m), Usig.Signature(m.count, signatures[k].signature)).Success?;
      Usig.VerifiesOnlyWhatWasSigned(keys, id, key, |signed|, Encoded(encode, signed), signatures, k, m.count, encode(m));
      assert signed[k] == m;
    }
    YieldsPrefixOfSigned(o, signed);
  }

  // ---------------------------------------------------------------------------------------------
  // Changes of the state

  lemma ReceiveKeeps(o: Order, m: Message)
    ensures var o' := o.(received := o.received + {m});
            && (Sound(o) ==> Sound(o')) && (Gapless(o) ==> Gapless(o')) && (Drained(o) ==> Drained(o'))
            && (Lossless(o) && m.count < o.next ==> Lossless(o'))
            && (Lossless(o) && m.count == o.next ==> Lossless(o'.(next := o.next + 1, yielded := o.yielded + [m])))
  {
  }

  /** Yields a received message with the expected counter. */
  lemma YieldKeeps(o: Order, m: Message)
    requires Sound(o) && m in o.received && m.count == o.next
    ensures var o' := o.(next := o.next + 1, yielded := o.yielded + [m]);
            Sound(o') && (Lossless(o) ==> Lossless(o')) && (Gapless(o) ==> Gapless(o'))
  {
    var o' := o.(next := o.next + 1, yielded := o.yielded + [m]);
    forall i, j | 0 <= i < j < |o'.yielded| ensures o'.yielded[i].count < o'.yielded[j].count {
      assert o'.yielded[i] in o.yielded;
    }
  }

  /** Drops a buffered message that was yielded before. */
  lemma DropKeeps(o: Order)
    requires Sound(o) && o.buffer != [] && o.buffer[0].count < o.next
    ensures var o' := o.(buffer := o.buffer[1..]);
            Sound(o') && (Lossless(o) ==> Lossless(o')) && (Gapless(o) ==> Gapless(o'))
  {
    var o' := o.(buffer := o.buffer[1..]);
    assert forall m :: m in o'.buffer ==> m in o.buffer;
    assert forall m :: m in o.buffer ==> m in o'.buffer || m == o.buffer[0];
  }

  lemma StoreKeeps(o: Order, m: Message, buffer: seq<Message>)
    requires ByCounter(buffer) && multiset(buffer) == multiset(o.buffer) + multiset{m}
    ensures var o' := o.(received := o.received + {m}, buffer := buffer);
            && (Sound(o) ==> Sound(o')) && (Gapless(o) ==> Gapless(o')) && (Lossless(o) ==> Lossless(o'))
            && (Drained(o) && m.count > o.next ==> Drained(o'))
  {
    forall l ensures l in buffer <==> l in o.buffer || l == m {
      assert l in buffer <==> l in multiset(buffer);
    }
  }

  lemma PlacedByCounter(s: seq<Message>, m: Message, i: nat)
    requires ByCounter(s) && i <= |s|
    requires (i > 0 ==> s[i - 1].count <= m.count) && (i < |s| ==> m.count <= s[i].count)
    ensures ByCounter(Placed(s, m, i))
  {
  }

  lemma SoundBuffer(o: Order)
    requires Sound(o)
    ensures ByCounter(o.buffer) && (o.buffer != [] ==> o.buffer[0] in o.received)
  {
    if o.buffer != [] {
      assert o.buffer[0] in o.buffer;
    }
  }

  lemma DrainedByHead(o: Order)
    requires ByCounter(o.buffer) && (o.buffer == [] || o.buffer[0].count > o.next)
    ensures Drained(o)
  {
  }

  /** Messages with the counters from `start` on up to `next`, without gaps. */
  ghost predicate Numbered(out: seq<Message>, start: Count, next: Count) {
    next == start + |out| && forall k :: 0 <= k < |out| ==> out[k].count == start + k
  }

  /** Buffered messages are yielded, still buffered or not needed any more. */
  ghost predicate Accounted(buffer: seq<Message>, out: seq<Message>, o: Order) {
    && (forall m :: m in out ==> m in buffer)
    && (forall m :: m in buffer ==> m in o.buffer || m.count < o.next)
    && (forall m :: m in o.buffer ==> m in buffer)
  }

  ghost predicate Buffers(buffer: seq<Message>, c: Count) {
    exists m :: m in buffer && m.count == c
  }

  lemma DropAccounted(buffer: seq<Message>, out: seq<Message>, o: Order)
    requires Accounted(buffer, out, o) && o.buffer != [] && o.buffer[0].count < o.next
    ensures Accounted(buffer, out, o.(buffer := o.buffer[1..]))
  {
    assert forall m :: m in o.buffer ==> m == o.buffer[0] || m in o.buffer[1..];
    assert forall m :: m in o.buffer[1..] ==> m in o.buffer;
  }

  lemma YieldAccounted(buffer: seq<Message>, out: seq<Message>, o: Order)
    requires Accounted(buffer, out, o) && o.buffer != [] && o.buffer[0].count == o.next
    ensures Accounted(buffer, out + [o.buffer[0]], o.(next := o.next + 1, yielded := o.yielded + [o.buffer[0]]))
  {
    assert o.buffer[0] in o.buffer;
  }

  lemma AccountedFurther(buffer: seq<Message>, o: Order, out: seq<Message>, o': Order)
    requires Accounted(buffer, [], o) && Accounted(o.buffer, out, o') && o.next <= o'.next
    ensures Accounted(buffer, out, o')
  {
  }

  lemma NothingYielded(o: Order)
    ensures Accounted(o.buffer, [], o)
  {
  }

  /** The counter expected next is the least one from `start` on that was not buffered. */
  lemma {:induction false} NextIsLeastUnbuffered(buffer: seq<Message>, start: Count, out: seq<Message>, o: Order)
    requires Numbered(out, start, o.next) && Accounted(buffer, out, o) && Drained(o)
    ensures forall m :: m in buffer ==> m.count != o.next
    ensures forall c: Count :: start <= c < o.next ==> Buffers(buffer, c)
  {
    forall c: Count | start <= c < o.next ensures Buffers(buffer, c) {
      assert out[c - start] in out;
    }
  }

  /** View messages are also kept by the view they lead to. */
  function Remembered(pending: map<View, seq<Message>>, m: Message): map<View, seq<Message>> {
    if m.Ordinary? then pending
    else pending[m.nextView := (if m.nextView in pending then pending[m.nextView] else []) + [m]]
  }

  /** View messages are filed under the view they lead to, and nothing else is. */
  ghost predicate Filed(pending: map<View, seq<Message>>) {
    forall v, m :: v in pending && m in pending[v] ==> !m.Ordinary? && m.nextView == v
  }

  /** How often a message is filed. */
  ghost function Times(pending: map<View, seq<Message>>, m: Message): nat {
    if m.Ordinary? || m.nextView !in pending then 0 else multiset(pending[m.nextView])[m]
  }

  lemma FiledElsewhere(pending: map<View, seq<Message>>, v: View, m: Message)
    requires Filed(pending) && v in pending
    ensures multiset(pending[v])[m] == if !m.Ordinary? && m.nextView == v then Times(pending, m) else 0
  {
    if multiset(pending[v])[m] > 0 {
      assert m in pending[v];
    }
  }

  /** Every arrival of a view message files it once more, and nothing else changes. */
  lemma RememberedOnce(pending: map<View, seq<Message>>, m: Message, x: Message)
    requires Filed(pending)
    ensures Filed(Remembered(pending, m))
    ensures Times(Remembered(pending, m), x) == Times(pending, x) + if x == m && !m.Ordinary? then 1 else 0
  {
  }

  // ---------------------------------------------------------------------------------------------
  // The enforcer as the program keeps it

  class UsigMsgOrderEnforcer {
    const countChecker: CountChecker
    var unprocessed: seq<Message>
    var pendingNewViews: map<View, seq<Message>>

    ghost var received: set<Message>
    ghost var yielded: seq<Message>

    ghost function State(): Order
      reads this, countChecker
    {
      Order(countChecker.nextCount, unprocessed, received, yielded)
    }

    constructor ()
      ensures InOrder(State()) && received == {} && yielded == [] && pendingNewViews == map[]
      ensures fresh(countChecker)
    {
      countChecker := new CountChecker();
      unprocessed := [];
      pendingNewViews := map[];
      received := {};
      yielded := [];
    }

    /** Yields buffered messages as long as the expected counter is among them. */
    method YieldToBeProcessed() returns (out: seq<Message>)
      requires Sound(State())
      modifies this`unprocessed, this`yielded, countChecker
      ensures Sound(State()) && Drained(State()) && yielded == old(yielded) + out
      ensures (old(Lossless(State())) ==> Lossless(State())) && (old(Gapless(State())) ==> Gapless(State()))
      ensures Numbered(out, old(countChecker.nextCount), countChecker.nextCount)
      ensures Accounted(old(unprocessed), out, State())
    {
      hide Sound, Lossless, Gapless, Drained, ByCounter, Accounted;
      out := [];
      assert Accounted(unprocessed, out, State()) by {
        hide *;
        NothingYielded(State());
      }
      while unprocessed != []
        modifies this`unprocessed, this`yielded, countChecker
        invariant Sound(State()) && yielded == old(yielded) + out
        invariant (old(Lossless(State())) ==> Lossless(State())) && (old(Gapless(State())) ==> Gapless(State()))
        invariant Numbered(out, old(countChecker.nextCount), countChecker.nextCount)
        invariant Accounted(old(unprocessed), out, State())
        decreases |unprocessed|
      {
        ghost var o := State();
        SoundBuffer(o);
        var head := unprocessed[0];
        var verdict := countChecker.Next(head.count);
        if verdict.NotNext? {
          DrainedByHead(o);
          return;
        }
        if verdict.Expected? {
          YieldKeeps(o, head);
          YieldAccounted(old(unprocessed), out, o);
          out := out + [head];
          yielded := yielded + [head];
        }
        DropKeeps(State());
        DropAccounted(old(unprocessed), out, State());
        unprocessed := unprocessed[1..];
      }
      SoundBuffer(State());
      DrainedByHead(State());
    }

    /** Keeps a message until the ones before it have arrived. */
    method Store(m: Message)
      requires ByCounter(unprocessed)
      modifies this`unprocessed
      ensures ByCounter(unprocessed) && multiset(unprocessed) == multiset(old(unprocessed)) + multiset{m}
    {
      hide ByCounter;
      var i := 0;
      while i < |unprocessed| && unprocessed[i].count < m.count
        invariant 0 <= i <= |unprocessed|
        invariant i > 0 ==> unprocessed[i - 1].count <= m.count
      {
        i := i + 1;
      }
      PlacedByCounter(unprocessed, m, i);
      PlacedElements(unprocessed, m, i);
      unprocessed := Placed(unprocessed, m, i);
    }

    method RememberViewMessage(m: Message)
      modifies this`pendingNewViews
      ensures pendingNewViews == Remembered(old(pendingNewViews), m)
    {
      if !m.Ordinary? {
        var others := if m.nextView in pendingNewViews then pendingNewViews[m.nextView] else [];
        pendingNewViews := pendingNewViews[m.nextView := others + [m]];
      }
    }

    /**
     * Takes in a message. The expected one is yielded with all messages that follow it directly,
     * one seen before is ignored and an early one is kept.
     */
    method PushToHandle(m: Message) returns (out: seq<Message>)
      requires Sound(State())
      modifies this, countChecker
      ensures Sound(State()) && received == old(received) + {m} && yielded == old(yielded) + out
      ensures old(InOrder(State())) ==> InOrder(State())
      ensures m.count != old(countChecker.nextCount) ==> out == [] && countChecker.nextCount == old(countChecker.nextCount)
      ensures m.count == old(countChecker.nextCount) ==> out != [] && out[0] == m
      ensures pendingNewViews == Remembered(old(pendingNewViews), m)
      ensures old(Filed(pendingNewViews)) ==> Filed(pendingNewViews)
    {
      hide Sound, Lossless, Gapless, Drained, ByCounter;
      if Filed(pendingNewViews) {
        RememberedOnce(pendingNewViews, m, m);
      }
      RememberViewMessage(m);
      hide Filed;
      ghost var o := State();
      ReceiveKeeps(o, m);
      SoundBuffer(o);
      var verdict := countChecker.Next(m.count);
      match verdict
      case Expected =>
        received := received + {m};
        YieldKeeps(o.(received := received), m);
        yielded := yielded + [m];
        var rest := YieldToBeProcessed();
        out := [m] + rest;
      case AlreadySeen =>
        received := received + {m};
        out := [];
      case NotNext =>
        Store(m);
        received := received + {m};
        StoreKeeps(o, m, unprocessed);
        out := [];
    }

    /**
     * Continues from a counter learned in recovery: with the messages that are buffered without a
     * gap from that counter on, or from the one expected before when that is greater.
     */
    method UpdateAfterRecoveredCounter(count: Count) returns (out: seq<Message>)
      requires Sound(State())
      modifies this`unprocessed, this`yielded, countChecker
      ensures Sound(State()) && Drained(State()) && yielded == old(yielded) + out
      ensures old(Lossless(State())) ==> Lossless(State())
      ensures var start := if old(countChecker.nextCount) < count then count else old(countChecker.nextCount);
              Numbered(out, start, countChecker.nextCount)
      ensures Accounted(old(unprocessed), out, State())
      ensures forall m :: m in old(unprocessed) ==> m.count != countChecker.nextCount
      ensures count <= old(countChecker.nextCount) && old(Gapless(State())) ==> Gapless(State())
    {
      if countChecker.nextCount < count {
        countChecker.nextCount := count;
      }
      ghost var start := countChecker.nextCount;
      while unprocessed != [] && unprocessed[0].count < count
        modifies this`unprocessed
        invariant Sound(State()) && (old(Lossless(State())) ==> Lossless(State()))
        invariant Accounted(old(unprocessed), [], State())
        invariant count <= old(countChecker.nextCount) && old(Gapless(State())) ==> Gapless(State())
        decreases |unprocessed|
      {
        DropKeeps(State());
        DropAccounted(old(unprocessed), [], State());
        unprocessed := unprocessed[1..];
      }
      ghost var o := State();
      out := YieldToBeProcessed();
      AccountedFurther(old(unprocessed), o, out, State());
      NextIsLeastUnbuffered(old(unprocessed), start, out, State());
    }

    /**
     * Skips counters up to and including the given one. One buffered message is popped per counter
     * skipped, whatever its own counter is.
     */
    method UpdateInNewView(count: Count)
      requires Sound(State())
      modifies this`unprocessed, countChecker
      ensures Sound(State())
      ensures countChecker.nextCount == if old(countChecker.nextCount) <= count then count + 1 else old(countChecker.nextCount)
      ensures unprocessed == old(unprocessed)[Popped(old(State()), count)..]
    {
      ghost var o := State();
      var skipped := 0;
      while countChecker.nextCount <= count
        invariant Sound(State()) && o.next <= countChecker.nextCount == o.next + skipped
        invariant countChecker.nextCount <= count + 1 || skipped == 0
        invariant unprocessed == o.buffer[if skipped <= |o.buffer| then skipped else |o.buffer|..]
      {
        countChecker.nextCount := countChecker.nextCount + 1;
        skipped := skipped + 1;
        if unprocessed != [] {
          TailIsSound(State());
          unprocessed := unprocessed[1..];
        }
      }
    }

    lemma TailIsSound(o: Order)
      requires Sound(o) && o.buffer != []
      ensures Sound(o.(buffer := o.buffer[1..]))
    {
      assert forall m :: m in o.buffer[1..] ==> m in o.buffer;
    }

    /** The filed messages for views after the current one, as often as they are filed. */
    method GetPendingNewViews(currentView: View) returns (r: seq<Message>)
      requires Filed(pendingNewViews)
      ensures forall m :: multiset(r)[m] ==
                if !m.Ordinary? && m.nextView > currentView then Times(pendingNewViews, m) else 0
    {
      r := [];
      var views := pendingNewViews.Keys;
      while views != {}
        invariant views <= pendingNewViews.Keys
        invariant forall m :: multiset(r)[m] ==
                    if !m.Ordinary? && m.nextView > currentView && m.nextView !in views then Times(pendingNewViews, m) else 0
      {
        var v :| v in views;
        if v > currentView {
          r := r + pendingNewViews[v];
        }
        forall m ensures multiset(r)[m] ==
          if !m.Ordinary? && m.nextView > currentView && m.nextView !in views - {v} then Times(pendingNewViews, m) else 0
        {
          FiledElsewhere(pendingNewViews, v, m);
        }
        views := views - {v};
      }
    }

    method UpdateAfterFinishedNewView(newView: View)
      modifies this`pendingNewViews
      ensures pendingNewViews == map v | v in old(pendingNewViews) && v > newView :: old(pendingNewViews)[v]
      ensures old(Filed(pendingNewViews)) ==> Filed(pendingNewViews)
    {
      pendingNewViews := map v | v in pendingNewViews && v > newView :: pendingNewViews[v];
    }
  }

  // ---------------------------------------------------------------------------------------------
  // Skipping counters in a new view

  /** How many counters are skipped. */
  function Skipped(o: Order, count: Count): nat {
    if o.next <= count then count + 1 - o.next else 0
  }

  /** How many buffered messages that pops. */
  function Popped(o: Order, count: Count): nat {
    if Skipped(o, count) <= |o.buffer| then Skipped(o, count) else |o.buffer|
  }

  /** No buffered message after the given counter is popped. */
  ghost predicate LaterSurvive(o: Order, count: Count) {
    forall k :: 0 <= k < |o.buffer| && o.buffer[k].count > count ==> Popped(o, count) <= k
  }

  /** The number of buffered messages up to a counter. */
  function UpTo(buffer: seq<Message>, count: Count): nat {
    if buffer == [] then 0
    else UpTo(buffer[..|buffer| - 1], count) + if buffer[|buffer| - 1].count <= count then 1 else 0
  }

  lemma {:induction false} UpToIsPrefix(buffer: seq<Message>, count: Count)
    requires ByCounter(buffer)
    ensures UpTo(buffer, count) <= |buffer|
    ensures forall k :: 0 <= k < |buffer| ==> (buffer[k].count <= count <==> k < UpTo(buffer, count))
    decreases |buffer|
  {
    if buffer != [] {
      var init := buffer[..|buffer| - 1];
      UpToIsPrefix(init, count);
      assert forall k :: 0 <= k < |init| ==> init[k] == buffer[k];
    }
  }

  /**
   * Skipping keeps the messages after the given counter exactly when none is buffered or at least
   * as many messages up to the counter are buffered as counters are skipped.
   */
  lemma SkippingKeepsLaterMessages(o: Order, count: Count)
    requires ByCounter(o.buffer)
    ensures LaterSurvive(o, count) <==>
              UpTo(o.buffer, count) == |o.buffer| || Skipped(o, count) <= UpTo(o.buffer, count)
  {
    UpToIsPrefix(o.buffer, count);
    var first := UpTo(o.buffer, count);
    if first < |o.buffer| && first < Skipped(o, count) {
      assert o.buffer[first].count > count;
    }
  }

  /** In a drained buffer without repetitions the k-th message is more than k counters ahead. */
  lemma {:induction false} BufferedAhead(o: Order, k: nat)
    requires ByCounter(o.buffer) && Drained(o) && k < |o.buffer|
    requires forall i, j :: 0 <= i < j < |o.buffer| ==> o.buffer[i].count != o.buffer[j].count
    ensures o.buffer[k].count >= o.next + 1 + k
  {
    assert o.buffer[k] in o.buffer;
    if k > 0 {
      BufferedAhead(o, k - 1);
    }
  }

  /**
   * As the enforcer keeps its buffer, and without repetitions, a skip loses a later message
   * whenever one is buffered.
   */
  lemma SkippingLosesLaterMessages(o: Order, count: Count)
    requires ByCounter(o.buffer) && Drained(o)
    requires forall i, j :: 0 <= i < j < |o.buffer| ==> o.buffer[i].count != o.buffer[j].count
    ensures LaterSurvive(o, count) <==> count < o.next || forall m :: m in o.buffer ==> m.count <= count
  {
    SkippingKeepsLaterMessages(o, count);
    UpToIsPrefix(o.buffer, count);
    var first := UpTo(o.buffer, count);
    if first > 0 {
      BufferedAhead(o, first - 1);
    }
    if first < |o.buffer| {
      assert o.buffer[first] in o.buffer;
    }
  }

  /** A buffered message after the given counter can be lost. */
  lemma SkippingMayLose() returns (o: Order, count: Count, m: Message)
    ensures InOrder(o) && m in o.buffer && m.count > count
    ensures m !in o.buffer[Popped(o, count)..]
  {
    m := Ordinary(5, []);
    o := Order(0, [m], {m}, []);
    count := 0;
    assert o.buffer[1..] == [];
  }
}
