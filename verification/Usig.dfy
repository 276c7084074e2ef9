/**
 * The USIG signature service of MinBFT: a signer stamps every message with the next counter value
 * and signs both, and a verifier checks the stamp together with the message.
 *
 * Signatures are ideal: a signature is a value that carries its key and the bytes it covers.
 */
module Usig {
  import opened Wrappers

  type Byte = x: nat | x < 256
  type Bytes = seq<Byte>
  type ReplicaId = nat
  type Key = nat

  const U64_LIMIT: nat := 0x1_0000_0000_0000_0000

  datatype RawSignature = RawSignature(key: Key, data: Bytes)

  datatype Signature = Signature(counter: nat, signature: RawSignature)

  datatype UsigError = UnknownId(id: ReplicaId) | InvalidSignature

  // ---------------------------------------------------------------------------------------------
  // Counters as bytes, most significant byte first

  function Power256(k: nat): nat {
    if k == 0 then 1 else 256 * Power256(k - 1)
  }

  /** The lowest `k` bytes of a number. */
  function ToBytes(c: nat, k: nat): (r: Bytes)
    ensures |r| == k
  {
    if k == 0 then [] else ToBytes(c / 256, k - 1) + [c % 256]
  }

  function FromBytes(bytes: Bytes): nat {
    if bytes == [] then 0 else 256 * FromBytes(bytes[..|bytes| - 1]) + bytes[|bytes| - 1]
  }

  /** Reading the bytes of a number that fits gives the number back. */
  lemma {:induction false} BytesRoundTrip(c: nat, k: nat)
    requires c < Power256(k)
    ensures FromBytes(ToBytes(c, k)) == c
  {
    if k > 0 {
      var init := ToBytes(c / 256, k - 1);
      assert c / 256 < Power256(k - 1);
      BytesRoundTrip(c / 256, k - 1);
      assert ToBytes(c, k)[..k - 1] == init;
    }
  }

  lemma EightBytes()
    ensures Power256(8) == U64_LIMIT
  {
    assert Power256(4) == 0x1_0000_0000;
  }

  /** The bytes that are signed for a message: its counter and the message. */
  function SignedBytes(counter: nat, message: Bytes): Bytes {
    ToBytes(counter, 8) + message
  }

  /** Signing the same bytes means signing the same message with the same counter. */
  lemma SignedBytesInjective(c: nat, m: Bytes, d: nat, l: Bytes)
    requires c < U64_LIMIT && d < U64_LIMIT
    requires SignedBytes(c, m) == SignedBytes(d, l)
    ensures c == d && m == l
  {
    EightBytes();
    assert SignedBytes(c, m)[..8] == ToBytes(c, 8) && SignedBytes(d, l)[..8] == ToBytes(d, 8);
    assert SignedBytes(c, m)[8..] == m && SignedBytes(d, l)[8..] == l;
    BytesRoundTrip(c, 8);
    BytesRoundTrip(d, 8);
  }

  // ---------------------------------------------------------------------------------------------
  // The two halves of the service

  class SignHalf {
    const key: Key
    var counter: nat

    /** The messages signed so far. */
    ghost var messages: seq<Bytes>
    /** The signatures issued for them. */
    ghost var signatures: seq<Signature>

    ghost predicate Valid()
      reads this
    {
      counter < U64_LIMIT && Stamped(key, counter, messages, signatures)
    }

    constructor (key: Key)
      ensures Valid() && this.key == key && counter == 0 && messages == [] && signatures == []
    {
      this.key := key;
      counter := 0;
      messages := [];
      signatures := [];
    }

    /** A counter that would overflow makes the program panic. */
    method Sign(message: Bytes) returns (r: Signature)
      requires Valid() && counter + 1 < U64_LIMIT
      modifies this
      ensures Valid() && counter == old(counter) + 1
      ensures messages == old(messages) + [message] && signatures == old(signatures) + [r]
      ensures r.counter == old(counter)
    {
      var stamp := counter;
      counter := counter + 1;
      var data := ToBytes(stamp, 8);
      data := data + message;
      r := Signature(stamp, RawSignature(key, data));
      messages := messages + [message];
      signatures := signatures + [r];
    }
  }

  /** The k-th message signed carries counter k. */
  ghost predicate Stamped(key: Key, counter: nat, messages: seq<Bytes>, signatures: seq<Signature>) {
    && |messages| == counter == |signatures|
    && forall k :: 0 <= k < counter ==> signatures[k] == Signature(k, RawSignature(key, SignedBytes(k, messages[k])))
  }

  function Verified(keys: map<ReplicaId, Key>, id: ReplicaId, message: Bytes, s: Signature): Result<(), UsigError> {
    if id !in keys then Failure(UnknownId(id))
    else if s.signature == RawSignature(keys[id], SignedBytes(s.counter, message)) then Success(())
    else Failure(InvalidSignature)
  }

  class VerifyHalf {
    var otherKeys: map<ReplicaId, Key>

    constructor ()
      ensures otherKeys == map[]
    {
      otherKeys := map[];
    }

    method AddRemoteParty(id: ReplicaId, key: Key) returns (added: bool)
      modifies this
      ensures added && otherKeys == old(otherKeys)[id := key]
    {
      otherKeys := otherKeys[id := key];
      added := true;
    }

    method Verify(id: ReplicaId, message: Bytes, s: Signature) returns (r: Result<(), UsigError>)
      ensures r == Verified(otherKeys, id, message, s)
    {
      if id in otherKeys {
        var data := ToBytes(s.counter, 8);
        data := data + message;
        if s.signature == RawSignature(otherKeys[id], data) {
          return Success(());
        }
        return Failure(InvalidSignature);
      }
      return Failure(UnknownId(id));
    }
  }

  /**
   * A signature the signer issued verifies exactly with the signer's key, the counter it was
   * issued with and the message it was issued for: neither counter nor message can be exchanged.
   */
  lemma VerifiesOnlyWhatWasSigned(keys: map<ReplicaId, Key>, id: ReplicaId, key: Key, counter: nat, messages: seq<Bytes>,
                                  signatures: seq<Signature>, k: nat, claimed: nat, message: Bytes)
    requires Stamped(key, counter, messages, signatures) && counter <= U64_LIMIT && k < counter
    requires id in keys && claimed < U64_LIMIT
    ensures Verified(keys, id, message, Signature(claimed, signatures[k].signature)).Success?
            <==> keys[id] == key && claimed == k && message == messages[k]
  {
    var s := Signature(claimed, signatures[k].signature);
    if Verified(keys, id, message, s).Success? {
      SignedBytesInjective(k, messages[k], claimed, message);
    }
  }
}
