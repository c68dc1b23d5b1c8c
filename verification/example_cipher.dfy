/** Mixing a payload with a key of the same length, byte by byte. */
module ByteMixing {

  type Byte = bv8

  function XorByte(x: Byte, k: Byte): Byte { x ^ k }

  /** Mixes a payload with a key of the same length, position by position. */
  function Combine<T>(payload: seq<T>, key: seq<T>, mix: (T, T) -> T): seq<T>
    requires |payload| == |key|
  {
    seq(|payload|, i requires 0 <= i < |payload| => mix(payload[i], key[i]))
  }

  /** Mixing with a second key undoes the first exactly when the keys are equal. */
  ghost predicate Cancels<T(!new)>(mix: (T, T) -> T) {
    forall x, k, l :: mix(mix(x, k), l) == x <==> k == l
  }

  lemma XorUndone(x: Byte, k: Byte)
    ensures (x ^ k) ^ k == x
  {
  }

  lemma XorDetermines(x: Byte, k: Byte, l: Byte)
    ensures (x ^ k) ^ l == x ==> k == l
  {
  }

  lemma XorTwice(x: Byte, k: Byte, l: Byte)
    ensures XorByte(XorByte(x, k), l) == x <==> k == l
  {
    if k == l {
      XorUndone(x, k);
    } else {
      XorDetermines(x, k, l);
    }
  }

  lemma XorCancels()
    ensures Cancels(XorByte)
  {
    forall x: Byte, k: Byte, l: Byte ensures XorByte(XorByte(x, k), l) == x <==> k == l {
      XorTwice(x, k, l);
    }
  }

  lemma CombineTwice<T(!new)>(payload: seq<T>, key: seq<T>, other: seq<T>, mix: (T, T) -> T)
    requires |payload| == |key| == |other| && Cancels(mix)
    ensures Combine(Combine(payload, key, mix), other, mix) == payload <==> key == other
  {
    var restored := Combine(Combine(payload, key, mix), other, mix);
    forall i | 0 <= i < |payload| ensures restored[i] == payload[i] <==> key[i] == other[i] {
      assert restored[i] == mix(mix(payload[i], key[i]), other[i]);
    }
    if restored == payload {
      assert forall i | 0 <= i < |payload| :: restored[i] == payload[i];
    }
  }
}

/** Facts about 64-bit words: sums, odd multiples, rotations and widened bytes lose nothing. */
module WordFacts {
  import opened ByteMixing

  function Sum(x: bv64, y: bv64): bv64 { x + y }

  function Difference(x: bv64, y: bv64): bv64 { x - y }

  lemma PlainSumInverts(x: bv64, y: bv64)
    ensures Difference(x + y, x) == y && Difference(x + y, y) == x
  {
  }

  lemma PlainDifferenceInverts(x: bv64, y: bv64)
    ensures Sum(x, y - x) == y
  {
  }

  lemma SumInverts(x: bv64, y: bv64)
    ensures Difference(Sum(x, y), x) == y && Difference(Sum(x, y), y) == x
    ensures Sum(x, Difference(y, x)) == y
  {
    PlainSumInverts(x, y);
    PlainDifferenceInverts(x, y);
    assert Sum(x, y) == x + y && Difference(y, x) == y - x;
    hide Sum, Difference;
  }

  /** Sums with one part in common are equal exactly when the other parts are. */
  lemma SumsDiffer(x1: bv64, y1: bv64, x2: bv64, y2: bv64)
    ensures y1 == y2 ==> (Sum(x1, y1) == Sum(x2, y2) <==> x1 == x2)
    ensures x1 == x2 ==> (Sum(x1, y1) == Sum(x2, y2) <==> y1 == y2)
  {
    SumInverts(x1, y1);
    SumInverts(x2, y2);
    hide Sum, Difference;
  }

  function StreamKey(key: bv64): bv64 { key * 0xA24B_AED4_963E_E407 }

  function StreamKeyInverse(word: bv64): bv64 { word * 0x8B95_1323_F693_49B7 }

  lemma PlainStreamKeyInverts(x: bv64)
    ensures StreamKeyInverse(x * 0xA24B_AED4_963E_E407) == x
  {
  }

  lemma StreamKeyInverts(x: bv64)
    ensures StreamKeyInverse(StreamKey(x)) == x
  {
    hide StreamKeyInverse;
    PlainStreamKeyInverts(x);
  }

  lemma OddMultiplesDiffer(x: bv64, y: bv64)
    ensures StreamKey(x) == StreamKey(y) <==> x == y
  {
    StreamKeyInverts(x);
    StreamKeyInverts(y);
    hide StreamKey, StreamKeyInverse;
  }

  function TagKey(key: bv64): bv64 { key * 0x9E37_79B9_7F4A_7C15 }

  function TagKeyInverse(word: bv64): bv64 { word * 0xF1DE_83E1_9937_733D }

  function TagPrime(word: bv64): bv64 { word * 0x1000_0000_01B3 }

  function TagPrimeInverse(word: bv64): bv64 { word * 0xB46D_D957_AFF6_957B }

  function StreamNonce(nonce: bv64): bv64 { nonce.RotateLeft(23) }

  function StreamNonceInverse(word: bv64): bv64 { word.RotateRight(23) }

  function TagNonce(nonce: bv64): bv64 { nonce.RotateLeft(17) }

  function TagNonceInverse(word: bv64): bv64 { word.RotateRight(17) }

  function TagTurn(word: bv64): bv64 { word.RotateLeft(5) }

  function TagTurnInverse(word: bv64): bv64 { word.RotateRight(5) }

  lemma PlainTagKeyInverts(x: bv64)
    ensures TagKeyInverse(x * 0x9E37_79B9_7F4A_7C15) == x
  {
  }

  lemma TagKeyInverts(x: bv64)
    ensures TagKeyInverse(TagKey(x)) == x
  {
    hide TagKeyInverse;
    PlainTagKeyInverts(x);
  }

  lemma PlainTagPrimeInverts(x: bv64)
    ensures TagPrimeInverse(x * 0x1000_0000_01B3) == x
  {
  }

  lemma TagPrimeInverts(x: bv64)
    ensures TagPrimeInverse(TagPrime(x)) == x
  {
    hide TagPrimeInverse;
    PlainTagPrimeInverts(x);
  }

  lemma StreamNonceInverts(x: bv64)
    ensures StreamNonceInverse(StreamNonce(x)) == x && StreamNonce(StreamNonceInverse(x)) == x
  {
  }

  lemma TagNonceInverts(x: bv64)
    ensures TagNonceInverse(TagNonce(x)) == x
  {
  }

  lemma TagTurnInverts(x: bv64)
    ensures TagTurnInverse(TagTurn(x)) == x
  {
  }

  function Widened(key: bv32): bv64 { key as bv64 }

  lemma WidenedDiffer(k: bv32, l: bv32)
    ensures Widened(k) == Widened(l) <==> k == l
  {
  }
}

/** The xorshift stream of the example cipher: it never loses its state, and nine of its low bytes
    in a row determine it. */
module XorShift {
  import opened ByteMixing

  function Xor(x: bv64, y: bv64): bv64 { x ^ y }

  function Left13(word: bv64): bv64 { word ^ (word << 13) }

  function Right7(word: bv64): bv64 { word ^ (word >> 7) }

  function Left17(word: bv64): bv64 { word ^ (word << 17) }

  /** One xorshift round. */
  function NextStream(stream: bv64): bv64 { Left17(Right7(Left13(stream))) }

  function LowByte(word: bv64): Byte { (word & 0xFF) as Byte }

  /** The stream after a number of rounds. */
  function StreamFrom(start: bv64, rounds: nat): bv64 {
    if rounds == 0 then start else NextStream(StreamFrom(start, rounds - 1))
  }

  // The facts about single operations apply them to terms written out, so that each is a rewriting.

  lemma PartsOfXor(a: bv64, b: bv64)
    ensures Left13(a ^ b) == Xor(a ^ (a << 13), b ^ (b << 13))
    ensures Right7(a ^ b) == Xor(a ^ (a >> 7), b ^ (b >> 7))
    ensures Left17(a ^ b) == Xor(a ^ (a << 17), b ^ (b << 17))
  {
  }

  lemma PartsOfPlainXor(a: bv64, b: bv64)
    ensures Left13(a ^ b) == Xor(Left13(a), Left13(b))
    ensures Right7(a ^ b) == Xor(Right7(a), Right7(b))
    ensures Left17(a ^ b) == Xor(Left17(a), Left17(b))
  {
    hide Xor;
    PartsOfXor(a, b);
  }

  /** Each part of a round distributes over the combination of two words. */
  lemma PartsDistribute(a: bv64, b: bv64)
    ensures Left13(Xor(a, b)) == Xor(Left13(a), Left13(b))
    ensures Right7(Xor(a, b)) == Xor(Right7(a), Right7(b))
    ensures Left17(Xor(a, b)) == Xor(Left17(a), Left17(b))
  {
    hide Left13, Right7, Left17;
    PartsOfPlainXor(a, b);
    assert Xor(a, b) == a ^ b;
    hide Xor;
  }

  /** The stream of a combination of two words is the combination of their streams. */
  lemma {:induction false} StreamDistributes(a: bv64, b: bv64, rounds: nat)
    ensures StreamFrom(Xor(a, b), rounds) == Xor(StreamFrom(a, rounds), StreamFrom(b, rounds))
  {
    hide Left13, Right7, Left17, Xor;
    if rounds > 0 {
      StreamDistributes(a, b, rounds - 1);
      var x, y := StreamFrom(a, rounds - 1), StreamFrom(b, rounds - 1);
      PartsDistribute(x, y);
      PartsDistribute(Left13(x), Left13(y));
      PartsDistribute(Right7(Left13(x)), Right7(Left13(y)));
    }
  }

  lemma Left13Zero(word: bv64)
    ensures Left13(word) == 0 <==> word == 0
  {
  }

  lemma Right7Zero(word: bv64)
    ensures Right7(word) == 0 <==> word == 0
  {
  }

  lemma Left17Zero(word: bv64)
    ensures Left17(word) == 0 <==> word == 0
  {
  }

  /** A stream is zero at some position exactly when it starts at zero. */
  lemma {:induction false} StreamZero(start: bv64, rounds: nat)
    ensures StreamFrom(start, rounds) == 0 <==> start == 0
  {
    hide Left13, Right7, Left17;
    if rounds > 0 {
      StreamZero(start, rounds - 1);
      var word := StreamFrom(start, rounds - 1);
      Left13Zero(word);
      Right7Zero(Left13(word));
      Left17Zero(Right7(Left13(word)));
    }
  }

  lemma PlainXorInverts(a: bv64, b: bv64)
    ensures Xor(a ^ b, b) == a && Xor(a, a ^ b) == b && Xor(a, a) == 0 && Xor(0, b) == b
  {
  }

  lemma XorInverts(a: bv64, b: bv64)
    ensures Xor(Xor(a, b), b) == a && Xor(a, Xor(a, b)) == b && Xor(a, a) == 0 && Xor(0, b) == b
  {
    PlainXorInverts(a, b);
    assert Xor(a, b) == a ^ b;
    hide Xor;
  }

  lemma XorZero(a: bv64, b: bv64)
    ensures Xor(a, b) == 0 <==> a == b
  {
    hide Xor;
    XorInverts(a, b);
  }

  /** Two streams share a word at the same position exactly when they start alike. */
  lemma StreamsMeet(a: bv64, b: bv64, rounds: nat)
    ensures StreamFrom(a, rounds) == StreamFrom(b, rounds) <==> a == b
  {
    hide StreamFrom, Xor;
    StreamDistributes(a, b, rounds);
    StreamZero(Xor(a, b), rounds);
    XorZero(a, b);
    XorZero(StreamFrom(a, rounds), StreamFrom(b, rounds));
  }

  /** The lowest `7 * n + 1` bits. */
  function LowMask(n: nat): bv64 {
    if n == 0 then 1 else (LowMask(n - 1) << 7) | 0x7F
  }

  predicate Clear(word: bv64, mask: bv64) { word & mask == 0 }

  /** A round moves a bit that is seven places higher into every bit of the word: where a word and
      its successor are zero in the low bits, the word is zero in seven bits more. */
  lemma Widen(word: bv64, mask: bv64)
    requires mask & 0xFF == 0xFF && mask & (mask + 1) == 0
    requires Clear(word, mask) && Clear(NextStream(word), mask)
    ensures Clear(word, (mask << 7) | 0x7F)
  {
  }

  lemma LowMasks(n: nat)
    requires 1 <= n <= 9
    ensures LowMask(n) & 0xFF == 0xFF && LowMask(n) & (LowMask(n) + 1) == 0
    ensures LowMask(1) == 0xFF && LowMask(9) == 0xFFFF_FFFF_FFFF_FFFF
  {
    assert LowMask(2) == 0x7FFF && LowMask(3) == 0x3F_FFFF && LowMask(4) == 0x1FFF_FFFF;
    assert LowMask(5) == 0xF_FFFF_FFFF && LowMask(6) == 0x7FF_FFFF_FFFF;
    assert LowMask(7) == 0x3_FFFF_FFFF_FFFF && LowMask(8) == 0x1FF_FFFF_FFFF_FFFF;
  }

  lemma LowByteClear(word: bv64)
    ensures LowByte(word) == 0 <==> Clear(word, 0xFF)
    ensures Clear(word, 0xFFFF_FFFF_FFFF_FFFF) <==> word == 0
  {
  }

  /** Where `n` low bytes in a row are zero, the first of their words is zero in its low bits. */
  lemma {:induction false} SilentBytes(start: bv64, first: nat, n: nat)
    requires 1 <= n <= 9
    requires forall i | first <= i < first + n :: LowByte(StreamFrom(start, i)) == 0
    ensures Clear(StreamFrom(start, first), LowMask(n))
    decreases n
  {
    hide NextStream, LowByte, Clear;
    LowMasks(n);
    if n == 1 {
      LowByteClear(StreamFrom(start, first));
    } else {
      LowMasks(n - 1);
      SilentBytes(start, first, n - 1);
      SilentBytes(start, first + 1, n - 1);
      Widen(StreamFrom(start, first), LowMask(n - 1));
    }
  }

  lemma LowByteXor(a: bv64, b: bv64)
    ensures LowByte(Xor(a, b)) == 0 <==> LowByte(a) == LowByte(b)
  {
  }

  /** Two streams agree in nine low bytes in a row. */
  predicate BytesAgree(a: bv64, b: bv64, first: nat) {
    forall i | first <= i < first + 9 :: LowByte(StreamFrom(a, i)) == LowByte(StreamFrom(b, i))
  }

  /** Nine low bytes in a row tell all streams apart. */
  lemma NineBytesDetermine(a: bv64, b: bv64, first: nat)
    ensures BytesAgree(a, b, first) <==> a == b
  {
    hide LowByte, StreamFrom, Xor, Clear, LowMask;
    if BytesAgree(a, b, first) {
      forall i | first <= i < first + 9 ensures LowByte(StreamFrom(Xor(a, b), i)) == 0 {
        StreamDistributes(a, b, i);
        LowByteXor(StreamFrom(a, i), StreamFrom(b, i));
      }
      SilentBytes(Xor(a, b), first, 9);
      LowMasks(9);
      LowByteClear(StreamFrom(Xor(a, b), first));
      StreamZero(Xor(a, b), first);
      XorZero(a, b);
    }
  }
}

/** The reversible example cipher and tag that show where a packet security hook plugs in.
    Neither is cryptography. */
module ExampleCipher {

  import opened ByteMixing
  import opened WordFacts
  import opened XorShift

  function InitialStream(keyId: bv32, nonce: bv64): bv64 { Sum(StreamKey(Widened(keyId)), StreamNonce(nonce)) }

  /** Under one nonce different keys start different streams, and under one key different
      nonces do. */
  lemma InitialStreamsDiffer(k1: bv32, n1: bv64, k2: bv32, n2: bv64)
    ensures n1 == n2 ==> (InitialStream(k1, n1) == InitialStream(k2, n2) <==> k1 == k2)
    ensures k1 == k2 ==> (InitialStream(k1, n1) == InitialStream(k2, n2) <==> n1 == n2)
  {
    StreamKeysDiffer(k1, k2);
    StreamNoncesDiffer(n1, n2);
    hide Widened, StreamKey, StreamNonce;
    SumsDiffer(StreamKey(Widened(k1)), StreamNonce(n1), StreamKey(Widened(k2)), StreamNonce(n2));
    hide Sum;
  }

  lemma StreamKeysDiffer(k1: bv32, k2: bv32)
    ensures StreamKey(Widened(k1)) == StreamKey(Widened(k2)) <==> k1 == k2
  {
    WidenedDiffer(k1, k2);
    OddMultiplesDiffer(Widened(k1), Widened(k2));
    hide StreamKey, Widened;
  }

  lemma StreamNoncesDiffer(n1: bv64, n2: bv64)
    ensures StreamNonce(n1) == StreamNonce(n2) <==> n1 == n2
  {
    StreamNonceInverts(n1);
    StreamNonceInverts(n2);
    hide StreamNonce, StreamNonceInverse;
  }

  /** The one nonce under which a second key has the stream of a key and its nonce. */
  function SharedNonce(keyId: bv32, nonce: bv64, otherKey: bv32): bv64 {
    StreamNonceInverse(Difference(InitialStream(keyId, nonce), StreamKey(Widened(otherKey))))
  }

  /** Different keys do share a stream, each for exactly one nonce. */
  lemma StreamSharedExactly(keyId: bv32, nonce: bv64, otherKey: bv32, otherNonce: bv64)
    ensures InitialStream(otherKey, otherNonce) == InitialStream(keyId, nonce)
            <==> otherNonce == SharedNonce(keyId, nonce, otherKey)
  {
    var target, key := InitialStream(keyId, nonce), StreamKey(Widened(otherKey));
    StreamNonceInverts(otherNonce);
    StreamNonceInverts(Difference(target, key));
    hide Widened, StreamKey, StreamNonce, StreamNonceInverse;
    SumInverts(key, StreamNonce(otherNonce));
    SumInverts(key, target);
    hide Sum, Difference;
  }

  /** The byte the payload is combined with at one position: it depends on the key, the nonce
      and the position only. */
  function KeyByte(keyId: bv32, nonce: bv64, position: nat): Byte {
    LowByte(StreamFrom(InitialStream(keyId, nonce), position + 1))
  }

  function KeyStream(keyId: bv32, nonce: bv64, length: nat): seq<Byte> {
    seq(length, i requires i >= 0 => KeyByte(keyId, nonce, i))
  }

  function Apply(keyId: bv32, nonce: bv64, payload: seq<Byte>): seq<Byte> {
    Combine(payload, KeyStream(keyId, nonce, |payload|), XorByte)
  }

  /** The cipher loop: it carries only the stream, and its effect is the positional key. */
  method ApplyExampleCipher(keyId: bv32, nonce: bv64, payload: array<Byte>)
    modifies payload
    ensures payload[..] == Apply(keyId, nonce, old(payload[..]))
  {
    var stream := InitialStream(keyId, nonce);
    for i := 0 to payload.Length
      invariant stream == StreamFrom(InitialStream(keyId, nonce), i)
      invariant forall k | 0 <= k < i :: payload[k] == XorByte(old(payload[k]), KeyByte(keyId, nonce, k))
      invariant forall k | i <= k < payload.Length :: payload[k] == old(payload[k])
    {
      stream := NextStream(stream);
      payload[i] := XorByte(payload[i], LowByte(stream));
    }
  }

  method Seal(keyId: bv32, nonce: bv64, payload: array<Byte>)
    modifies payload
    ensures payload[..] == Apply(keyId, nonce, old(payload[..]))
  {
    ApplyExampleCipher(keyId, nonce, payload);
  }

  method Open(keyId: bv32, nonce: bv64, payload: array<Byte>)
    modifies payload
    ensures payload[..] == Apply(keyId, nonce, old(payload[..]))
  {
    ApplyExampleCipher(keyId, nonce, payload);
  }

  /** Nine key bytes give the stream away: longer key streams agree exactly when they are the
      same stream. */
  lemma KeyStreamsAgree(k1: bv32, n1: bv64, k2: bv32, n2: bv64, length: nat)
    requires length >= 9
    ensures KeyStream(k1, n1, length) == KeyStream(k2, n2, length)
            <==> InitialStream(k1, n1) == InitialStream(k2, n2)
  {
    hide InitialStream, LowByte, StreamFrom;
    var a, b := InitialStream(k1, n1), InitialStream(k2, n2);
    if KeyStream(k1, n1, length) == KeyStream(k2, n2, length) {
      forall i | 1 <= i < 10 ensures LowByte(StreamFrom(a, i)) == LowByte(StreamFrom(b, i)) {
        assert KeyStream(k1, n1, length)[i - 1] == KeyStream(k2, n2, length)[i - 1];
      }
      assert BytesAgree(a, b, 1);
      NineBytesDetermine(a, b, 1);
    }
  }

  /** Round trip: opening with the sealing key and nonce restores every payload; opening with
      another key or nonce restores it exactly when the two key streams agree on its length,
      whatever the payload contains. */
  lemma OpenAfterSeal(
      sealKey: bv32, sealNonce: bv64, openKey: bv32, openNonce: bv64, payload: seq<Byte>)
    ensures Apply(openKey, openNonce, Apply(sealKey, sealNonce, payload)) == payload
            <==> KeyStream(sealKey, sealNonce, |payload|) == KeyStream(openKey, openNonce, |payload|)
    ensures openKey == sealKey && openNonce == sealNonce ==>
              Apply(openKey, openNonce, Apply(sealKey, sealNonce, payload)) == payload
  {
    XorCancels();
    CombineTwice(
      payload,
      KeyStream(sealKey, sealNonce, |payload|),
      KeyStream(openKey, openNonce, |payload|),
      XorByte);
  }

  /** A payload of at least nine bytes is restored by exactly the keys and nonces that share the
      stream it was sealed with: under its own nonce by its own key alone, and with its own key
      under its own nonce alone. */
  lemma OpenedExactlyByItsStream(
      sealKey: bv32, sealNonce: bv64, openKey: bv32, openNonce: bv64, payload: seq<Byte>)
    requires |payload| >= 9
    ensures var restored := Apply(openKey, openNonce, Apply(sealKey, sealNonce, payload));
            && (restored == payload <==> openNonce == SharedNonce(sealKey, sealNonce, openKey))
            && (openNonce == sealNonce ==> (restored == payload <==> openKey == sealKey))
            && (openKey == sealKey ==> (restored == payload <==> openNonce == sealNonce))
  {
    hide Apply, KeyStream, InitialStream, SharedNonce;
    OpenAfterSeal(sealKey, sealNonce, openKey, openNonce, payload);
    KeyStreamsAgree(sealKey, sealNonce, openKey, openNonce, |payload|);
    StreamSharedExactly(sealKey, sealNonce, openKey, openNonce);
    InitialStreamsDiffer(sealKey, sealNonce, openKey, openNonce);
  }

  lemma ZeroWord()
    ensures InitialStream(0, 0) == 0
  {
  }

  lemma {:induction false} ZeroKeyStream(length: nat)
    ensures KeyStream(0, 0, length) == seq(length, _ => 0)
  {
    hide InitialStream, StreamFrom;
    ZeroWord();
    forall i | 0 <= i < length ensures KeyByte(0, 0, i) == 0 {
      StreamZero(0, i + 1);
    }
  }

  lemma CombineWithZero(payload: seq<Byte>)
    ensures Combine(payload, seq(|payload|, _ => 0), XorByte) == payload
  {
    forall x: Byte ensures XorByte(x, 0) == x {
    }
  }

  /** Key 0 with nonce 0 seals nothing; of any other key exactly one nonce does, for payloads of
      at least nine bytes. */
  lemma UnsealedExactly(keyId: bv32, nonce: bv64, payload: seq<Byte>)
    ensures Apply(0, 0, payload) == payload
    ensures |payload| >= 9 ==>
              (Apply(keyId, nonce, payload) == payload <==> nonce == SharedNonce(0, 0, keyId))
  {
    ZeroKeyStream(|payload|);
    CombineWithZero(payload);
    assert Apply(0, 0, payload) == payload;
    hide Apply, KeyStream, InitialStream, SharedNonce;
    if |payload| >= 9 {
      OpenedExactlyByItsStream(0, 0, keyId, nonce, payload);
    }
  }

  /** One packet worked out: the first sealed bytes under key 7 and nonce 1. */
  lemma KnownPacket()
    ensures Apply(7, 1, [0x41, 0x42, 0x43]) == [0x48, 0xCB, 0x63]
  {
    var start := InitialStream(7, 1);
    assert start == 0x7011_C7D0_1C38_3C31;
    assert StreamFrom(start, 1) == 0x6FC5_78CD_759B_6009;
    assert StreamFrom(start, 2) == 0x1EF8_A480_0CBB_7489;
    assert StreamFrom(start, 3) == 0xE2C6_ED81_4CAE_0020;
    hide InitialStream, StreamFrom;
    var key: seq<Byte> := [0x09, 0x89, 0x20];
    assert KeyStream(7, 1, 3) == key;
    assert XorByte(0x41, 0x09) == 0x48 && XorByte(0x42, 0x89) == 0xCB && XorByte(0x43, 0x20) == 0x63;
  }

  /** Sealing works byte by byte from the front: a truncated packet opens to the truncated
      payload. */
  lemma SealOfPrefix(keyId: bv32, nonce: bv64, payload: seq<Byte>, n: nat)
    requires n <= |payload|
    ensures Apply(keyId, nonce, payload)[..n] == Apply(keyId, nonce, payload[..n])
  {
  }

  function ShiftAmount(index: nat): (bits: bv7)
    ensures bits <= 56
  {
    match index % 8
    case 0 => 0
    case 1 => 8
    case 2 => 16
    case 3 => 24
    case 4 => 32
    case 5 => 40
    case 6 => 48
    case _ => 56
  }

  /** A byte at its place in the word. */
  function Placed(index: nat, byte: Byte): bv64 { byte as bv64 << ShiftAmount(index) }

  function AbsorbByte(acc: bv64, index: nat, byte: Byte): bv64 {
    TagPrime(Xor(TagTurn(acc), Placed(index, byte)))
  }

  function InitialAccumulator(keyId: bv32, nonce: bv64): bv64 { Sum(TagKey(Widened(keyId)), TagNonce(nonce)) }

  function Accumulator(keyId: bv32, nonce: bv64, payload: seq<Byte>): bv64 {
    if payload == [] then InitialAccumulator(keyId, nonce)
    else AbsorbByte(
      Accumulator(keyId, nonce, payload[..|payload| - 1]), |payload| - 1, payload[|payload| - 1])
  }

  function NthByte(word: bv64, i: nat): Byte {
    match i
    case 0 => LowByte(word)
    case 1 => LowByte(word >> 8)
    case 2 => LowByte(word >> 16)
    case 3 => LowByte(word >> 24)
    case 4 => LowByte(word >> 32)
    case 5 => LowByte(word >> 40)
    case 6 => LowByte(word >> 48)
    case _ => LowByte(word >> 56)
  }

  /** Little-endian bytes of a word. */
  function WordBytes(word: bv64): seq<Byte> {
    seq(8, i requires i >= 0 => NthByte(word, i))
  }

  function Tag(keyId: bv32, nonce: bv64, payload: seq<Byte>): seq<Byte> {
    WordBytes(Accumulator(keyId, nonce, payload))
  }

  lemma PlacedDiffer(index: nat, a: Byte, b: Byte)
    ensures Placed(index, a) == Placed(index, b) <==> a == b
  {
    match index % 8
    case 0 =>
    case 1 =>
    case 2 =>
    case 3 =>
    case 4 =>
    case 5 =>
    case 6 =>
    case _ =>
  }

  lemma XorsDiffer(a: bv64, b: bv64, c: bv64)
    ensures Xor(a, c) == Xor(b, c) <==> a == b
    ensures Xor(c, a) == Xor(c, b) <==> a == b
  {
    hide Xor;
    XorInverts(a, c);
    XorInverts(b, c);
    XorInverts(c, a);
    XorInverts(c, b);
  }

  /** Absorbing loses nothing: a different byte, or a different accumulator, stays different. */
  lemma AbsorbDiffers(acc1: bv64, acc2: bv64, index: nat, a: Byte, b: Byte)
    ensures acc1 == acc2 ==> (AbsorbByte(acc1, index, a) == AbsorbByte(acc2, index, b) <==> a == b)
    ensures a == b ==> (AbsorbByte(acc1, index, a) == AbsorbByte(acc2, index, b) <==> acc1 == acc2)
  {
    PlacedDiffer(index, a, b);
    TagTurnInverts(acc1);
    TagTurnInverts(acc2);
    hide Placed, TagTurn, TagTurnInverse, TagPrime, TagPrimeInverse;
    XorsDiffer(TagTurn(acc1), TagTurn(acc2), Placed(index, a));
    XorsDiffer(Placed(index, a), Placed(index, b), TagTurn(acc1));
    hide Xor;
    TagPrimeInverts(Xor(TagTurn(acc1), Placed(index, a)));
    TagPrimeInverts(Xor(TagTurn(acc2), Placed(index, b)));
  }

  /** Equal bytes at the end keep accumulators apart that were apart before them. */
  lemma {:induction false} AccumulatorsStayApart(
      k1: bv32, n1: bv64, p1: seq<Byte>, k2: bv32, n2: bv64, p2: seq<Byte>, m: nat)
    requires m <= |p1| == |p2| && p1[m..] == p2[m..]
    ensures Accumulator(k1, n1, p1) == Accumulator(k2, n2, p2)
            <==> Accumulator(k1, n1, p1[..m]) == Accumulator(k2, n2, p2[..m])
    decreases |p1|
  {
    hide AbsorbByte, InitialAccumulator;
    var last := |p1| - 1;
    if m == |p1| {
      assert p1[..m] == p1 && p2[..m] == p2;
    } else {
      assert p1[m..][last - m] == p1[last] && p2[m..][last - m] == p2[last];
      assert p1[..last][m..] == p1[m..][..last - m] && p2[..last][m..] == p2[m..][..last - m];
      assert p1[..last][..m] == p1[..m] && p2[..last][..m] == p2[..m];
      AccumulatorsStayApart(k1, n1, p1[..last], k2, n2, p2[..last], m);
      AbsorbDiffers(Accumulator(k1, n1, p1[..last]), Accumulator(k2, n2, p2[..last]), last, p1[last], p2[last]);
    }
  }

  lemma BytesDetermine(a: bv64, b: bv64)
    requires NthByte(a, 0) == NthByte(b, 0) && NthByte(a, 1) == NthByte(b, 1)
    requires NthByte(a, 2) == NthByte(b, 2) && NthByte(a, 3) == NthByte(b, 3)
    requires NthByte(a, 4) == NthByte(b, 4) && NthByte(a, 5) == NthByte(b, 5)
    requires NthByte(a, 6) == NthByte(b, 6) && NthByte(a, 7) == NthByte(b, 7)
    ensures a == b
  {
  }

  lemma WordBytesDiffer(a: bv64, b: bv64)
    ensures WordBytes(a) == WordBytes(b) <==> a == b
  {
    hide NthByte;
    if WordBytes(a) == WordBytes(b) {
      forall i | 0 <= i < 8 ensures NthByte(a, i) == NthByte(b, i) {
        assert WordBytes(a)[i] == WordBytes(b)[i];
      }
      BytesDetermine(a, b);
    }
  }

  /** The tag of a payload with one byte exchanged is another one, wherever the byte is. */
  lemma TagDetectsChange(keyId: bv32, nonce: bv64, payload: seq<Byte>, i: nat, byte: Byte)
    requires i < |payload|
    ensures Tag(keyId, nonce, payload[i := byte]) == Tag(keyId, nonce, payload) <==> byte == payload[i]
  {
    hide WordBytes, AbsorbByte;
    var changed := payload[i := byte];
    WordBytesDiffer(Accumulator(keyId, nonce, changed), Accumulator(keyId, nonce, payload));
    AccumulatorsStayApart(keyId, nonce, changed, keyId, nonce, payload, i + 1);
    assert changed[..i + 1][..i] == payload[..i + 1][..i] == payload[..i];
    var before := Accumulator(keyId, nonce, payload[..i]);
    AbsorbDiffers(before, before, i, byte, payload[i]);
  }

  /** The tag of a payload differs under another key with its nonce, and under another nonce with
      its key. */
  lemma TagBindsKeyAndNonce(k1: bv32, n1: bv64, k2: bv32, n2: bv64, payload: seq<Byte>)
    ensures n1 == n2 ==> (Tag(k1, n1, payload) == Tag(k2, n2, payload) <==> k1 == k2)
    ensures k1 == k2 ==> (Tag(k1, n1, payload) == Tag(k2, n2, payload) <==> n1 == n2)
  {
    hide WordBytes, AbsorbByte;
    WordBytesDiffer(Accumulator(k1, n1, payload), Accumulator(k2, n2, payload));
    AccumulatorsStayApart(k1, n1, payload, k2, n2, payload, 0);
    assert payload[..0] == [];
    InitialAccumulatorsDiffer(k1, n1, k2, n2);
    hide InitialAccumulator;
  }

  lemma InitialAccumulatorsDiffer(k1: bv32, n1: bv64, k2: bv32, n2: bv64)
    ensures n1 == n2 ==> (InitialAccumulator(k1, n1) == InitialAccumulator(k2, n2) <==> k1 == k2)
    ensures k1 == k2 ==> (InitialAccumulator(k1, n1) == InitialAccumulator(k2, n2) <==> n1 == n2)
  {
    TagKeyInverts(Widened(k1));
    TagKeyInverts(Widened(k2));
    TagNonceInverts(n1);
    TagNonceInverts(n2);
    WidenedDiffer(k1, k2);
    hide Widened, TagKey, TagNonce, TagKeyInverse, TagNonceInverse;
    SumsDiffer(TagKey(Widened(k1)), TagNonce(n1), TagKey(Widened(k2)), TagNonce(n2));
    hide Sum;
  }

  /** The first bytes of a payload leave an accumulator that absorbs the next one. */
  lemma AccumulatorStep(keyId: bv32, nonce: bv64, payload: seq<Byte>, n: nat)
    requires n < |payload|
    ensures Accumulator(keyId, nonce, payload[..n + 1])
            == AbsorbByte(Accumulator(keyId, nonce, payload[..n]), n, payload[n])
    ensures Accumulator(keyId, nonce, payload[..0]) == InitialAccumulator(keyId, nonce)
  {
    assert payload[..n + 1][..n] == payload[..n];
  }

  lemma KnownAbsorptions()
    ensures InitialAccumulator(7, 1) == 0x5384_5412_7B0B_6493
    ensures AbsorbByte(0x5384_5412_7B0B_6493, 0, 0x41) == 0x047E_1CE2_8B7C_5F11
    ensures AbsorbByte(0x047E_1CE2_8B7C_5F11, 1, 0x42) == 0x0364_9E60_8A41_1660
    ensures AbsorbByte(0x0364_9E60_8A41_1660, 2, 0x43) == 0x9BE3_C15D_FE2D_A400
    ensures AbsorbByte(0x9BE3_C15D_FE2D_A400, 3, 0x44) == 0xC833_8669_65B5_A049
    ensures AbsorbByte(0xC833_8669_65B5_A049, 4, 0x45) == 0x3240_9AA1_73EB_ABDB
    ensures AbsorbByte(0x3240_9AA1_73EB_ABDB, 5, 0x46) == 0xD01E_44FF_2EA0_AE52
    ensures AbsorbByte(0xD01E_44FF_2EA0_AE52, 6, 0x47) == 0x69B2_5387_6106_D6EE
    ensures AbsorbByte(0x69B2_5387_6106_D6EE, 7, 0x48) == 0x465A_B13B_D3E6_E357
    ensures AbsorbByte(0x465A_B13B_D3E6_E357, 8, 0x49) == 0x4A0F_2522_2A89_2F93
  {
  }

  lemma KnownWordBytes()
    ensures WordBytes(0x4A0F_2522_2A89_2F93) == [0x93, 0x2F, 0x89, 0x2A, 0x22, 0x25, 0x0F, 0x4A]
  {
    var word: bv64 := 0x4A0F_2522_2A89_2F93;
    assert NthByte(word, 0) == 0x93 && NthByte(word, 1) == 0x2F && NthByte(word, 2) == 0x89
           && NthByte(word, 3) == 0x2A && NthByte(word, 4) == 0x22 && NthByte(word, 5) == 0x25
           && NthByte(word, 6) == 0x0F && NthByte(word, 7) == 0x4A;
    hide NthByte;
  }

  /** One tag worked out, of a payload that goes once round the word; it fixes constants, shifts and
      byte order. */
  lemma KnownTag()
    ensures Tag(7, 1, [0x41, 0x42, 0x43, 0x44, 0x45, 0x46, 0x47, 0x48, 0x49])
            == [0x93, 0x2F, 0x89, 0x2A, 0x22, 0x25, 0x0F, 0x4A]
  {
    hide AbsorbByte, InitialAccumulator, Accumulator, WordBytes;
    KnownAbsorptions();
    KnownWordBytes();
    var payload: seq<Byte> := [0x41, 0x42, 0x43, 0x44, 0x45, 0x46, 0x47, 0x48, 0x49];
    AccumulatorStep(7, 1, payload, 0);
    AccumulatorStep(7, 1, payload, 1);
    AccumulatorStep(7, 1, payload, 2);
    AccumulatorStep(7, 1, payload, 3);
    AccumulatorStep(7, 1, payload, 4);
    AccumulatorStep(7, 1, payload, 5);
    AccumulatorStep(7, 1, payload, 6);
    AccumulatorStep(7, 1, payload, 7);
    AccumulatorStep(7, 1, payload, 8);
    assert payload[..9] == payload;
  }

  method ExampleTag(keyId: bv32, nonce: bv64, payload: seq<Byte>) returns (tag: seq<Byte>)
    ensures tag == Tag(keyId, nonce, payload)
  {
    var acc := InitialAccumulator(keyId, nonce);
    for index := 0 to |payload|
      invariant acc == Accumulator(keyId, nonce, payload[..index])
    {
      assert payload[..index + 1][..index] == payload[..index];
      acc := AbsorbByte(acc, index, payload[index]);
    }
    assert payload[..|payload|] == payload;
    tag := WordBytes(acc);
  }

  /** Appends the tag to `out`. */
  method Sign(keyId: bv32, nonce: bv64, payload: seq<Byte>, out: seq<Byte>) returns (signed: seq<Byte>)
    ensures |signed| == |out| + 8 && signed[..|out|] == out
    ensures signed[|out|..] == Tag(keyId, nonce, payload)
  {
    var tag := ExampleTag(keyId, nonce, payload);
    signed := out + tag;
  }

  /** Accepts the tag that signing the same input appends, and no other. */
  method Verify(keyId: bv32, nonce: bv64, payload: seq<Byte>, tag: seq<Byte>) returns (accepted: bool)
    ensures accepted <==> tag == Tag(keyId, nonce, payload)
  {
    var expected := ExampleTag(keyId, nonce, payload);
    accepted := tag == expected;
  }

  /** One packet: seal, sign the sealed bytes, verify them, open. Every packet is delivered
      with its tag accepted and its payload intact. */
  method Deliver(keyId: bv32, nonce: bv64, payload: array<Byte>) returns (accepted: bool)
    modifies payload
    ensures payload[..] == old(payload[..]) && accepted
  {
    Seal(keyId, nonce, payload);
    var signed := Sign(keyId, nonce, payload[..], []);
    accepted := Verify(keyId, nonce, payload[..], signed);
    Open(keyId, nonce, payload);
    OpenAfterSeal(keyId, nonce, keyId, nonce, old(payload[..]));
  }
}
