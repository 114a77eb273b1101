/** The password exchange of MySQL 4.1 and later (src/network-mysqld-proto.c:929-1134), for any hash
    function with digests of 20 bytes in the place of SHA1. */
module Password {
  import opened Common

  type Text = seq<bv8>

  const DIGEST: nat := 20

  ghost predicate IsHash(hash: Text -> Text) {
    forall t: Text {:trigger hash(t)} :: |hash(t)| == DIGEST
  }

  function Xor(a: Text, b: Text): (r: Text)
    requires |a| == |b|
    ensures |r| == |a|
  {
    seq(|a|, i requires 0 <= i < |a| => a[i] ^ b[i])
  }

  lemma XorTwice(a: Text, b: Text)
    requires |a| == |b|
    ensures Xor(Xor(a, b), b) == a && Xor(b, Xor(a, b)) == a
  {
    forall i | 0 <= i < |a|
      ensures a[i] ^ b[i] ^ b[i] == a[i] && b[i] ^ (a[i] ^ b[i]) == a[i]
    {
      XorByte(a[i], b[i]);
    }
  }

  lemma XorByte(x: bv8, y: bv8)
    ensures x ^ y ^ y == x && y ^ (x ^ y) == x
  {
  }

  /** The challenge proper: a 21st byte only separates it from what follows in the packet. */
  function Trimmed(challenge: Text): Text {
    if |challenge| == DIGEST + 1 then challenge[..DIGEST] else challenge
  }

  /** The response to a challenge: the hashed password, masked with a hash only both sides can compute. */
  ghost function Response(hash: Text -> Text, challenge: Text, hashed: Text): Text
    requires IsHash(hash) && |hashed| == DIGEST
  {
    Xor(hash(Trimmed(challenge) + hash(hashed)), hashed)
  }

  /** A 21st byte of the challenge does not matter. */
  lemma SeparatorIgnored(hash: Text -> Text, challenge: Text, hashed: Text)
    requires IsHash(hash) && |hashed| == DIGEST && |challenge| == DIGEST + 1
    ensures Response(hash, challenge, hashed) == Response(hash, challenge[..20], hashed)
  {
    assert Trimmed(challenge) == Trimmed(challenge[..20]);
  }

  method XorInto(dest: array<bv8>, other: Text)
    requires dest.Length == |other|
    modifies dest
    ensures dest[..] == Xor(old(dest[..]), other)
  {
    var i := 0;
    while i < dest.Length
      invariant 0 <= i <= dest.Length
      invariant forall k {:trigger dest[k]} :: 0 <= k < dest.Length ==>
        dest[k] == if k < i then old(dest[k]) ^ other[k] else old(dest[k])
    {
      dest[i] := dest[i] ^ other[i];
      i := i + 1;
    }
  }

  method Scramble(hash: Text -> Text, challenge: Text, hashed: Text) returns (r: Option<Text>)
    requires IsHash(hash)
    ensures r.Some? <==> |challenge| in {DIGEST, DIGEST + 1} && |hashed| == DIGEST
    ensures r.Some? ==> r.value == Response(hash, challenge, hashed)
  {
    if !(|challenge| == DIGEST || |challenge| == DIGEST + 1) { return None; }
    if |hashed| != DIGEST { return None; }
    var step2 := hash(hashed);
    var digest := hash(Trimmed(challenge) + step2);
    var response := new bv8[DIGEST](i requires 0 <= i < DIGEST => digest[i]);
    assert response[..] == digest;
    XorInto(response, hashed);
    r := Some(response[..]);
  }

  /** Recovers the hashed password from a response; it accepts only the 20-byte form of the challenge. */
  method Unscramble(hash: Text -> Text, challenge: Text, response: Text, doubleHashed: Text) returns (r: Option<Text>)
    requires IsHash(hash)
    ensures r.Some? <==> |response| == DIGEST && |challenge| == DIGEST && |doubleHashed| == DIGEST
    ensures r.Some? ==> r.value == Xor(response, hash(challenge + doubleHashed))
  {
    if |response| != DIGEST || |challenge| != DIGEST || |doubleHashed| != DIGEST { return None; }
    var digest := hash(challenge + doubleHashed);
    var hashed := new bv8[DIGEST](i requires 0 <= i < DIGEST => response[i]);
    assert hashed[..] == response;
    XorInto(hashed, digest);
    r := Some(hashed[..]);
  }

  /** Accepts a response exactly when it is the scramble of some password hash whose own hash is the stored
      one. */
  method Check(hash: Text -> Text, challenge: Text, response: Text, doubleHashed: Text) returns (same: bool)
    requires IsHash(hash)
    ensures same ==> |challenge| in {DIGEST, DIGEST + 1} && |response| == DIGEST && |doubleHashed| == DIGEST
    ensures |challenge| in {DIGEST, DIGEST + 1} && |response| == DIGEST && |doubleHashed| == DIGEST ==>
      (same <==>
        exists hashed: Text ::
          |hashed| == DIGEST && hash(hashed) == doubleHashed && response == Response(hash, challenge, hashed))
  {
    if |response| != DIGEST || !(|challenge| == DIGEST || |challenge| == DIGEST + 1) ||
      |doubleHashed| != DIGEST { return false; }
    var trimmed := Trimmed(challenge);
    var hashed := Unscramble(hash, trimmed, response, doubleHashed);
    var step2 := hash(hashed.value);
    same := step2 == doubleHashed;
    ghost var mask := hash(trimmed + doubleHashed);
    XorTwice(response, mask);
    assert Xor(mask, hashed.value) == response;
    assert same ==> response == Response(hash, challenge, hashed.value);
    forall h: Text | |h| == DIGEST && hash(h) == doubleHashed && response == Response(hash, challenge, h)
      ensures h == hashed.value
    {
      assert response == Xor(mask, h);
      XorSame(mask, h);
    }
  }

  lemma XorSame(mask: Text, h: Text)
    requires |mask| == |h|
    ensures Xor(Xor(mask, h), mask) == h
  {
    forall i | 0 <= i < |h|
      ensures mask[i] ^ h[i] ^ mask[i] == h[i]
    {
      XorByte(h[i], mask[i]);
    }
  }

  /** The protocol works: the response to any challenge, made with the right password, is accepted against
      the stored double hash, and a 20-byte challenge gives back exactly the hashed password. */
  method Login(hash: Text -> Text, password: Text, challenge: Text) returns (accepted: bool, recovered: Option<Text>)
    requires IsHash(hash) && |challenge| in {DIGEST, DIGEST + 1}
    ensures accepted
    ensures recovered == if |challenge| == DIGEST then Some(hash(password)) else None
  {
    var hashed := hash(password);
    var doubleHashed := hash(hashed);
    var response := Scramble(hash, challenge, hashed);
    accepted := Check(hash, challenge, response.value, doubleHashed);
    recovered := Unscramble(hash, challenge, response.value, doubleHashed);
    XorSame(hash(Trimmed(challenge) + doubleHashed), hashed);
  }
}
