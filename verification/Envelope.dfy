/** The ciphertext envelope over an ideal authenticated cipher. */
module Envelope {
  import opened Store
  import B = Base64

  const VERSION := 1
  const ALGORITHM := "AES-GCM-256"
  const IV_BYTES := 12

  /** A stored JSON value: one that has a numeric `v` and a string `alg`, or any other. The other
      three fields are there or not. */
  datatype Stored =
    | Plain(json: string)
    | Shaped(v: int, alg: string, kid: Option<string>, iv: Option<string>, ct: Option<Cipher>)

  /** Ideal: a ciphertext is what was put in. `Noise` is anything else, base64 or not. */
  datatype Cipher = Sealed(key: int, nonce: B.Bytes, aad: string, plain: Stored) | Noise(base64: bool)

  datatype Failure = NotAnEnvelope | UnsupportedVersion | UnsupportedAlgorithm | Malformed | AuthenticationFailed

  datatype Opened = Value(value: Stored) | Failed(failure: Failure)

  predicate IsEnvelope(s: Stored) { s.Shaped? }

  /** What the tag covers besides the ciphertext. */
  function Aad(kid: string, location: string): string { "k1|1|" + kid + "|" + location }

  /** `decodeEnvelope`: the first thing wrong, if any. */
  function Refusal(s: Stored): Option<Failure> {
    if s.Plain? then Some(NotAnEnvelope)
    else if s.v != VERSION then Some(UnsupportedVersion)
    else if s.alg != ALGORITHM then Some(UnsupportedAlgorithm)
    else if s.kid.None? || s.kid.value == "" || s.iv.None? || s.ct.None? then Some(Malformed)
    else if B.FromBase64(s.iv.value).None? || |B.FromBase64(s.iv.value).value| != IV_BYTES then Some(Malformed)
    else if s.ct.value.Noise? && !s.ct.value.base64 then Some(Malformed)
    else None
  }

  function Open(key: int, location: string, s: Stored): Opened {
    if Refusal(s).Some? then Failed(Refusal(s).value)
    else if s.ct.value.Sealed? && s.ct.value.key == key && s.ct.value.aad == Aad(s.kid.value, location)
            && Some(s.ct.value.nonce) == B.FromBase64(s.iv.value)
    then Value(s.ct.value.plain)
    else Failed(AuthenticationFailed)
  }

  predicate IsNonce(iv: B.Bytes) { B.AllBytes(iv) && |iv| == IV_BYTES }

  function Seal(key: int, kid: string, location: string, iv: B.Bytes, value: Stored): (s: Stored)
    requires IsNonce(iv)
    ensures s.Shaped?
  {
    Shaped(VERSION, ALGORITHM, Some(kid), Some(B.Encode(iv)), Some(Sealed(key, iv, Aad(kid, location), value)))
  }

  lemma SameTail(a: string, b: string, c: string)
    ensures a + b == a + c <==> b == c
  {
    if a + b == a + c { assert (a + b)[|a|..] == b && (a + c)[|a|..] == c; }
  }

  /** A sealed value opens under its own key and at its own place, and nowhere else. */
  lemma OpensExactly(key: int, kid: string, location: string, iv: B.Bytes, value: Stored, key2: int, location2: string)
    requires IsNonce(iv) && kid != ""
    ensures Open(key2, location2, Seal(key, kid, location, iv, value))
         == if key2 == key && location2 == location then Value(value) else Failed(AuthenticationFailed)
  {
    B.StrictExactly(B.Encode(iv), iv);
    SameTail("k1|1|" + kid + "|", location, location2);
  }

  /** Without a key id what was sealed cannot be read again. */
  lemma NeedsAKeyId(key: int, location: string, iv: B.Bytes, value: Stored)
    requires IsNonce(iv)
    ensures Open(key, location, Seal(key, "", location, iv, value)) == Failed(Malformed)
  {
  }

  function WithKeyId(s: Stored, kid: string): Stored {
    if s.Shaped? then Shaped(s.v, s.alg, Some(kid), s.iv, s.ct) else s
  }

  /** Under an edited key id the envelope opens exactly where the two joined texts agree. */
  lemma EditedKeyId(key: int, kid: string, location: string, iv: B.Bytes, value: Stored, kid2: string, location2: string)
    requires IsNonce(iv) && kid2 != ""
    ensures Open(key, location2, WithKeyId(Seal(key, kid, location, iv, value), kid2))
         == if kid2 + ("|" + location2) == kid + ("|" + location) then Value(value) else Failed(AuthenticationFailed)
  {
    B.StrictExactly(B.Encode(iv), iv);
    SameTail("k1|1|", kid2 + ("|" + location2), kid + ("|" + location));
    AadIs(kid, location);
    AadIs(kid2, location2);
  }

  /** With its version, algorithm or nonce edited it does not open: each is looked at before the next, and
      only the nonce it was sealed with, in its one spelling, passes authentication. */
  lemma EditedFields(key: int, kid: string, location: string, iv: B.Bytes, value: Stored, v: int, alg: string, text: string)
    requires IsNonce(iv) && kid != ""
    ensures var got := Open(key, location,
              Shaped(v, alg, Some(kid), Some(text), Seal(key, kid, location, iv, value).ct));
      && (got == Value(value) <==> v == 1 && alg == "AES-GCM-256" && text == B.Encode(iv))
      && (got.Value? ==> got.value == value)
      && (got == Failed(UnsupportedVersion) <==> v != 1)
      && (got == Failed(UnsupportedAlgorithm) <==> v == 1 && alg != "AES-GCM-256")
      && (got == Failed(AuthenticationFailed)
          <==> v == 1 && alg == "AES-GCM-256" && text != B.Encode(iv)
               && exists other: B.Bytes :: IsNonce(other) && text == B.Encode(other))
  {
    B.StrictExactly(text, iv);
    if B.FromBase64(text).Some? {
      var other := B.FromBase64(text).value;
      B.AtobGivesBytes(text);
      B.StrictExactly(text, other);
    }
    if other: B.Bytes :| IsNonce(other) && text == B.Encode(other) {
      B.StrictExactly(text, other);
    }
  }

  /** One such pair: what was sealed under `a|b` for the place `c` opens under `a` at `b|c`. */
  lemma ConfusedKeyId(key: int, iv: B.Bytes, value: Stored)
    requires IsNonce(iv)
    ensures Open(key, "b|c", WithKeyId(Seal(key, "a|b", "c", iv, value), "a")) == Value(value)
    ensures Open(key, "b|c", Seal(key, "a|b", "c", iv, value)) == Failed(AuthenticationFailed)
  {
    assert "a" + ("|" + "b|c") == "a|b" + ("|" + "c");
    EditedKeyId(key, "a|b", "c", iv, value, "a", "b|c");
    OpensExactly(key, "a|b", "c", iv, value, key, "b|c");
  }

  lemma AadIs(kid: string, location: string)
    ensures Aad(kid, location) == "k1|1|" + (kid + ("|" + location))
  {
  }

  /** Key ids without a bar leave no room: then the id and the place must both be the same. */
  lemma BarlessIdsAreBound(kid: string, location: string, kid2: string, location2: string)
    requires '|' !in kid && '|' !in kid2
    ensures kid2 + ("|" + location2) == kid + ("|" + location) <==> kid2 == kid && location2 == location
  {
    if kid2 + ("|" + location2) == kid + ("|" + location) {
      NotLonger(kid, location, kid2, location2);
      NotLonger(kid2, location2, kid, location);
      SplitEqual(kid, location, kid2, location2);
    }
  }

  lemma NotLonger(a: string, s: string, b: string, t: string)
    requires '|' !in b && a + ("|" + s) == b + ("|" + t)
    ensures |b| <= |a|
  {
    assert (a + ("|" + s))[|a|] == '|';
    assert forall i | 0 <= i < |b| :: (b + ("|" + t))[i] == b[i];
  }

  lemma SplitEqual(a: string, s: string, b: string, t: string)
    requires |a| == |b| && a + ("|" + s) == b + ("|" + t)
    ensures a == b && s == t
  {
    assert (a + ("|" + s))[..|a|] == a && (b + ("|" + t))[..|a|] == b;
    assert (a + ("|" + s))[|a| + 1..] == s && (b + ("|" + t))[|a| + 1..] == t;
  }

  /** No envelope holds itself. */
  lemma NeverItself(key: int, location: string, s: Stored)
    requires Open(key, location, s).Value?
    ensures Open(key, location, s).value != s
  {
  }
}
