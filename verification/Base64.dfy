/** Base64 as `btoa` and `atob` do it, and the two strict readers built on them (sections 4 and 5 of
    RFC 4648). */
module Base64 {
  import opened Store

  type Bytes = seq<int>

  predicate AllBytes(b: Bytes) { forall i | 0 <= i < |b| :: 0 <= b[i] < 256 }

  // ---- the alphabet ----

  function Char64(s: int): (c: char)
    requires 0 <= s < 64
  {
    if s < 26 then (s + 65) as char
    else if s < 52 then (s + 71) as char
    else if s < 62 then (s - 4) as char
    else if s == 62 then '+' else '/'
  }

  /** The value of a letter, -1 where it is none. */
  function Value64(c: char): (s: int)
    ensures -1 <= s < 64
  {
    if 'A' <= c <= 'Z' then c as int - 65
    else if 'a' <= c <= 'z' then c as int - 71
    else if '0' <= c <= '9' then c as int + 4
    else if c == '+' then 62 else if c == '/' then 63 else -1
  }

  predicate IsAsciiSpace(c: char) { c == ' ' || c == '\t' || c == '\n' || c as int == 12 || c == '\r' }

  predicate Letters(s: string) { forall i | 0 <= i < |s| :: Value64(s[i]) >= 0 }

  // ---- writing ----

  predicate AllSextets(x: seq<int>) { forall i | 0 <= i < |x| :: 0 <= x[i] < 64 }

  /** Six bits at a time, the last ones filled up with zeros. */
  function Sextets(b: Bytes): (x: seq<int>)
    requires AllBytes(b)
    ensures AllSextets(x) && |x| % 4 == if |b| % 3 == 0 then 0 else |b| % 3 + 1
  {
    if |b| == 0 then []
    else if |b| == 1 then [b[0] / 4, b[0] % 4 * 16]
    else if |b| == 2 then [b[0] / 4, b[0] % 4 * 16 + b[1] / 16, b[1] % 16 * 4]
    else [b[0] / 4, b[0] % 4 * 16 + b[1] / 16, b[1] % 16 * 4 + b[2] / 64, b[2] % 64] + Sextets(b[3..])
  }

  function Spell(x: seq<int>): (s: string)
    requires AllSextets(x)
    ensures |s| == |x| && forall i | 0 <= i < |x| :: s[i] == Char64(x[i])
  {
    seq(|x|, i requires 0 <= i < |x| => Char64(x[i]))
  }

  /** Without padding. */
  function Bare(b: Bytes): string
    requires AllBytes(b)
  {
    Spell(Sextets(b))
  }

  function Pads(n: nat): string { if n % 3 == 1 then "==" else if n % 3 == 2 then "=" else "" }

  /** `btoa`. */
  function Encode(b: Bytes): string
    requires AllBytes(b)
  {
    Bare(b) + Pads(|b|)
  }

  // ---- reading ----

  function Values(s: string): (x: seq<int>)
    ensures |x| == |s| && forall i | 0 <= i < |s| :: x[i] == Value64(s[i])
  {
    seq(|s|, i requires 0 <= i < |s| => Value64(s[i]))
  }

  /** Eight bits at a time; bits left over are ignored. */
  function Octets(x: seq<int>): Bytes {
    if |x| < 2 then []
    else if |x| == 2 then [x[0] * 4 + x[1] / 16]
    else if |x| == 3 then [x[0] * 4 + x[1] / 16, x[1] % 16 * 16 + x[2] / 4]
    else [x[0] * 4 + x[1] / 16, x[1] % 16 * 16 + x[2] / 4, x[2] % 4 * 64 + x[3]] + Octets(x[4..])
  }

  function WithoutSpace(s: string): string {
    if s == "" then "" else (if IsAsciiSpace(s[0]) then "" else [s[0]]) + WithoutSpace(s[1..])
  }

  function DropOnePad(s: string): string { if s != "" && s[|s| - 1] == '=' then s[..|s| - 1] else s }

  /** Without white space and, where the length is right, without padding. */
  function Stripped(value: string): string {
    var s := WithoutSpace(value);
    if |s| % 4 == 0 then DropOnePad(DropOnePad(s)) else s
  }

  /** `atob`: white space ignored, padding optional, left-over bits ignored. */
  function Atob(value: string): Option<Bytes> {
    var t := Stripped(value);
    if |t| % 4 == 1 || !Letters(t) then None else Some(Octets(Values(t)))
  }

  // ---- reading back ----

  lemma {:induction false} OctetsBack(b: Bytes)
    requires AllBytes(b)
    ensures Octets(Sextets(b)) == b
  {
    if |b| == 1 {
    } else if |b| == 2 {
    } else if |b| >= 3 {
      OctetsBack(b[3..]);
      assert Sextets(b)[4..] == Sextets(b[3..]);
      assert [b[0], b[1], b[2]] + b[3..] == b;
    }
  }

  lemma SpellingBack(x: seq<int>)
    requires AllSextets(x)
    ensures Letters(Spell(x)) && Values(Spell(x)) == x
  {
    forall i | 0 <= i < |x| ensures Value64(Spell(x)[i]) == x[i] { }
  }

  lemma BareBack(b: Bytes)
    requires AllBytes(b)
    ensures Letters(Bare(b)) && Octets(Values(Bare(b))) == b
    ensures |Bare(b)| % 4 == if |b| % 3 == 0 then 0 else |b| % 3 + 1
  {
    SpellingBack(Sextets(b));
    OctetsBack(b);
  }

  predicate Spaceless(s: string) { forall i | 0 <= i < |s| :: !IsAsciiSpace(s[i]) }

  lemma {:induction false} SpacelessStays(s: string)
    requires Spaceless(s)
    ensures WithoutSpace(s) == s
  {
    if s != "" { SpacelessStays(s[1..]); }
  }

  /** Reading what was written gives the bytes back, for all byte strings. */
  lemma AtobBtoa(b: Bytes)
    requires AllBytes(b)
    ensures Atob(Encode(b)) == Some(b)
  {
    BareBack(b);
    AtobOf(Bare(b), |b|);
  }

  lemma PadsFill(s: string, n: nat)
    requires |s| % 4 == if n % 3 == 0 then 0 else n % 3 + 1
    ensures |s + Pads(n)| % 4 == 0
  {
  }

  lemma LettersAreSpaceless(s: string, n: nat)
    requires Letters(s)
    ensures Spaceless(s + Pads(n))
  {
  }

  lemma LettersEndBare(s: string)
    requires Letters(s)
    ensures DropOnePad(s) == s
  {
  }

  lemma OneDrop(s: string)
    ensures DropOnePad(s + "=") == s
  {
  }

  lemma PadsDrop(s: string, n: nat)
    requires Letters(s)
    ensures DropOnePad(DropOnePad(s + Pads(n))) == s
  {
    LettersEndBare(s);
    OneDrop(s);
    OneDrop(s + "=");
    assert s + "==" == (s + "=") + "=";
    assert s + "" == s;
  }

  lemma StrippedOf(s: string, n: nat)
    requires Letters(s) && |s| % 4 == if n % 3 == 0 then 0 else n % 3 + 1
    ensures Stripped(s + Pads(n)) == s
  {
    LettersAreSpaceless(s, n);
    SpacelessStays(s + Pads(n));
    PadsFill(s, n);
    PadsDrop(s, n);
  }

  lemma AtobOf(s: string, n: nat)
    requires Letters(s) && |s| % 4 == if n % 3 == 0 then 0 else n % 3 + 1
    ensures Atob(s + Pads(n)) == Some(Octets(Values(s)))
  {
    StrippedOf(s, n);
  }

  lemma {:induction false} OctetsAreBytes(x: seq<int>)
    requires AllSextets(x)
    ensures AllBytes(Octets(x))
  {
    if |x| >= 4 { OctetsAreBytes(x[4..]); }
  }

  lemma AtobGivesBytes(value: string)
    requires Atob(value).Some?
    ensures AllBytes(Atob(value).value)
  {
    OctetsAreBytes(Values(Stripped(value)));
  }

  // ---- the envelope's reader ----

  /** One character for each byte, as `String.fromCharCode` makes them. */
  function Binary(b: Bytes): string
    requires AllBytes(b)
  {
    seq(|b|, i requires 0 <= i < |b| => b[i] as char)
  }

  function Codes(binary: string): Bytes { seq(|binary|, i requires 0 <= i < |binary| => binary[i] as int) }

  lemma CodesOfBinary(b: Bytes)
    requires AllBytes(b)
    ensures Codes(Binary(b)) == b
  {
  }

  method ToBase64(bytes: Bytes) returns (r: string)
    requires AllBytes(bytes)
    ensures r == Encode(bytes)
  {
    var binary := "";
    var i := 0;
    while i < |bytes|
      invariant 0 <= i <= |bytes| && binary == Binary(bytes[..i])
    {
      assert bytes[..i + 1][..i] == bytes[..i];
      binary := binary + [bytes[i] as char];
      i := i + 1;
    }
    assert bytes[..i] == bytes;
    CodesOfBinary(bytes);
    r := Encode(Codes(binary));
  }

  function FromBase64(value: string): Option<Bytes> {
    match Atob(value)
    case None => None
    case Some(b) => AtobGivesBytes(value); if Encode(b) == value then Some(b) else None
  }

  method ReadBase64(value: string) returns (r: Option<Bytes>)
    ensures r == FromBase64(value)
  {
    var decoded := Atob(value);
    if decoded.None? { return None; }
    AtobGivesBytes(value);
    var bytes := FillBytes(decoded.value);
    var again := ToBase64(bytes);
    r := if again == value then Some(bytes) else None;
  }

  method FillBytes(binary: Bytes) returns (bytes: Bytes)
    ensures bytes == binary
  {
    var buffer := new int[|binary|];
    var i := 0;
    while i < |binary|
      invariant 0 <= i <= |binary| && buffer[..i] == binary[..i]
    {
      buffer[i] := binary[i];
      i := i + 1;
    }
    bytes := buffer[..];
  }

  /** It accepts exactly the strings the writer writes. */
  lemma StrictExactly(value: string, b: Bytes)
    requires AllBytes(b)
    ensures FromBase64(value) == Some(b) <==> value == Encode(b)
  {
    AtobBtoa(b);
  }

  // ---- the URL alphabet ----

  function UrlChar(c: char): char { if c == '+' then '-' else if c == '/' then '_' else c }
  function PlainChar(c: char): char { if c == '-' then '+' else if c == '_' then '/' else c }

  function ToUrl(s: string): string { seq(|s|, i requires 0 <= i < |s| => UrlChar(s[i])) }
  function FromUrl(s: string): string { seq(|s|, i requires 0 <= i < |s| => PlainChar(s[i])) }

  predicate UrlLetters(s: string) { forall i | 0 <= i < |s| :: s[i] != '+' && s[i] != '/' && Value64(PlainChar(s[i])) >= 0 }

  function WithoutPads(s: string): string {
    if s != "" && s[|s| - 1] == '=' then WithoutPads(s[..|s| - 1]) else s
  }

  /** `base64url`. */
  function UrlEncode(b: Bytes): string
    requires AllBytes(b)
  {
    WithoutPads(ToUrl(Encode(b)))
  }

  lemma UrlIsBare(b: Bytes)
    requires AllBytes(b)
    ensures UrlEncode(b) == ToUrl(Bare(b)) && UrlLetters(UrlEncode(b)) && '.' !in UrlEncode(b)
  {
    BareBack(b);
    UrlSpelling(Bare(b), |b|);
    PadsStrip(ToUrl(Bare(b)), |b|);
  }

  lemma UrlSpelling(s: string, n: nat)
    requires Letters(s) && '=' !in s && '.' !in s
    ensures UrlLetters(ToUrl(s)) && '=' !in ToUrl(s) && '.' !in ToUrl(s) && ToUrl(s + Pads(n)) == ToUrl(s) + Pads(n)
  {
  }

  lemma OnePadOff(u: string)
    ensures WithoutPads(u + "=") == WithoutPads(u)
  {
    assert (u + "=")[..|u|] == u;
  }

  lemma NoPads(u: string)
    requires '=' !in u
    ensures WithoutPads(u) == u
  {
  }

  lemma PadsStrip(u: string, n: nat)
    requires '=' !in u
    ensures WithoutPads(u + Pads(n)) == u
  {
    NoPads(u);
    OnePadOff(u);
    OnePadOff(u + "=");
    assert u + "==" == (u + "=") + "=";
    assert u + "" == u;
  }

  function Repad(s: string): string {
    s + if |s| % 4 == 1 then "===" else if |s| % 4 == 2 then "==" else if |s| % 4 == 3 then "=" else ""
  }

  function UrlDecode(value: string): Option<Bytes> {
    if !UrlLetters(value) then None else Atob(Repad(FromUrl(value)))
  }

  method WriteUrl(bytes: Bytes) returns (r: string)
    requires AllBytes(bytes)
    ensures r == UrlEncode(bytes)
  {
    var plain := ToBase64(bytes);
    r := WithoutPads(ToUrl(plain));
  }

  method ReadUrl(value: string) returns (r: Option<Bytes>)
    ensures r == UrlDecode(value)
  {
    if !UrlLetters(value) { return None; }
    var decoded := Atob(Repad(FromUrl(value)));
    if decoded.None? { return None; }
    var bytes := FillBytes(decoded.value);
    r := Some(bytes);
  }

  /** Decoding what was encoded gives the bytes back, for all byte strings. */
  lemma UrlBack(b: Bytes)
    requires AllBytes(b)
    ensures UrlDecode(UrlEncode(b)) == Some(b)
  {
    UrlIsBare(b);
    BareBack(b);
    var s := Bare(b);
    forall i | 0 <= i < |s| ensures PlainChar(UrlChar(s[i])) == s[i] {
      assert Value64(s[i]) >= 0;
    }
    assert FromUrl(ToUrl(s)) == s;
    assert Repad(s) == Encode(b);
    AtobBtoa(b);
  }

  lemma SpareLetter(c: char)
    requires 'A' <= c <= 'P'
    ensures UrlLetters(['A', c]) && FromUrl(['A', c]) == ['A', c]
    ensures Repad(['A', c]) == ['A', c] + Pads(1) && Values(['A', c]) == [0, c as int - 65]
  {
  }

  /** The other way it is lenient: bits a last letter has to spare are ignored. */
  lemma UrlIgnoresSpareBits(c: char)
    requires 'A' <= c <= 'P'
    ensures UrlDecode(['A', c]) == Some([0])
  {
    SpareLetter(c);
    AtobOf(['A', c], 1);
  }
}
