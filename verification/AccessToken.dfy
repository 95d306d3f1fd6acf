/** Access tokens: `v1.payload.mac`. The MAC is any function of the signed text. */
module AccessToken {
  import opened Store
  import opened Json
  import B = Base64
  import Utf8

  const VERSION := "v1"
  const LABEL := "aba/auth/access/v1"

  datatype Claims = Claims(sub: Text, sid: Text, iat: int, exp: int)

  /** The keyed digest: signed text to bytes. */
  type Mac = string -> B.Bytes

  ghost predicate GivesBytes(mac: Mac) { forall s :: B.AllBytes(mac(s)) }

  // ---- claims as JSON ----

  function FieldsOf(c: Claims): seq<Field> {
    [Field(U("sub"), Str(c.sub)), Field(U("sid"), Str(c.sid)), Field(U("iat"), Num(c.iat)), Field(U("exp"), Num(c.exp))]
  }

  predicate ClaimUnits(c: Claims) { Utf8.Units(c.sub) && Utf8.Units(c.sid) }

  /** `JSON.parse` on the text of an object: its fields by name, in whatever order, spacing and company
      they came; nothing for any other text. */
  type Parser = Text -> Option<map<Text, Value>>

  const SUB := U("sub")
  const SID := U("sid")
  const IAT := U("iat")
  const EXP := U("exp")

  function ObjectOf(c: Claims): map<Text, Value> {
    map[SUB := Str(c.sub), SID := Str(c.sid), IAT := Num(c.iat), EXP := Num(c.exp)]
  }

  /** All that is asked of the parser: it reads back what `JSON.stringify` wrote from claims. */
  ghost predicate ReadsBack(parse: Parser) {
    forall c: Claims | ClaimUnits(c) :: parse(RenderObject(FieldsOf(c))) == Some(ObjectOf(c))
  }

  /** `isClaims`, and the four fields it looks at. */
  function ClaimsIn(o: map<Text, Value>): Option<Claims> {
    if SUB in o && o[SUB].Str? && SID in o && o[SID].Str? && IAT in o && o[IAT].Num? && EXP in o && o[EXP].Num?
    then Some(Claims(o[SUB].text, o[SID].text, o[IAT].n, o[EXP].n))
    else None
  }

  function Parse(parse: Parser, t: Text): Option<Claims> {
    match parse(t)
    case None => None
    case Some(o) => ClaimsIn(o)
  }

  lemma NamesDiffer()
    ensures SUB != SID && SUB != IAT && SUB != EXP && SID != IAT && SID != EXP && IAT != EXP
  {
    assert |SUB| == 3 && |SID| == 3 && |IAT| == 3 && |EXP| == 3;
    assert SUB[1] != SID[1] && SUB[0] != IAT[0] && SUB[0] != EXP[0] && SID[0] != IAT[0] && SID[0] != EXP[0] && IAT[0] != EXP[0];
  }

  lemma ParseBack(parse: Parser, c: Claims)
    requires ClaimUnits(c) && ReadsBack(parse)
    ensures Parse(parse, RenderObject(FieldsOf(c))) == Some(c)
  {
    NamesDiffer();
  }

  /** Such a parser can be had: no two claims share a text. */
  ghost function Strictest(t: Text): Option<map<Text, Value>> {
    if exists c: Claims :: ClaimUnits(c) && RenderObject(FieldsOf(c)) == t then
      var c: Claims :| ClaimUnits(c) && RenderObject(FieldsOf(c)) == t;
      Some(ObjectOf(c))
    else None
  }

  lemma ParsersExist()
    ensures ReadsBack(t => Strictest(t))
  {
    forall c: Claims | ClaimUnits(c) ensures Strictest(RenderObject(FieldsOf(c))) == Some(ObjectOf(c)) {
      var t := RenderObject(FieldsOf(c));
      var d: Claims :| ClaimUnits(d) && RenderObject(FieldsOf(d)) == t && Strictest(t) == Some(ObjectOf(d));
      ObjectUnique(FieldsOf(c), FieldsOf(d));
    }
  }

  lemma ClaimsAreWellFormed(c: Claims)
    requires ClaimUnits(c)
    ensures Utf8.WellFormed(RenderObject(FieldsOf(c)))
  {
    Utf8.ObjectIsWellFormed(FieldsOf(c));
  }

  // ---- parts ----

  /** `token.split('.')`. */
  function Split(s: string): (parts: seq<string>)
    ensures |parts| >= 1
    ensures forall i | 0 <= i < |parts| :: '.' !in parts[i]
  {
    if s == "" then [""]
    else
      var rest := Split(s[1..]);
      if s[0] == '.' then [""] + rest else [[s[0]] + rest[0]] + rest[1..]
  }

  lemma {:induction false} SplitHead(a: string, s: string)
    requires '.' !in a
    ensures Split(a + ("." + s)) == [a] + Split(s)
  {
    if a == "" {
      assert a + ("." + s) == "." + s && ("." + s)[1..] == s;
    } else {
      SplitHead(a[1..], s);
      assert (a + ("." + s))[1..] == a[1..] + ("." + s);
      assert [a[0]] + a[1..] == a;
    }
  }

  lemma {:induction false} SplitWhole(a: string)
    requires '.' !in a
    ensures Split(a) == [a]
  {
    if a != "" {
      SplitWhole(a[1..]);
      assert [a[0]] + a[1..] == a;
    }
  }

  function Token(version: string, payload: string, signature: string): string {
    version + ("." + (payload + ("." + signature)))
  }

  lemma SplitToken(version: string, payload: string, signature: string)
    requires '.' !in version && '.' !in payload && '.' !in signature
    ensures Split(Token(version, payload, signature)) == [version, payload, signature]
  {
    SplitHead(version, payload + ("." + signature));
    SplitHead(payload, signature);
    SplitWhole(signature);
  }

  lemma Prepended(s: string, head: string, t: string)
    requires s != "" && s[1..] == head + ("." + t)
    ensures s == ([s[0]] + head) + ("." + t)
  {
    assert s == [s[0]] + s[1..];
  }

  /** Joining what splitting gave. */
  lemma {:induction false} SplitJoins(s: string)
    ensures |Split(s)| == 1 ==> s == Split(s)[0]
    ensures |Split(s)| > 1 ==> '.' in s && exists t :: s == Split(s)[0] + ("." + t) && Split(t) == Split(s)[1..]
  {
    if s != "" {
      SplitJoins(s[1..]);
      if s[0] == '.' {
        assert s == "" + ("." + s[1..]);
      } else if |Split(s[1..])| > 1 {
        var head := Split(s[1..])[0];
        var t :| s[1..] == head + ("." + t) && Split(t) == Split(s[1..])[1..];
        Prepended(s, head, t);
        assert Split(s)[1..] == Split(s[1..])[1..];
      }
    }
  }

  lemma ThreeParts(token: string)
    requires |Split(token)| == 3
    ensures token == Token(Split(token)[0], Split(token)[1], Split(token)[2])
  {
    SplitJoins(token);
    var t :| token == Split(token)[0] + ("." + t) && Split(t) == Split(token)[1..];
    SplitJoins(t);
    var u :| t == Split(t)[0] + ("." + u) && Split(u) == Split(t)[1..];
    SplitJoins(u);
  }

  // ---- sign and verify ----

  function Signed(payload: string): string { LABEL + "." + VERSION + "." + payload }

  function PayloadOf(c: Claims): string
    requires B.AllBytes(Utf8.Encode(RenderObject(FieldsOf(c))))
  {
    B.UrlEncode(Utf8.Encode(RenderObject(FieldsOf(c))))
  }

  ghost function Sign(mac: Mac, c: Claims): string
    requires GivesBytes(mac)
  {
    Utf8.EncodeIsBytes(RenderObject(FieldsOf(c)));
    Token(VERSION, PayloadOf(c), B.UrlEncode(mac(Signed(PayloadOf(c)))))
  }

  ghost function Verify(mac: Mac, parse: Parser, token: string, now: int): Option<Claims>
    requires GivesBytes(mac)
  {
    var parts := Split(token);
    if |parts| != 3 || parts[0] != VERSION || parts[1] == "" || parts[2] == "" then None
    else if parts[2] != B.UrlEncode(mac(Signed(parts[1]))) then None
    else
      match B.UrlDecode(parts[1])
      case None => None
      case Some(bytes) =>
        match Parse(parse, Utf8.Decode(bytes))
        case None => None
        case Some(c) => if c.exp <= now then None else Some(c)
  }

  lemma PayloadBack(parse: Parser, c: Claims)
    requires ClaimUnits(c) && ReadsBack(parse)
    ensures B.AllBytes(Utf8.Encode(RenderObject(FieldsOf(c))))
    ensures var p := PayloadOf(c);
      '.' !in p && B.UrlDecode(p).Some? && Parse(parse, Utf8.Decode(B.UrlDecode(p).value)) == Some(c)
  {
    var t := RenderObject(FieldsOf(c));
    Utf8.EncodeIsBytes(t);
    B.UrlIsBare(Utf8.Encode(t));
    B.UrlBack(Utf8.Encode(t));
    ClaimsAreWellFormed(c);
    Utf8.DecodeEncode(t);
    ParseBack(parse, c);
  }

  lemma PayloadIsNotEmpty(c: Claims)
    requires B.AllBytes(Utf8.Encode(RenderObject(FieldsOf(c)))) && ClaimUnits(c)
    ensures PayloadOf(c) != ""
  {
    var bytes := Utf8.Encode(RenderObject(FieldsOf(c)));
    B.UrlBack(bytes);
    B.UrlBack([]);
    assert bytes != [] by { assert RenderObject(FieldsOf(c)) != []; }
    assert B.UrlDecode("") == Some([]) by { assert B.UrlEncode([]) == ""; }
  }

  /** A token verifies to the claims it was signed for, exactly until it expires, whatever strings
      the claims hold. The digest must not be empty. */
  lemma SignedVerifies(mac: Mac, parse: Parser, c: Claims, now: int)
    requires GivesBytes(mac) && ReadsBack(parse) && ClaimUnits(c) && forall s :: B.UrlEncode(mac(s)) != ""
    ensures Verify(mac, parse, Sign(mac, c), now) == if c.exp > now then Some(c) else None
  {
    PayloadBack(parse, c);
    PayloadIsNotEmpty(c);
    var p := PayloadOf(c);
    var signature := B.UrlEncode(mac(Signed(p)));
    B.UrlIsBare(mac(Signed(p)));
    assert '.' !in VERSION;
    SplitToken(VERSION, p, signature);
  }

  /** The one token of a payload that decodes to claims not yet expired. */
  ghost predicate Genuine(mac: Mac, parse: Parser, p: string, token: string, now: int, c: Claims)
    requires GivesBytes(mac)
  {
    && p != "" && '.' !in p && B.UrlEncode(mac(Signed(p))) != ""
    && token == Token(VERSION, p, B.UrlEncode(mac(Signed(p))))
    && B.UrlDecode(p).Some? && Parse(parse, Utf8.Decode(B.UrlDecode(p).value)) == Some(c) && c.exp > now
  }

  lemma VerifiedIsGenuine(mac: Mac, parse: Parser, token: string, now: int, c: Claims)
    requires GivesBytes(mac) && Verify(mac, parse, token, now) == Some(c)
    ensures |Split(token)| == 3 && Genuine(mac, parse, Split(token)[1], token, now, c)
  {
    ThreeParts(token);
  }

  lemma GenuineVerifies(mac: Mac, parse: Parser, p: string, token: string, now: int, c: Claims)
    requires GivesBytes(mac) && Genuine(mac, parse, p, token, now, c)
    ensures Verify(mac, parse, token, now) == Some(c)
  {
    B.UrlIsBare(mac(Signed(p)));
    SplitToken(VERSION, p, B.UrlEncode(mac(Signed(p))));
  }

  /** Whatever the parser takes, reordered, spaced or with further fields: what verifies is this, and
      nothing else. */
  lemma VerifiesExactly(mac: Mac, parse: Parser, token: string, now: int, c: Claims)
    requires GivesBytes(mac)
    ensures Verify(mac, parse, token, now) == Some(c) <==> exists p: string :: Genuine(mac, parse, p, token, now, c)
  {
    if Verify(mac, parse, token, now) == Some(c) { VerifiedIsGenuine(mac, parse, token, now, c); }
    if p: string :| Genuine(mac, parse, p, token, now, c) { GenuineVerifies(mac, parse, p, token, now, c); }
  }
}
