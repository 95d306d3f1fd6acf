/** UTF-16 text as UTF-8 bytes, as `TextEncoder` writes and `TextDecoder` reads well-formed text. */
module Utf8 {
  import opened Store
  import opened Json
  import Base64

  /** Every surrogate is half of a pair. */
  predicate WellFormed(t: Text) {
    t == []
    || (StartsWithPair(t) && WellFormed(t[2..]))
    || (0 <= t[0] < 0x1_0000 && !High(t[0]) && !Low(t[0]) && WellFormed(t[1..]))
  }

  function Lead(t: Text): Base64.Bytes
    requires t != []
  {
    var u := t[0];
    if StartsWithPair(t) then
      var h, l := u - 0xD800, t[1] - 0xDC00;
      [0xF0 + (h + 64) / 256, 0x80 + (h + 64) / 4 % 64, 0x80 + (h + 64) % 4 * 16 + l / 64, 0x80 + l % 64]
    else if 0 <= u < 0x80 then [u]
    else if 0 <= u < 0x800 then [0xC0 + u / 64, 0x80 + u % 64]
    else if 0 <= u < 0x1_0000 && !High(u) && !Low(u) then [0xE0 + u / 4096, 0x80 + u / 64 % 64, 0x80 + u % 64]
    else [0xEF, 0xBF, 0xBD]
  }

  /** A lone surrogate becomes the replacement character. */
  function Encode(t: Text): Base64.Bytes {
    if t == [] then [] else Lead(t) + Encode(if StartsWithPair(t) then t[2..] else t[1..])
  }

  /** Only the four well-formed shapes are told apart; anything else reads as the replacement. */
  function Decode(b: Base64.Bytes): Text {
    if b == [] then []
    else if b[0] < 0x80 then [b[0]] + Decode(b[1..])
    else if b[0] < 0xE0 && |b| >= 2 then [(b[0] - 0xC0) * 64 + (b[1] - 0x80)] + Decode(b[2..])
    else if b[0] < 0xF0 && |b| >= 3 then
      [(b[0] - 0xE0) * 4096 + (b[1] - 0x80) * 64 + (b[2] - 0x80)] + Decode(b[3..])
    else if |b| >= 4 then
      var h := (b[0] - 0xF0) * 256 + (b[1] - 0x80) * 4 + (b[2] - 0x80) / 16 - 64;
      [0xD800 + h, 0xDC00 + (b[2] - 0x80) % 16 * 64 + (b[3] - 0x80)] + Decode(b[4..])
    else [0xFFFD] + Decode(b[1..])
  }

  lemma {:induction false} EncodeIsBytes(t: Text)
    ensures Base64.AllBytes(Encode(t))
  {
    if t != [] {
      EncodeIsBytes(if StartsWithPair(t) then t[2..] else t[1..]);
    }
  }

  lemma HighBack(h: int, q: int)
    requires 0 <= h < 1024 && 0 <= q < 16
    ensures ((h + 64) / 256) * 256 + ((h + 64) / 4 % 64) * 4 + ((h + 64) % 4 * 16 + q) / 16 - 64 == h
    ensures 0 <= (h + 64) / 256 < 16
  {
    assert ((h + 64) % 4 * 16 + q) / 16 == (h + 64) % 4;
    assert (h + 64) / 256 == (h + 64) / 4 / 64;
  }

  lemma LowBack(r: int, l: int)
    requires 0 <= r < 4 && 0 <= l < 1024
    ensures (r * 16 + l / 64) % 16 * 64 + l % 64 == l && 0 <= l / 64 < 16
  {
  }

  lemma PairBack(u: int, v: int)
    requires High(u) && Low(v)
    ensures var h, l := u - 0xD800, v - 0xDC00;
      && ((h + 64) / 256) * 256 + ((h + 64) / 4 % 64) * 4 + ((h + 64) % 4 * 16 + l / 64) / 16 - 64 == h
      && ((h + 64) % 4 * 16 + l / 64) % 16 * 64 + l % 64 == l
      && 0 <= (h + 64) / 256 < 16
  {
    var h, l := u - 0xD800, v - 0xDC00;
    LowBack((h + 64) % 4, l);
    HighBack(h, l / 64);
  }

  lemma DecodePair(t: Text, rest: Base64.Bytes)
    requires StartsWithPair(t)
    ensures Decode(Lead(t) + rest) == [t[0], t[1]] + Decode(rest)
  {
    PairBack(t[0], t[1]);
    assert |Lead(t)| == 4 && Lead(t)[0] >= 0xF0;
    assert (Lead(t) + rest)[4..] == rest;
  }

  lemma DecodeSingle(t: Text, rest: Base64.Bytes)
    requires t != [] && !StartsWithPair(t) && 0 <= t[0] < 0x1_0000 && !High(t[0]) && !Low(t[0])
    ensures Decode(Lead(t) + rest) == [t[0]] + Decode(rest)
  {
    assert (Lead(t) + rest)[|Lead(t)|..] == rest;
  }

  /** Well-formed text comes back. */
  lemma {:induction false} DecodeEncode(t: Text)
    requires WellFormed(t)
    ensures Decode(Encode(t)) == t
  {
    if t != [] {
      if StartsWithPair(t) {
        DecodePair(t, Encode(t[2..]));
        DecodeEncode(t[2..]);
        assert [t[0], t[1]] + t[2..] == t;
      } else {
        DecodeSingle(t, Encode(t[1..]));
        DecodeEncode(t[1..]);
        assert [t[0]] + t[1..] == t;
      }
    }
  }

  // ---- stringified JSON is well formed, whatever the strings in it ----

  predicate Units(s: Text) { forall i | 0 <= i < |s| :: 0 <= s[i] < 0x1_0000 }

  lemma {:induction false} Joined(a: Text, b: Text)
    requires WellFormed(a) && WellFormed(b)
    ensures WellFormed(a + b)
  {
    if a == [] {
      assert a + b == b;
    } else if StartsWithPair(a) {
      Joined(a[2..], b);
      assert (a + b)[2..] == a[2..] + b;
    } else {
      Joined(a[1..], b);
      assert (a + b)[1..] == a[1..] + b;
    }
  }

  predicate Plain(s: Text) { forall i | 0 <= i < |s| :: 0 <= s[i] < 0xD800 }

  lemma {:induction false} PlainIsWellFormed(s: Text)
    requires Plain(s)
    ensures WellFormed(s)
  {
    if s != [] { PlainIsWellFormed(s[1..]); }
  }

  lemma EscapeUnitIsWellFormed(u: Unit)
    requires 0 <= u < 0x1_0000
    ensures WellFormed(EscapeUnit(u))
  {
    if !High(u) && !Low(u) && 0xD800 <= u {
      assert EscapeUnit(u)[1..] == [];
    } else {
      PlainIsWellFormed(EscapeUnit(u));
    }
  }

  /** A lone surrogate in a string is written as an escape, so the text has none. */
  lemma {:induction false} EscapeIsWellFormed(s: Text)
    requires Units(s)
    ensures WellFormed(Escape(s))
  {
    if s != [] {
      if StartsWithPair(s) {
        EscapeIsWellFormed(s[2..]);
        assert ([s[0], s[1]] + Escape(s[2..]))[2..] == Escape(s[2..]);
      } else {
        EscapeIsWellFormed(s[1..]);
        EscapeUnitIsWellFormed(s[0]);
        Joined(EscapeUnit(s[0]), Escape(s[1..]));
      }
    }
  }

  lemma QuotedIsWellFormed(s: Text)
    requires Units(s)
    ensures WellFormed(Quoted(s))
  {
    EscapeIsWellFormed(s);
    PlainIsWellFormed([QUOTE]);
    Joined([QUOTE], Escape(s));
    Joined([QUOTE] + Escape(s), [QUOTE]);
  }

  lemma DecimalIsPlain(n: int)
    ensures Plain(Decimal(n))
  {
    DigitsValued(if n < 0 then -n else n);
  }

  lemma FieldIsWellFormed(f: Field)
    requires Units(f.name) && (f.value.Str? || f.value.Num?) && (f.value.Str? ==> Units(f.value.text))
    ensures WellFormed(RenderField(f))
  {
    QuotedIsWellFormed(f.name);
    PlainIsWellFormed([COLON]);
    Joined(Quoted(f.name), [COLON]);
    if f.value.Str? {
      QuotedIsWellFormed(f.value.text);
    } else {
      DecimalIsPlain(f.value.n);
      PlainIsWellFormed(Decimal(f.value.n));
    }
    Joined(Quoted(f.name) + [COLON], Render(f.value));
  }

  lemma {:induction false} FieldsAreWellFormed(fs: seq<Field>)
    requires forall i | 0 <= i < |fs| ::
      Units(fs[i].name) && (fs[i].value.Str? || fs[i].value.Num?) && (fs[i].value.Str? ==> Units(fs[i].value.text))
    ensures WellFormed(RenderFields(fs))
  {
    if |fs| == 1 {
      FieldIsWellFormed(fs[0]);
    } else if |fs| > 1 {
      FieldIsWellFormed(fs[0]);
      FieldsAreWellFormed(fs[1..]);
      PlainIsWellFormed([COMMA]);
      Joined(RenderField(fs[0]), [COMMA]);
      Joined(RenderField(fs[0]) + [COMMA], RenderFields(fs[1..]));
    }
  }

  lemma ObjectIsWellFormed(fs: seq<Field>)
    requires forall i | 0 <= i < |fs| ::
      Units(fs[i].name) && (fs[i].value.Str? || fs[i].value.Num?) && (fs[i].value.Str? ==> Units(fs[i].value.text))
    ensures WellFormed(RenderObject(fs))
  {
    FieldsAreWellFormed(fs);
    PlainIsWellFormed([123]);
    PlainIsWellFormed([125]);
    Joined([123], RenderFields(fs));
    Joined([123] + RenderFields(fs), [125]);
  }
}
