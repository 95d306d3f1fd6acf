/** JSON text as `JSON.stringify` writes it, over UTF-16 code units, and why no two values share a
    text (section 7 of RFC 8259 for the escapes). */
module Json {
  import opened Store

  /** A UTF-16 code unit. Only 0 to 0xFFFF occur; nothing below depends on that. */
  type Unit = int
  type Text = seq<Unit>

  const QUOTE: Unit := 34
  const COMMA: Unit := 44
  const COLON: Unit := 58
  const BACKSLASH: Unit := 92

  /** A literal, as code units. */
  function U(s: string): (t: Text)
    ensures |t| == |s|
  {
    seq(|s|, i requires 0 <= i < |s| => s[i] as int % 0x1_0000)
  }

  predicate High(u: Unit) { 0xD800 <= u < 0xDC00 }
  predicate Low(u: Unit) { 0xDC00 <= u < 0xE000 }

  // ---- strings ----

  function HexDigit(n: int): Unit { if n < 10 then 48 + n else 87 + n }

  function LongEscape(u: Unit): Text {
    [BACKSLASH, 117, HexDigit(u / 4096), HexDigit(u / 256 % 16), HexDigit(u / 16 % 16), HexDigit(u % 16)]
  }

  /** One code unit that is not half of a surrogate pair. */
  function EscapeUnit(u: Unit): Text {
    if u == QUOTE || u == BACKSLASH then [BACKSLASH, u]
    else if u == 8 then [BACKSLASH, 98]
    else if u == 9 then [BACKSLASH, 116]
    else if u == 10 then [BACKSLASH, 110]
    else if u == 12 then [BACKSLASH, 102]
    else if u == 13 then [BACKSLASH, 114]
    else if 0 <= u < 32 || High(u) || Low(u) then LongEscape(u)
    else [u]
  }

  predicate StartsWithPair(s: Text) { |s| >= 2 && High(s[0]) && Low(s[1]) }

  /** The text between the quotes. A surrogate pair stays literal, a lone surrogate does not. */
  function Escape(s: Text): Text {
    if s == [] then []
    else if StartsWithPair(s) then [s[0], s[1]] + Escape(s[2..])
    else EscapeUnit(s[0]) + Escape(s[1..])
  }

  function Quoted(s: Text): Text { [QUOTE] + Escape(s) + [QUOTE] }

  /** Reads a string body up to its closing quote: the value and what follows. */
  function Scan(x: Text): Option<(Text, Text)> {
    if x == [] then None
    else if x[0] == QUOTE then Some(([], x[1..]))
    else if x[0] != BACKSLASH then Before(x[0], Scan(x[1..]))
    else if |x| < 2 then None
    else if x[1] != 117 then Before(ShortEscape(x[1]), Scan(x[2..]))
    else if |x| < 6 then None
    else Before((Nibble(x[2]) * 4096 + Nibble(x[3]) * 256 + Nibble(x[4]) * 16 + Nibble(x[5])) % 0x1_0000,
                Scan(x[6..]))
  }

  function Before(u: Unit, r: Option<(Text, Text)>): Option<(Text, Text)> {
    if r.None? then None else Some(([u] + r.value.0, r.value.1))
  }

  function Nibble(u: Unit): int {
    if u < 58 then (if u < 48 then 0 else u - 48) else if u < 87 then 0 else u - 87
  }

  function ShortEscape(u: Unit): Unit {
    if u == 98 then 8 else if u == 116 then 9 else if u == 110 then 10
    else if u == 102 then 12 else if u == 114 then 13 else u
  }

  lemma NibblesBack(u: Unit)
    requires 0 <= u < 0x1_0000
    ensures Nibble(HexDigit(u / 4096)) * 4096 + Nibble(HexDigit(u / 256 % 16)) * 256
          + Nibble(HexDigit(u / 16 % 16)) * 16 + Nibble(HexDigit(u % 16)) == u
  {
    assert forall n | 0 <= n < 16 :: Nibble(HexDigit(n)) == n;
    assert u / 16 == u / 256 * 16 + u / 16 % 16 && u / 256 == u / 4096 * 16 + u / 256 % 16;
  }

  lemma ScanLongEscape(a: Unit, b: Unit, c: Unit, d: Unit, x: Text)
    ensures Scan([BACKSLASH, 117, a, b, c, d] + x) ==
            Before((Nibble(a) * 4096 + Nibble(b) * 256 + Nibble(c) * 16 + Nibble(d)) % 0x1_0000, Scan(x))
  {
    var y := [BACKSLASH, 117, a, b, c, d] + x;
    assert y[6..] == x;
  }

  lemma ScanShortEscape(a: Unit, x: Text)
    requires a != 117
    ensures Scan([BACKSLASH, a] + x) == Before(ShortEscape(a), Scan(x))
  {
    var y := [BACKSLASH, a] + x;
    assert y[2..] == x;
  }

  lemma ScanLiteral(u: Unit, x: Text)
    requires u != QUOTE && u != BACKSLASH
    ensures Scan([u] + x) == Before(u, Scan(x))
  {
    assert ([u] + x)[1..] == x;
  }

  lemma ScanUnit(u: Unit, x: Text)
    ensures Scan(EscapeUnit(u) + x) == Before(u, Scan(x))
  {
    var e := EscapeUnit(u);
    if |e| == 6 {
      NibblesBack(u);
      ScanLongEscape(e[2], e[3], e[4], e[5], x);
    } else if |e| == 2 {
      ScanShortEscape(e[1], x);
    } else {
      ScanLiteral(u, x);
    }
  }

  /** Reading back what was written gives the string and leaves what came after it alone. */
  lemma {:induction false} ScanEscape(s: Text, rest: Text)
    ensures Scan(Escape(s) + ([QUOTE] + rest)) == Some((s, rest))
  {
    var end := [QUOTE] + rest;
    if s == [] {
      assert Escape(s) + end == end && end[1..] == rest;
    } else if StartsWithPair(s) {
      ScanEscape(s[2..], rest);
      ScanPair(s[0], s[1], Escape(s[2..]) + end);
      Assoc([s[0], s[1]], Escape(s[2..]), end);
      assert s == [s[0]] + ([s[1]] + s[2..]);
    } else {
      ScanEscape(s[1..], rest);
      ScanUnit(s[0], Escape(s[1..]) + end);
      Assoc(EscapeUnit(s[0]), Escape(s[1..]), end);
      assert s == [s[0]] + s[1..];
    }
  }

  lemma ScanPair(a: Unit, b: Unit, x: Text)
    requires High(a) && Low(b)
    ensures Scan([a, b] + x) == Before(a, Before(b, Scan(x)))
  {
    ScanLiteral(b, x);
    ScanLiteral(a, [b] + x);
    Assoc([a], [b], x);
  }

  lemma Assoc<T>(a: seq<T>, b: seq<T>, c: seq<T>)
    ensures (a + b) + c == a + (b + c)
  {
  }

  /** Equal sequences with equal first parts have equal second parts. */
  lemma Cancel<T>(a: seq<T>, b: seq<T>, s: seq<T>, t: seq<T>)
    requires a + s == b + t && |a| == |b|
    ensures a == b && s == t
  {
    assert (a + s)[..|a|] == a && (b + t)[..|b|] == b;
    assert (a + s)[|a|..] == s && (b + t)[|b|..] == t;
  }

  lemma QuotedUnique(a: Text, b: Text, s: Text, t: Text)
    requires Quoted(a) + s == Quoted(b) + t
    ensures a == b && s == t
  {
    var x, y := Escape(a) + ([QUOTE] + s), Escape(b) + ([QUOTE] + t);
    assert Quoted(a) + s == [QUOTE] + x && Quoted(b) + t == [QUOTE] + y;
    Cancel([QUOTE], [QUOTE], x, y);
    ScanEscape(a, s);
    ScanEscape(b, t);
  }

  // ---- numbers ----

  function Digits(n: nat): (d: Text)
    ensures |d| >= 1
  {
    if n < 10 then [48 + n] else Digits(n / 10) + [48 + n % 10]
  }

  function Decimal(n: int): Text { if n < 0 then [45] + Digits(-n) else Digits(n) }

  predicate IsDigit(u: Unit) { 48 <= u < 58 }

  function Valued(d: Text): int {
    if d == [] then 0 else Valued(d[..|d| - 1]) * 10 + d[|d| - 1] as int - 48
  }

  lemma {:induction false} DigitsValued(n: nat)
    ensures Valued(Digits(n)) == n && forall i | 0 <= i < |Digits(n)| :: IsDigit(Digits(n)[i])
  {
    if n >= 10 {
      DigitsValued(n / 10);
      assert Digits(n)[..|Digits(n)| - 1] == Digits(n / 10);
    } else {
      assert Digits(n)[..0] == [];
    }
  }

  predicate NoDigitFirst(s: Text) { s == [] || !IsDigit(s[0]) }

  lemma RunsUnique(d: Text, e: Text, s: Text, t: Text)
    requires d + s == e + t && NoDigitFirst(s) && NoDigitFirst(t)
    requires (forall i | 0 <= i < |d| :: IsDigit(d[i])) && (forall i | 0 <= i < |e| :: IsDigit(e[i]))
    ensures d == e && s == t
  {
    RunNotLonger(d, e, s, t);
    RunNotLonger(e, d, t, s);
    Cancel(d, e, s, t);
  }

  lemma RunNotLonger(d: Text, e: Text, s: Text, t: Text)
    requires d + s == e + t && NoDigitFirst(s)
    requires forall i | 0 <= i < |e| :: IsDigit(e[i])
    ensures |e| <= |d|
  {
    // If `e` were longer, the first unit of `s` would be one of its digits.
    assert forall i | 0 <= i < |e| :: IsDigit((e + t)[i]);
    assert s != [] ==> (d + s)[|d|] == s[0];
  }

  lemma DecimalUnique(m: int, n: int, s: Text, t: Text)
    requires Decimal(m) + s == Decimal(n) + t && NoDigitFirst(s) && NoDigitFirst(t)
    ensures m == n && s == t
  {
    var a, b := if m < 0 then -m else m, if n < 0 then -n else n;
    DigitsValued(a);
    DigitsValued(b);
    assert (Decimal(m) + s)[0] == Decimal(m)[0] && (Decimal(n) + t)[0] == Decimal(n)[0];
    if m < 0 {
      Assoc([45], Digits(a), s);
      Assoc([45], Digits(b), t);
      Cancel([45], [45], Digits(a) + s, Digits(b) + t);
    }
    RunsUnique(Digits(a), Digits(b), s, t);
  }

  // ---- values ----

  datatype Value = Str(text: Text) | Num(n: int) | Bool(b: bool) | Null | List(items: seq<Text>)

  /** The items with a comma between, as inside brackets. */
  function Joined(items: seq<Text>): Text {
    if items == [] then []
    else if |items| == 1 then Quoted(items[0])
    else Quoted(items[0]) + [COMMA] + Joined(items[1..])
  }

  function Render(v: Value): (t: Text)
    ensures |t| >= 1
  {
    match v
    case Str(s) => Quoted(s)
    case Num(n) => Decimal(n)
    case Bool(b) => if b then [116, 114, 117, 101] else [102, 97, 108, 115, 101]
    case Null => [110, 117, 108, 108]
    case List(items) => [91] + Joined(items) + [93]
  }

  /** What may follow a value inside an object. */
  predicate Delimited(s: Text) { s != [] && (s[0] == COMMA || s[0] == 125) }

  /** What follows the first item of a list. */
  function AfterItem(items: seq<Text>, s: Text): Text
    requires items != []
  {
    if |items| == 1 then [93] + s else [COMMA] + (Joined(items[1..]) + ([93] + s))
  }

  lemma JoinedSplits(items: seq<Text>, s: Text)
    requires items != []
    ensures Joined(items) + ([93] + s) == Quoted(items[0]) + AfterItem(items, s)
  {
  }

  lemma FirstItemUnique(a: seq<Text>, b: seq<Text>, s: Text, t: Text)
    requires a != [] && b != [] && Joined(a) + ([93] + s) == Joined(b) + ([93] + t)
    ensures a[0] == b[0] && AfterItem(a, s) == AfterItem(b, t)
  {
    JoinedSplits(a, s);
    JoinedSplits(b, t);
    QuotedUnique(a[0], b[0], AfterItem(a, s), AfterItem(b, t));
  }

  lemma {:induction false} JoinedUnique(a: seq<Text>, b: seq<Text>, s: Text, t: Text)
    requires Joined(a) + ([93] + s) == Joined(b) + ([93] + t)
    ensures a == b && s == t
    decreases |a|, 1
  {
    if a != [] && b != [] {
      FirstItemUnique(a, b, s, t);
      AfterItemUnique(a, b, s, t);
      HeadAndTail(a, b);
    } else {
      JoinedEmpty(a, b, s, t);
      Cancel([93], [93], s, t);
    }
  }

  lemma JoinedEmpty(a: seq<Text>, b: seq<Text>, s: Text, t: Text)
    requires Joined(a) + ([93] + s) == Joined(b) + ([93] + t) && (a == [] || b == [])
    ensures a == b == [] && [93] + s == [93] + t
  {
    var x, y := Joined(a) + ([93] + s), Joined(b) + ([93] + t);
    if a != [] { JoinedSplits(a, s); }
    if b != [] { JoinedSplits(b, t); }
    assert x[0] == (if a == [] then 93 else QUOTE) && y[0] == (if b == [] then 93 else QUOTE);
    assert [] + ([93] + s) == [93] + s && [] + ([93] + t) == [93] + t;
  }

  lemma {:induction false} AfterItemUnique(a: seq<Text>, b: seq<Text>, s: Text, t: Text)
    requires a != [] && b != [] && AfterItem(a, s) == AfterItem(b, t)
    ensures a[1..] == b[1..] && s == t
    decreases |a|, 0
  {
    assert AfterItem(a, s)[0] == AfterItem(b, t)[0];
    if |a| == 1 {
      Cancel([93], [93], s, t);
    } else {
      Cancel([COMMA], [COMMA], Joined(a[1..]) + ([93] + s), Joined(b[1..]) + ([93] + t));
      JoinedUnique(a[1..], b[1..], s, t);
    }
  }

  function FirstUnit(v: Value): Unit { Render(v)[0] }

  lemma FirstUnitTells(v: Value, w: Value)
    requires FirstUnit(v) == FirstUnit(w)
    ensures (v.Str? <==> w.Str?) && (v.Num? <==> w.Num?) && (v.List? <==> w.List?)
    ensures (v.Bool? || v.Null?) ==> v == w
  {
    FirstUnitOf(v);
    FirstUnitOf(w);
  }

  lemma FirstUnitOf(v: Value)
    ensures var u := FirstUnit(v);
      match v
      case Str(_) => u == QUOTE
      case Num(_) => u == 45 || IsDigit(u)
      case Bool(b) => u == if b then 116 else 102
      case Null => u == 110
      case List(_) => u == 91
  {
    if v.Num? {
      DigitsValued(if v.n < 0 then -v.n else v.n);
    }
  }

  /** Two values followed by a delimiter have one text only if they are one value. */
  lemma RenderUnique(v: Value, w: Value, s: Text, t: Text)
    requires Render(v) + s == Render(w) + t && Delimited(s) && Delimited(t)
    ensures v == w && s == t
  {
    assert (Render(v) + s)[0] == FirstUnit(v) && (Render(w) + t)[0] == FirstUnit(w);
    FirstUnitTells(v, w);
    if v.Str? {
      QuotedUnique(v.text, w.text, s, t);
    } else if v.Num? {
      DecimalUnique(v.n, w.n, s, t);
    } else if v.List? {
      ListUnique(v.items, w.items, s, t);
    } else {
      Cancel(Render(v), Render(w), s, t);
    }
  }

  lemma ListSplits(a: seq<Text>, s: Text)
    ensures Render(List(a)) + s == [91] + (Joined(a) + ([93] + s))
  {
    Assoc([91] + Joined(a), [93], s);
    Assoc([91], Joined(a), [93] + s);
  }

  lemma ListUnique(a: seq<Text>, b: seq<Text>, s: Text, t: Text)
    requires Render(List(a)) + s == Render(List(b)) + t
    ensures a == b && s == t
  {
    var x, y := Joined(a) + ([93] + s), Joined(b) + ([93] + t);
    ListSplits(a, s);
    ListSplits(b, t);
    Cancel([91], [91], x, y);
    JoinedUnique(a, b, s, t);
  }

  // ---- objects ----

  datatype Field = Field(name: Text, value: Value)

  function RenderField(f: Field): Text { Quoted(f.name) + [COLON] + Render(f.value) }

  function RenderFields(fs: seq<Field>): Text {
    if fs == [] then []
    else if |fs| == 1 then RenderField(fs[0])
    else RenderField(fs[0]) + [COMMA] + RenderFields(fs[1..])
  }

  function RenderObject(fs: seq<Field>): Text { [123] + RenderFields(fs) + [125] }

  /** What follows the first field of an object. */
  function AfterField(fs: seq<Field>): Text
    requires fs != []
  {
    if |fs| == 1 then [125] else [COMMA] + (RenderFields(fs[1..]) + [125])
  }

  lemma FieldsSplit(fs: seq<Field>)
    requires fs != []
    ensures RenderFields(fs) + [125] ==
            Quoted(fs[0].name) + ([COLON] + (Render(fs[0].value) + AfterField(fs)))
  {
    var f := fs[0];
    Assoc(Quoted(f.name) + [COLON], Render(f.value), AfterField(fs));
    Assoc(Quoted(f.name), [COLON], Render(f.value) + AfterField(fs));
  }

  lemma FieldUnique(f: Field, g: Field, s: Text, t: Text)
    requires Delimited(s) && Delimited(t)
    requires Quoted(f.name) + ([COLON] + (Render(f.value) + s)) == Quoted(g.name) + ([COLON] + (Render(g.value) + t))
    ensures f == g && s == t
  {
    QuotedUnique(f.name, g.name, [COLON] + (Render(f.value) + s), [COLON] + (Render(g.value) + t));
    Cancel([COLON], [COLON], Render(f.value) + s, Render(g.value) + t);
    RenderUnique(f.value, g.value, s, t);
  }

  lemma FieldsHead(a: seq<Field>)
    ensures (RenderFields(a) + [125])[0] == if a == [] then 125 else QUOTE
  {
    if a != [] { FieldsSplit(a); }
  }

  lemma FirstFieldUnique(a: seq<Field>, b: seq<Field>)
    requires a != [] && b != [] && RenderFields(a) + [125] == RenderFields(b) + [125]
    ensures a[0] == b[0] && AfterField(a) == AfterField(b)
  {
    FieldsSplit(a);
    FieldsSplit(b);
    FieldUnique(a[0], b[0], AfterField(a), AfterField(b));
  }

  lemma {:induction false} FieldsUnique(a: seq<Field>, b: seq<Field>)
    requires RenderFields(a) + [125] == RenderFields(b) + [125]
    ensures a == b
    decreases |a|, 1
  {
    FieldsHead(a);
    FieldsHead(b);
    if a != [] && b != [] {
      FirstFieldUnique(a, b);
      AfterFieldUnique(a, b);
      HeadAndTail(a, b);
    }
  }

  lemma HeadAndTail<T>(a: seq<T>, b: seq<T>)
    requires a != [] && b != [] && a[0] == b[0] && a[1..] == b[1..]
    ensures a == b
  {
    assert a == [a[0]] + a[1..] && b == [b[0]] + b[1..];
  }

  lemma {:induction false} AfterFieldUnique(a: seq<Field>, b: seq<Field>)
    requires a != [] && b != [] && AfterField(a) == AfterField(b)
    ensures a[1..] == b[1..]
    decreases |a|, 0
  {
    assert AfterField(a)[0] == AfterField(b)[0];
    if |a| > 1 {
      Cancel([COMMA], [COMMA], RenderFields(a[1..]) + [125], RenderFields(b[1..]) + [125]);
      FieldsUnique(a[1..], b[1..]);
    }
  }

  /** An object's text determines its fields and their order. */
  lemma ObjectUnique(a: seq<Field>, b: seq<Field>)
    requires RenderObject(a) == RenderObject(b)
    ensures a == b
  {
    assert RenderObject(a) == [123] + (RenderFields(a) + [125]);
    assert RenderObject(b) == [123] + (RenderFields(b) + [125]);
    Cancel([123], [123], RenderFields(a) + [125], RenderFields(b) + [125]);
    FieldsUnique(a, b);
  }
}
