/** Limits on audit fields, and what they add up to: how long a stored record can be once it is JSON
    text (section 7 of RFC 8259). */
module Boundaries {
  import opened Json

  const MAX_DNS_NAME := 253
  const SCHEME_PREFIX_WIDTH := |"https"| + |"://"|
  const PORT_SUFFIX := ":65535"
  const MAX_ORIGIN := SCHEME_PREFIX_WIDTH + MAX_DNS_NAME + |PORT_SUFFIX|
  const MAX_FILENAME := 255
  const MAX_STRING := 256
  const MAX_OPAQUE_ID := 80
  const MAX_EVENT_BYTES := 4096
  const MAX_ARRAY_STRING := 128
  const MAX_EVIDENCE_IDS := 4
  const MAX_SCOPES := 16
  const MAX_MCP_SERVER_ID := 64
  const MAX_ENDPOINT_PATH := 128
  const MCP_IDENTITY_MAX := |"mcp:"| + MAX_MCP_SERVER_ID + |"@"| + MAX_ORIGIN
  const MAX_ENDPOINT_URL := MAX_ORIGIN + MAX_ENDPOINT_PATH
  const MAX_DESTINATION := Max(MCP_IDENTITY_MAX, MAX_ENDPOINT_URL)

  function Max(a: nat, b: nat): nat { if a < b then b else a }

  // ---- which limit applies to which field ----

  /** What the field name says the field holds. */
  datatype Class = Origin | FileName | Destination | OpaqueId | Scopes | EvidenceIds | Numeric | Boolean | Other

  function ClassOf(name: string): Class {
    if name == "origin" || name == "site" then Origin
    else if name == "fileName" then FileName
    else if name == "destination" then Destination
    else if name == "scopes" then Scopes
    else if name == "evidenceIds" then EvidenceIds
    else if IsOpaqueId(name) then OpaqueId
    else if IsNumeric(name) then Numeric
    else if name == "executed" || name == "cancelled" then Boolean
    else Other
  }

  predicate IsOpaqueId(name: string) {
    name == "taskId" || name == "sessionId" || name == "workflowId" || name == "shortcutId" || name == "scheduleId"
    || name == "runId" || name == "connectorId" || name == "route" || name == "senderClass"
  }

  predicate IsNumeric(name: string) {
    name == "at" || name == "byteLength" || name == "tabId" || name == "stepCount" || name == "stepIndex"
    || name == "workflowVersion" || name == "recordCount" || name == "removedCount" || name == "removedFromSeq"
    || name == "removedToSeq"
  }

  function FieldLimit(c: Class): nat {
    match c
    case Origin => MAX_ORIGIN
    case FileName => MAX_FILENAME
    case Destination => MAX_DESTINATION
    case OpaqueId => MAX_OPAQUE_ID
    case _ => MAX_STRING
  }

  predicate IsArray(c: Class) { c.Scopes? || c.EvidenceIds? }

  function ArrayLimit(c: Class): nat {
    match c
    case EvidenceIds => MAX_EVIDENCE_IDS
    case Scopes => MAX_SCOPES
    case _ => Max(MAX_EVIDENCE_IDS, MAX_SCOPES)
  }

  function FieldValueWidth(c: Class): nat {
    if IsArray(c) then 2 + ArrayLimit(c) * (MAX_ARRAY_STRING + 2) + (ArrayLimit(c) - 1)
    else if c.Numeric? then 20
    else if c.Boolean? then 5
    else FieldLimit(c) + 2
  }

  /** How wide a string is once serialised, without its quotes. */
  function SerialisedWidth(t: Text): nat { |Escape(t)| }

  // ---- the shape check ----

  /** A field as the caller gives it; the name is plain text. */
  datatype Entry = Entry(name: string, value: Value)

  /** A record as handed in: its type, and its other fields. */
  datatype Event = Event(kind: string, entries: seq<Entry>)

  predicate ItemsOk(items: seq<Text>) { forall i | 0 <= i < |items| :: SerialisedWidth(items[i]) <= MAX_ARRAY_STRING }

  /** What the check asks of one value: numbers, booleans and null pass anywhere. */
  predicate ValueOk(name: string, v: Value) {
    match v
    case Str(t) => SerialisedWidth(t) <= FieldLimit(ClassOf(name))
    case List(items) => IsArray(ClassOf(name)) && |items| <= ArrayLimit(ClassOf(name)) && ItemsOk(items)
    case _ => true
  }

  function FieldOf(e: Entry): Field { Field(U(e.name), e.value) }

  function Fields(entries: seq<Entry>): seq<Field> { seq(|entries|, i requires 0 <= i < |entries| => FieldOf(entries[i])) }

  function TypeField(kind: string): Field { Field(U("type"), Str(U(kind))) }

  function AllFields(e: Event): seq<Field> { [TypeField(e.kind)] + Fields(e.entries) }

  predicate ShapeOk(e: Event) {
    && SerialisedWidth(U(e.kind)) <= MAX_STRING
    && (forall i | 0 <= i < |e.entries| :: ValueOk(e.entries[i].name, e.entries[i].value))
    && |RenderObject(AllFields(e))| <= MAX_EVENT_BYTES
  }

  method ItemsFit(items: seq<Text>) returns (ok: bool)
    ensures ok <==> ItemsOk(items)
  {
    var k := 0;
    while k < |items|
      invariant 0 <= k <= |items|
      invariant forall j | 0 <= j < k :: SerialisedWidth(items[j]) <= MAX_ARRAY_STRING
    {
      if SerialisedWidth(items[k]) > MAX_ARRAY_STRING { return false; }
      k := k + 1;
    }
    ok := true;
  }

  method AssertAuditShape(e: Event) returns (ok: bool)
    ensures ok <==> ShapeOk(e)
    ensures ok ==> |Escape(U(e.kind))| <= 256 && |RenderObject(AllFields(e))| <= 4096
  {
    if SerialisedWidth(U(e.kind)) > MAX_STRING { return false; }
    var i := 0;
    while i < |e.entries|
      invariant 0 <= i <= |e.entries|
      invariant forall j | 0 <= j < i :: ValueOk(e.entries[j].name, e.entries[j].value)
    {
      var c, v := ClassOf(e.entries[i].name), e.entries[i].value;
      if v.List? {
        if !IsArray(c) { return false; }
        if |v.items| > ArrayLimit(c) { return false; }
        var fit := ItemsFit(v.items);
        if !fit { return false; }
      } else if v.Str? {
        if SerialisedWidth(v.text) > FieldLimit(c) { return false; }
      }
      i := i + 1;
    }
    ok := |RenderObject(AllFields(e))| <= MAX_EVENT_BYTES;
  }

  // ---- the width of a record ----

  const TYPE_WIDTH := 2 + |"'type':"| + 34
  const OWNED_WIDTH := |"'id':'aud_xxxxxxxxxx_xxxx',"| + |"'at':1700000000000,"| + |"'seq':999999,"|
                       + (|"'prevDigest':'',"| + 64) + |"'eventVersion':99"|

  function EntryWidth(name: string): nat { 1 + |name| + 3 + FieldValueWidth(ClassOf(name)) }

  /** The widths of all fields but the type. */
  function SumOf(names: seq<string>, width: string -> nat): nat {
    if names == [] then 0
    else SumOf(names[..|names| - 1], width) + if names[|names| - 1] == "type" then 0 else width(names[|names| - 1])
  }

  function WidthOf(names: seq<string>): nat { SumOf(names, EntryWidth) }

  lemma SumStep(names: seq<string>, i: nat, width: string -> nat)
    requires i < |names|
    ensures SumOf(names[..i + 1], width) == SumOf(names[..i], width) + if names[i] == "type" then 0 else width(names[i])
  {
    assert names[..i + 1][..i] == names[..i];
  }

  lemma WidthStep(names: seq<string>, i: nat)
    requires i < |names|
    ensures WidthOf(names[..i + 1]) == WidthOf(names[..i]) + if names[i] == "type" then 0 else EntryWidth(names[i])
  {
    SumStep(names, i, EntryWidth);
  }

  method RecordWidth(names: seq<string>) returns (total: nat)
    ensures total == TYPE_WIDTH + WidthOf(names) + OWNED_WIDTH
  {
    total := TYPE_WIDTH;
    var i := 0;
    while i < |names|
      invariant 0 <= i <= |names| && total == TYPE_WIDTH + WidthOf(names[..i])
    {
      WidthStep(names, i);
      var name := names[i];
      i := i + 1;
      if name == "type" { continue; }
      total := total + EntryWidth(name);
    }
    assert names[..i] == names;
    total := total + OWNED_WIDTH;
  }

  // ---- lengths of JSON text ----

  predicate PlainUnits(t: Text) { forall i | 0 <= i < |t| :: 32 <= t[i] < 0xD800 && t[i] != QUOTE && t[i] != BACKSLASH }

  lemma {:induction false} PlainEscape(t: Text)
    requires PlainUnits(t)
    ensures Escape(t) == t
  {
    if t != [] {
      PlainEscape(t[1..]);
      assert [t[0]] + t[1..] == t;
    }
  }

  function Lengths(fs: seq<Field>): nat {
    if fs == [] then 0 else Lengths(fs[..|fs| - 1]) + |RenderField(fs[|fs| - 1])| + 1
  }

  lemma OneMoreLength(fs: seq<Field>, f: Field)
    ensures Lengths(fs + [f]) == Lengths(fs) + |RenderField(f)| + 1
  {
    assert (fs + [f])[..|fs|] == fs;
  }

  lemma SplitLast<T>(a: seq<T>, b: seq<T>)
    requires b != []
    ensures b[..|b| - 1] + [b[|b| - 1]] == b && (a + b[..|b| - 1]) + [b[|b| - 1]] == a + b
  {
  }

  lemma {:induction false} LengthsJoin(a: seq<Field>, b: seq<Field>)
    ensures Lengths(a + b) == Lengths(a) + Lengths(b)
  {
    if b == [] {
      assert a + b == a;
    } else {
      var rest, last := b[..|b| - 1], b[|b| - 1];
      LengthsJoin(a, rest);
      SplitLast(a, b);
      OneMoreLength(a + rest, last);
      OneMoreLength(rest, last);
    }
  }

  lemma {:induction false} FieldsLength(fs: seq<Field>)
    requires fs != []
    ensures |RenderFields(fs)| + 1 == Lengths(fs)
  {
    LengthsJoin([fs[0]], fs[1..]);
    assert [fs[0]] + fs[1..] == fs && [fs[0]][..0] == [];
    if |fs| > 1 {
      FieldsLength(fs[1..]);
    } else {
      assert fs[1..] == [];
    }
  }

  /** A field, a comma and the braces between them: one more than the fields with their commas. */
  lemma ObjectLength(fs: seq<Field>)
    requires fs != []
    ensures |RenderObject(fs)| == Lengths(fs) + 1
  {
    FieldsLength(fs);
  }

  // ---- the bound ----

  predicate NumberFits(v: Value) { v.Num? ==> |Decimal(v.n)| <= 20 }

  /** Values of the declared types always do; text and numbers where they do not belong have to be
      short enough to pass for one. */
  predicate FitsItsField(e: Entry) {
    && (ClassOf(e.name).Numeric? && e.value.Str? ==> SerialisedWidth(e.value.text) <= 18)
    && (ClassOf(e.name).Boolean? && e.value.Str? ==> SerialisedWidth(e.value.text) <= 3)
    && (ClassOf(e.name).Boolean? && e.value.Num? ==> |Decimal(e.value.n)| <= 5)
  }

  lemma {:induction false} JoinedLength(items: seq<Text>)
    requires ItemsOk(items)
    ensures |Joined(items)| <= if items == [] then 0 else |items| * (MAX_ARRAY_STRING + 3) - 1
  {
    if |items| > 1 {
      JoinedLength(items[1..]);
      assert SerialisedWidth(items[0]) <= MAX_ARRAY_STRING;
    } else if |items| == 1 {
      assert SerialisedWidth(items[0]) <= MAX_ARRAY_STRING;
    }
  }

  /** An accepted value is no wider than its field is costed at, exactly under that condition. */
  lemma ValueWidthExactly(e: Entry)
    requires ValueOk(e.name, e.value) && NumberFits(e.value)
    ensures |Render(e.value)| <= FieldValueWidth(ClassOf(e.name)) <==> FitsItsField(e)
  {
    if e.value.List? { JoinedLength(e.value.items); }
  }

  // ---- every record, typed or not ----

  /** By how much a field is wider than it is costed at, its escaped name included; negative where
      there is room left. */
  function Overrun(e: Entry): int {
    (SerialisedWidth(U(e.name)) - |e.name|) + (|Render(e.value)| - FieldValueWidth(ClassOf(e.name)))
  }

  function Overruns(entries: seq<Entry>): int {
    if entries == [] then 0 else Overruns(entries[..|entries| - 1]) + Overrun(entries[|entries| - 1])
  }

  lemma EntryLength(e: Entry)
    ensures |RenderField(FieldOf(e))| + 1 == EntryWidth(e.name) + Overrun(e)
  {
  }

  function NamesOf(entries: seq<Entry>): seq<string> { seq(|entries|, i requires 0 <= i < |entries| => entries[i].name) }

  lemma {:induction false} EntriesLength(entries: seq<Entry>)
    requires forall i | 0 <= i < |entries| :: entries[i].name != "type"
    ensures Lengths(Fields(entries)) == WidthOf(NamesOf(entries)) + Overruns(entries)
  {
    if entries != [] {
      var rest, last := entries[..|entries| - 1], entries[|entries| - 1];
      SplitLast([], entries);
      EntriesLength(rest);
      EntryLength(last);
      LastField(rest, last);
      LastName(rest, last);
      LastOverrun(rest, last);
    }
  }

  lemma LastField(rest: seq<Entry>, last: Entry)
    ensures Lengths(Fields(rest + [last])) == Lengths(Fields(rest)) + |RenderField(FieldOf(last))| + 1
  {
    assert Fields(rest + [last]) == Fields(rest) + [FieldOf(last)];
    OneMoreLength(Fields(rest), FieldOf(last));
  }

  lemma LastOverrun(rest: seq<Entry>, last: Entry)
    ensures Overruns(rest + [last]) == Overruns(rest) + Overrun(last)
  {
    assert (rest + [last])[..|rest|] == rest;
  }

  lemma LastName(rest: seq<Entry>, last: Entry)
    requires last.name != "type"
    ensures WidthOf(NamesOf(rest + [last])) == WidthOf(NamesOf(rest)) + EntryWidth(last.name)
  {
    var names := NamesOf(rest + [last]);
    assert names[..|rest|] == NamesOf(rest) && names[..|rest| + 1] == names;
    WidthStep(names, |rest|);
  }

  /** What `append` adds after the check. */
  datatype Owned = Owned(id: string, at: int, seqNo: int, prev: string, version: int)

  predicate OwnedFits(o: Owned) {
    && PlainUnits(U(o.id)) && |o.id| <= 19 && |Decimal(o.at)| <= 13 && |Decimal(o.seqNo)| <= 6
    && PlainUnits(U(o.prev)) && |o.prev| <= 64 && |Decimal(o.version)| <= 2
  }

  function OwnedFields(o: Owned): seq<Field> {
    [Field(U("id"), Str(U(o.id))), Field(U("at"), Num(o.at)), Field(U("seq"), Num(o.seqNo)),
     Field(U("prevDigest"), Str(U(o.prev))), Field(U("eventVersion"), Num(o.version))]
  }

  lemma PlainField(name: string, v: Value)
    requires PlainUnits(U(name))
    ensures |RenderField(Field(U(name), v))| == |name| + 3 + |Render(v)|
  {
    PlainEscape(U(name));
  }

  lemma PlainText(s: string)
    requires PlainUnits(U(s))
    ensures |Render(Str(U(s)))| == |s| + 2
  {
    PlainEscape(U(s));
  }

  lemma FiveLengths(a: Field, b: Field, c: Field, d: Field, e: Field)
    ensures Lengths([a, b, c, d, e])
         == |RenderField(a)| + |RenderField(b)| + |RenderField(c)| + |RenderField(d)| + |RenderField(e)| + 5
  {
    LengthsJoin([a], [b]);
    LengthsJoin([a] + [b], [c]);
    LengthsJoin([a] + [b] + [c], [d]);
    LengthsJoin([a] + [b] + [c] + [d], [e]);
    assert [a] + [b] + [c] + [d] + [e] == [a, b, c, d, e];
  }

  predicate AllLetters(s: string) { forall i | 0 <= i < |s| :: 'a' <= s[i] <= 'z' || 'A' <= s[i] <= 'Z' }

  lemma LettersArePlain(s: string)
    requires AllLetters(s)
    ensures PlainUnits(U(s))
  {
  }

  lemma NamesArePlain()
    ensures PlainUnits(U("id")) && PlainUnits(U("at")) && PlainUnits(U("seq")) && PlainUnits(U("type"))
    ensures PlainUnits(U("prevDigest")) && PlainUnits(U("eventVersion"))
  {
    LettersArePlain("id");
    LettersArePlain("at");
    LettersArePlain("seq");
    LettersArePlain("type");
    LettersArePlain("prevDigest");
    LettersArePlain("eventVersion");
  }

  lemma OwnedLength(o: Owned)
    requires OwnedFits(o)
    ensures 56 <= Lengths(OwnedFields(o)) <= OWNED_WIDTH + 1
  {
    NamesArePlain();
    PlainField("id", Str(U(o.id)));
    PlainField("at", Num(o.at));
    PlainField("seq", Num(o.seqNo));
    PlainField("prevDigest", Str(U(o.prev)));
    PlainField("eventVersion", Num(o.version));
    PlainText(o.id);
    PlainText(o.prev);
    FiveLengths(Field(U("id"), Str(U(o.id))), Field(U("at"), Num(o.at)), Field(U("seq"), Num(o.seqNo)),
                Field(U("prevDigest"), Str(U(o.prev))), Field(U("eventVersion"), Num(o.version)));
  }

  function StoredFields(e: Event, o: Owned): seq<Field> { AllFields(e) + OwnedFields(o) }

  /** What is left of the fixed parts once the type and the log's own fields are written. */
  function Slack(kind: string, o: Owned): int {
    TYPE_WIDTH + OWNED_WIDTH - |RenderObject([TypeField(kind)] + OwnedFields(o))|
  }

  /** Any record at all is stored in no more text than its field names allow for, what the log adds
      included, exactly when its fields together overrun their widths by no more than that slack. */
  lemma RecordFitsExactly(e: Event, o: Owned)
    requires forall i | 0 <= i < |e.entries| :: e.entries[i].name != "type"
    ensures |RenderObject(StoredFields(e, o))| <= TYPE_WIDTH + WidthOf(NamesOf(e.entries)) + OWNED_WIDTH
        <==> Overruns(e.entries) <= Slack(e.kind, o)
  {
    EntriesLength(e.entries);
    StoredLength(TypeField(e.kind), Fields(e.entries), OwnedFields(o));
    BareLength(e.kind, o);
  }

  lemma BareLength(kind: string, o: Owned)
    ensures Slack(kind, o) == TYPE_WIDTH + OWNED_WIDTH - (|RenderField(TypeField(kind))| + 2 + Lengths(OwnedFields(o)))
  {
    StoredLength(TypeField(kind), [], OwnedFields(o));
    assert [TypeField(kind)] + [] + OwnedFields(o) == [TypeField(kind)] + OwnedFields(o);
  }

  /** With the widths the literals show there is slack for a type name of up to 31 characters. */
  lemma SlackLeft(kind: string, o: Owned)
    requires PlainUnits(U(kind)) && OwnedFits(o)
    ensures Slack(kind, o) >= 31 - |kind|
  {
    NamesArePlain();
    PlainField("type", Str(U(kind)));
    PlainText(kind);
    OwnedLength(o);
    BareLength(kind, o);
  }

  predicate EntryOk(e: Entry) {
    ValueOk(e.name, e.value) && FitsItsField(e) && NumberFits(e.value) && PlainUnits(U(e.name)) && e.name != "type"
  }

  lemma {:induction false} NoOverruns(entries: seq<Entry>)
    requires forall i | 0 <= i < |entries| :: EntryOk(entries[i])
    ensures Overruns(entries) <= 0
  {
    if entries != [] {
      NoOverruns(entries[..|entries| - 1]);
      ValueWidthExactly(entries[|entries| - 1]);
      PlainEscape(U(entries[|entries| - 1].name));
    }
  }

  /** In particular every record the check accepts whose values fit their fields, as those of the
      declared types do. */
  lemma StoredRecordFits(e: Event, o: Owned)
    requires ShapeOk(e) && OwnedFits(o)
    requires PlainUnits(U(e.kind)) && |e.kind| <= 31
    requires forall i | 0 <= i < |e.entries| :: EntryOk(e.entries[i])
    ensures |RenderObject(StoredFields(e, o))| <= TYPE_WIDTH + WidthOf(NamesOf(e.entries)) + OWNED_WIDTH
  {
    NoOverruns(e.entries);
    SlackLeft(e.kind, o);
    RecordFitsExactly(e, o);
  }

  lemma StoredLength(kind: Field, fs: seq<Field>, owned: seq<Field>)
    ensures |RenderObject([kind] + fs + owned)| == |RenderField(kind)| + 2 + Lengths(fs) + Lengths(owned)
  {
    LengthsJoin([kind], fs);
    LengthsJoin([kind] + fs, owned);
    ObjectLength([kind] + fs + owned);
  }

  /** An input on which it fails: text in a numeric field passes the check and is costed as a number. */
  lemma TextInNumericField(t: Text, o: Owned)
    requires SerialisedWidth(t) == MAX_STRING && OwnedFits(o)
    ensures ShapeOk(Event("a", [Entry("tabId", Str(t))]))
    ensures |RenderObject(StoredFields(Event("a", [Entry("tabId", Str(t))]), o))| > TYPE_WIDTH + WidthOf(["tabId"]) + OWNED_WIDTH
  {
    var e := Event("a", [Entry("tabId", Str(t))]);
    var kind, field := Field(U("type"), Str(U("a"))), Field(U("tabId"), Str(t));
    SmallNamesArePlain();
    TabIdIsNumeric();
    PlainField("type", Str(U("a")));
    PlainText("a");
    PlainField("tabId", Str(t));
    PlainEscape(U("a"));
    assert Fields(e.entries) == [field];
    OwnedLength(o);
    StoredLength(kind, [field], OwnedFields(o));
    StoredLength(kind, [field], []);
    assert [kind] + [field] + [] == AllFields(e);
  }

  lemma SmallNamesArePlain()
    ensures PlainUnits(U("type")) && PlainUnits(U("a")) && PlainUnits(U("tabId"))
  {
    LettersArePlain("type");
    LettersArePlain("a");
    LettersArePlain("tabId");
  }

  lemma TabIdIsNumeric()
    ensures ClassOf("tabId") == Numeric && WidthOf(["tabId"]) == 29
  {
    var n := "tabId";
    assert |n| == 5 && n[0] == 't' && n[1] == 'a';
    assert n != "taskId" && n != "scopes" && n != "route" && n != "runId";
    assert ["tabId"][..0] == [];
    assert n != "type" && !IsOpaqueId(n) && IsNumeric(n);
  }
}
