/** The declared schema: one descriptor that both the table engine and the DDL renderer read. */
module Schema {
  import opened Store
  import EmailAddress

  datatype Tab = AbaUser | AuthIdentity | Session | Device | LoginChallenge

  /** Every column name of every table. */
  datatype Col =
    | Id | CreatedAt | State | DeletedAt
    | AbaUserId | Kind | Subject | Email | EmailVerified | LinkedAt | LinkedVia | LastUsedAt
    | AuthIdentityId | FamilyId | RefreshDigest | DigestVersion | IssuedAt | ExpiresAt | RotatedAt
    | RevokedAt | RevokedReason | LastSeenAt
    | DeviceId | RegisteredAt | RetiredAt | ReactivatedAt
    | Method | Purpose | Nonce | PkceVerifier | RedirectUri | ExchangeDigest | ResolvedAbaUserId
    | ResolvedAuthIdentityId | ResolvedSubject | ResolvedEmail | Attempts | ConsumedAt

  datatype Value = Null | Text(text: string) | Number(number: int) | Flag(on: bool)

  type Row = map<Col, Value>

  datatype ColumnType = TextType | IntegerType | BooleanType | TimeType

  datatype ColumnSpec = ColumnSpec(name: Col, kind: ColumnType, nullable: bool, writeOnce: bool)

  datatype UniqueSpec = UniqueSpec(columns: seq<Col>, present: seq<Col>, absent: seq<Col>)

  datatype OnDelete = Cascade | Restrict | SetNull

  datatype ForeignKey = ForeignKey(columns: seq<Col>, table: Tab, references: seq<Col>, onDelete: OnDelete)

  /** The CHECK expressions the descriptor uses. */
  datatype Expr =
    | IsNull(column: Col)
    | In(column: Col, allowed: seq<string>)
    | Same(left: Expr, right: Expr)
    | Not(inner: Expr)
    | Or(left: Expr, right: Expr)
    | DomainFolded(column: Col)

  /** A check with, perhaps, the predicate that restates it for the engine. */
  datatype Check = Check(expression: Expr, holds: Option<Row -> bool>)

  datatype TableSpec = TableSpec(
    name: Tab, columns: seq<ColumnSpec>, primaryKey: seq<Col>, unique: seq<UniqueSpec>,
    foreignKeys: seq<ForeignKey>, checks: seq<Check>, indexes: seq<seq<Col>>)

  /** `row[name] ?? null`. */
  function At(row: Row, c: Col): Value { if c in row then row[c] else Null }

  function Fixed(name: Col, kind: ColumnType): ColumnSpec { ColumnSpec(name, kind, false, true) }
  function FixedNullable(name: Col, kind: ColumnType): ColumnSpec { ColumnSpec(name, kind, true, true) }
  function Plain(name: Col, kind: ColumnType): ColumnSpec { ColumnSpec(name, kind, false, false) }
  function Nullable(name: Col, kind: ColumnType): ColumnSpec { ColumnSpec(name, kind, true, false) }

  /** Whether the domain of the address is folded, as the engine evaluates it. */
  predicate EmailDomainHolds(row: Row) {
    match At(row, Col.Email)
    case Null => true
    case Text(email) => EmailAddress.DomainIsFolded(email)
    case _ => false
  }

  function UserColumn(i: nat): ColumnSpec {
    match i
    case 0 => Fixed(Col.Id, TextType)
    case 1 => Fixed(Col.CreatedAt, TimeType)
    case 2 => Plain(Col.State, TextType)
    case _ => Nullable(Col.DeletedAt, TimeType)
  }

  function UserTable(): TableSpec {
    TableSpec(
      Tab.AbaUser,
      seq(4, i requires 0 <= i < 4 => UserColumn(i)),
      [Col.Id], [], [],
      [Check(In(Col.State, ["active", "deleted"]), None),
       Check(Same(In(Col.State, ["deleted"]), Not(IsNull(Col.DeletedAt))), None)],
      [])
  }

  function IdentityColumn(i: nat): ColumnSpec {
    match i
    case 0 => Fixed(Col.Id, TextType)
    case 1 => Fixed(Col.AbaUserId, TextType)
    case 2 => Fixed(Col.Kind, TextType)
    case 3 => FixedNullable(Col.Subject, TextType)
    case 4 => Nullable(Col.Email, TextType)
    case 5 => Plain(Col.EmailVerified, BooleanType)
    case 6 => Fixed(Col.LinkedAt, TimeType)
    case 7 => FixedNullable(Col.LinkedVia, TextType)
    case _ => Nullable(Col.LastUsedAt, TimeType)
  }

  function IdentityTable(): TableSpec {
    TableSpec(
      Tab.AuthIdentity,
      seq(9, i requires 0 <= i < 9 => IdentityColumn(i)),
      [Col.Id],
      [UniqueSpec([Col.Kind, Col.Subject], [Col.Subject], []),
       UniqueSpec([Col.Kind, Col.Email], [Col.Email, Col.EmailVerified], [Col.Subject])],
      [ForeignKey([Col.AbaUserId], Tab.AbaUser, [Col.Id], Cascade)],
      [Check(In(Col.Kind, ["google", "email"]), None),
       Check(Or(Not(IsNull(Col.Subject)), Not(IsNull(Col.Email))), None),
       Check(Or(IsNull(Col.Email), DomainFolded(Col.Email)), Some(EmailDomainHolds))],
      [[Col.AbaUserId]])
  }

  function SessionColumn(i: nat): ColumnSpec {
    match i
    case 0 => Fixed(Col.Id, TextType)
    case 1 => Fixed(Col.AbaUserId, TextType)
    case 2 => Nullable(Col.AuthIdentityId, TextType)
    case 3 => Fixed(Col.FamilyId, TextType)
    case 4 => Plain(Col.RefreshDigest, TextType)
    case 5 => Plain(Col.DigestVersion, IntegerType)
    case 6 => Fixed(Col.IssuedAt, TimeType)
    case 7 => Plain(Col.ExpiresAt, TimeType)
    case 8 => Nullable(Col.RotatedAt, TimeType)
    case 9 => Nullable(Col.RevokedAt, TimeType)
    case 10 => Nullable(Col.RevokedReason, TextType)
    case _ => Plain(Col.LastSeenAt, TimeType)
  }

  function SessionTable(): TableSpec {
    TableSpec(
      Tab.Session,
      seq(12, i requires 0 <= i < 12 => SessionColumn(i)),
      [Col.Id],
      [UniqueSpec([Col.RefreshDigest], [], [])],
      [ForeignKey([Col.AbaUserId], Tab.AbaUser, [Col.Id], Cascade),
       ForeignKey([Col.AuthIdentityId], Tab.AuthIdentity, [Col.Id], SetNull)],
      [Check(Same(IsNull(Col.RevokedAt), IsNull(Col.RevokedReason)), None)],
      [[Col.AbaUserId, Col.RevokedAt], [Col.FamilyId], [Col.AuthIdentityId]])
  }

  function DeviceColumn(i: nat): ColumnSpec {
    match i
    case 0 => Fixed(Col.AbaUserId, TextType)
    case 1 => Fixed(Col.DeviceId, TextType)
    case 2 => Fixed(Col.RegisteredAt, TimeType)
    case 3 => Plain(Col.LastSeenAt, TimeType)
    case 4 => Nullable(Col.RetiredAt, TimeType)
    case _ => Nullable(Col.ReactivatedAt, TimeType)
  }

  function DeviceTable(): TableSpec {
    TableSpec(
      Tab.Device,
      seq(6, i requires 0 <= i < 6 => DeviceColumn(i)),
      [Col.AbaUserId, Col.DeviceId], [],
      [ForeignKey([Col.AbaUserId], Tab.AbaUser, [Col.Id], Cascade)],
      [],
      [[Col.AbaUserId, Col.RetiredAt]])
  }

  function ChallengeColumn(i: nat): ColumnSpec {
    match i
    case 0 => Fixed(Col.Id, TextType)
    case 1 => Fixed(Col.Method, TextType)
    case 2 => Fixed(Col.Purpose, TextType)
    case 3 => FixedNullable(Col.AbaUserId, TextType)
    case 4 => FixedNullable(Col.State, TextType)
    case 5 => FixedNullable(Col.Nonce, TextType)
    case 6 => FixedNullable(Col.PkceVerifier, TextType)
    case 7 => FixedNullable(Col.RedirectUri, TextType)
    case 8 => Nullable(Col.ExchangeDigest, TextType)
    case 9 => Nullable(Col.ResolvedAbaUserId, TextType)
    case 10 => Nullable(Col.ResolvedAuthIdentityId, TextType)
    case 11 => Nullable(Col.ResolvedSubject, TextType)
    case 12 => Nullable(Col.ResolvedEmail, TextType)
    case 13 => Plain(Col.Attempts, IntegerType)
    case 14 => Fixed(Col.CreatedAt, TimeType)
    case 15 => Plain(Col.ExpiresAt, TimeType)
    case _ => Nullable(Col.ConsumedAt, TimeType)
  }

  function ChallengeTable(): TableSpec {
    TableSpec(
      Tab.LoginChallenge,
      seq(17, i requires 0 <= i < 17 => ChallengeColumn(i)),
      [Col.Id],
      [UniqueSpec([Col.State], [Col.State], []), UniqueSpec([Col.ExchangeDigest], [Col.ExchangeDigest], [])],
      [ForeignKey([Col.AbaUserId], Tab.AbaUser, [Col.Id], Cascade)],
      [Check(In(Col.Method, ["google", "email"]), None),
       Check(In(Col.Purpose, ["sign_in", "link"]), None),
       Check(Or(Not(In(Col.Purpose, ["link"])), Not(IsNull(Col.AbaUserId))), None)],
      [[Col.ExpiresAt]])
  }

  /** The whole schema, table by table. */
  function Declared(t: Tab): TableSpec {
    match t
    case AbaUser => UserTable()
    case AuthIdentity => IdentityTable()
    case Session => SessionTable()
    case Device => DeviceTable()
    case LoginChallenge => ChallengeTable()
  }

  ghost predicate HasColumn(spec: TableSpec, c: Col) {
    exists i | 0 <= i < |spec.columns| :: spec.columns[i].name == c
  }
}
