/** The whole server: session, identity and Google programs and device calls interleaved over one
    database. */
module Server {
  import opened Store
  import opened StoreSchema
  import R = Rotation
  import I = Identity
  import G = GoogleAuth
  import Challenges
  import Devices

  /** One map of callers a service. Names drawn for challenges are kept apart from the others: no
      table holds both. */
  datatype State = State(
    whole: Whole, minted: set<string>, rotating: map<nat, R.Pc>, signing: map<nat, I.Pc>,
    redeeming: map<nat, G.Pc>, named: set<string>)

  datatype Event =
    | Sessions(session: R.Event)
    | Identities(identity: I.Event)
    | Google(google: G.Event)
    | InsertDevice(row: Devices.DeviceRow)
    | SetDeviceRetired(key: Devices.DeviceKey, at: Option<int>, reactivatedAt: Option<int>)
    | TouchDevice(key: Devices.DeviceKey, seenAt: int)

  // ---- what each service sees ----

  function RotationView(s: State): R.State { R.State(s.whole.db, s.rotating, s.minted) }
  function IdentityView(s: State): I.State { I.State(s.whole.db, s.signing, s.minted, map[], {}) }
  function GoogleView(s: State): G.State { G.State(s.whole.challenges, s.redeeming, s.named, {}) }

  /** A challenge for a link is started by a principal, whose account is there. */
  predicate Enabled(s: State, e: Event) {
    match e
    case Sessions(x) => R.Enabled(RotationView(s), x)
    case Identities(x) => I.Enabled(IdentityView(s), x)
    case Google(x) =>
      G.Enabled(GoogleView(s), x)
      && (x.Start? && x.row.account.Some? ==> x.row.account.value in s.whole.db.users)
    case _ => true
  }

  ghost function After(s: State, e: Event): State
    requires Enabled(s, e)
  {
    match e
    case Sessions(x) =>
      var r := R.After(RotationView(s), x);
      s.(whole := s.whole.(db := r.db), rotating := r.callers, minted := r.minted)
    case Identities(x) =>
      var i := I.After(IdentityView(s), x);
      s.(whole := s.whole.(db := i.db), signing := i.callers, minted := i.minted)
    case Google(x) =>
      var g := G.After(GoogleView(s), x);
      s.(whole := s.whole.(challenges := g.rows), redeeming := g.callers, named := g.minted)
    case InsertDevice(row) =>
      s.(whole := s.whole.(devices := Devices.Inserting(s.whole.devices, s.whole.db.users.Keys, row)))
    case SetDeviceRetired(k, at, reactivatedAt) =>
      s.(whole := s.whole.(devices := Devices.Retiring(s.whole.devices, k, at, reactivatedAt)))
    case TouchDevice(k, at) => s.(whole := s.whole.(devices := Devices.Touching(s.whole.devices, k, at)))
  }

  // ---- runs ----

  datatype History = History(states: seq<State>, events: seq<Event>)

  /** Any lawful database, empty tables for one, with every caller at its entry. */
  ghost predicate Initial(s: State) {
    && Lawful(s.whole)
    && G.RowsOk(GoogleView(s))
    && (forall c | c in s.rotating :: R.NotStarted(s.rotating[c]))
    && (forall c | c in s.signing :: I.Entry(s.signing[c]))
    && (forall c | c in s.redeeming :: G.Entry(s.redeeming[c]))
  }

  ghost predicate Follows(h: History, i: nat)
    requires |h.states| == |h.events| + 1 && i < |h.events|
  {
    Enabled(h.states[i], h.events[i]) && h.states[i + 1] == After(h.states[i], h.events[i])
  }

  ghost predicate IsRun(h: History) {
    |h.states| == |h.events| + 1 && Initial(h.states[0]) && forall i | 0 <= i < |h.events| :: Follows(h, i)
  }
}
