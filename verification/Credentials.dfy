/**
 Token generations: which user and device tokens are accepted, while companies are suspended and
 reactivated, devices paired, rotated and revoked, and user access invalidated.
 */
module Credentials {
  import opened Wrappers

  type Id = nat

  datatype Company = Company(active: bool, generation: int)

  datatype User = User(company: Id, active: bool, deleted: bool, generation: int)

  datatype Session = Session(user: Id, company: Id, revoked: bool, expires: int)

  datatype Device = Device(
    company: Id, branch: Id, kind: string, station: Option<string>, generation: int, revoked: bool, paired: bool)

  datatype World = World(
    companies: map<Id, Company>, users: map<Id, User>, sessions: map<Id, Session>, devices: map<Id, Device>)

  function GetOr(claim: Option<int>, default: int): int {
    if claim.Some? then claim.value else default
  }

  // ----- Acceptance -----

  /** A decoded user token; an absent generation claim belongs to generation 1. */
  datatype UserToken = UserToken(
    access: bool, user: Id, company: Id, companyGeneration: Option<int>, userGeneration: Option<int>,
    qaMode: bool, session: Option<Id>)

  predicate SessionLives(w: World, t: UserToken, now: int) {
    t.session.Some? ==>
      && t.session.value in w.sessions
      && var s := w.sessions[t.session.value];
      s.user == t.user && s.company == t.company && !s.revoked && s.expires > now
  }

  /** `get_current_user`, up to the branch context of the token. */
  predicate AcceptsUser(w: World, t: UserToken, now: int, qaEnabled: bool) {
    && t.access
    && t.user in w.users && w.users[t.user].company == t.company
    && !w.users[t.user].deleted && w.users[t.user].active
    && t.company in w.companies && w.companies[t.company].active
    && GetOr(t.companyGeneration, 1) == w.companies[t.company].generation
    && GetOr(t.userGeneration, 1) == w.users[t.user].generation
    && (t.qaMode ==> qaEnabled)
    && SessionLives(w, t, now)
  }

  datatype Context = Context(brand: Id, businessType: string, targetDatabase: string)

  datatype DeviceToken = DeviceToken(
    deviceAccess: bool, device: Id, company: Id, branch: Id, brand: Id, companyGeneration: Option<int>, generation: int,
    kind: Option<string>, station: Option<string>, businessType: Option<string>, targetDatabase: Option<string>)

  /** The branch context, the feature switches and the kitchen stations a request finds. */
  datatype Surroundings = Surroundings(
    context: Option<Context>, takeawayEnabled: bool, takeawayFeature: bool, retailFeature: bool,
    stationConfigured: bool)

  predicate CredentialHolds(w: World, t: DeviceToken) {
    && t.device in w.devices && w.devices[t.device].company == t.company && w.devices[t.device].branch == t.branch
    && t.company in w.companies && w.companies[t.company].active
    && GetOr(t.companyGeneration, 1) == w.companies[t.company].generation
    && !w.devices[t.device].revoked && w.devices[t.device].paired
    && w.devices[t.device].generation == t.generation
    && Some(w.devices[t.device].kind) == t.kind && w.devices[t.device].station == t.station
  }

  predicate ContextAdmits(t: DeviceToken, kind: string, s: Surroundings) {
    && s.context.Some?
    && var c := s.context.value;
    && c.brand == t.brand
    && c.businessType in {"restaurant", "retail_pos", "takeaway"} && c.targetDatabase == c.businessType
    && t.businessType == Some(c.businessType) && t.targetDatabase == Some(c.targetDatabase)
    && (c.businessType == "takeaway" ==> s.takeawayEnabled && s.takeawayFeature)
    && (c.businessType == "retail_pos" ==> kind == "counter" && s.retailFeature)
    && (c.businessType == "restaurant" && kind == "kitchen" ==> s.stationConfigured)
  }

  /** The acceptance part of `resolve_device_token`. */
  predicate AcceptsDevice(w: World, t: DeviceToken, s: Surroundings) {
    t.deviceAccess && CredentialHolds(w, t) && ContextAdmits(t, w.devices[t.device].kind, s)
  }

  /** The token a device is given when it pairs or renews. */
  function Issue(w: World, d: Id, c: Context): DeviceToken
    requires d in w.devices && w.devices[d].company in w.companies
  {
    var device := w.devices[d];
    DeviceToken(true, d, device.company, device.branch, c.brand, Some(w.companies[device.company].generation),
                device.generation, Some(device.kind), device.station, Some(c.businessType), Some(c.targetDatabase))
  }

  /** The token a user is given at login, for the refresh session of that login. */
  function Login(w: World, u: Id, session: Id, qaMode: bool): UserToken
    requires u in w.users && w.users[u].company in w.companies
  {
    var user := w.users[u];
    UserToken(true, u, user.company, Some(w.companies[user.company].generation), Some(user.generation),
              qaMode, Some(session))
  }

  /** A generation claim that fits: the generation itself, or none for the first. */
  predicate Claims(claim: Option<int>, generation: int) {
    claim == Some(generation) || (claim == None && generation == 1)
  }

  /**
   A user token is accepted exactly when it claims what a login now would be given, user and company are in
   service, and its session, if it names one, is its user's own, not revoked and not yet expired.
   */
  lemma UserAcceptedExactly(w: World, t: UserToken, now: int, qaEnabled: bool)
    ensures AcceptsUser(w, t, now, qaEnabled) <==>
            && t.user in w.users && w.users[t.user].active && !w.users[t.user].deleted
            && w.users[t.user].company in w.companies && w.companies[w.users[t.user].company].active
            && t == Login(w, t.user, 0, t.qaMode).(session := t.session, companyGeneration := t.companyGeneration,
                                                   userGeneration := t.userGeneration)
            && Claims(t.companyGeneration, w.companies[t.company].generation)
            && Claims(t.userGeneration, w.users[t.user].generation)
            && (t.qaMode ==> qaEnabled)
            && (forall id | t.session == Some(id) ::
                  && id in w.sessions && w.sessions[id].user == t.user && w.sessions[id].company == t.company
                  && !w.sessions[id].revoked && now < w.sessions[id].expires)
  {
    hide SessionLives;
    SessionLivesExactly(w, t, now);
  }

  lemma SessionLivesExactly(w: World, t: UserToken, now: int)
    ensures SessionLives(w, t, now) <==>
            forall id | t.session == Some(id) ::
              && id in w.sessions && w.sessions[id].user == t.user && w.sessions[id].company == t.company
              && !w.sessions[id].revoked && now < w.sessions[id].expires
  {
    if t.session.Some? { assert t.session == Some(t.session.value); }
  }

  /** What a business type asks of the device and of the switches before a device may work in it. */
  predicate Serves(businessType: string, kind: string, s: Surroundings) {
    || (businessType == "takeaway" && s.takeawayEnabled && s.takeawayFeature)
    || (businessType == "retail_pos" && kind == "counter" && s.retailFeature)
    || (businessType == "restaurant" && (kind != "kitchen" || s.stationConfigured))
  }

  /**
   A device token is accepted exactly when it claims what the device would now be issued, the device is paired,
   not revoked, its company is active, and the branch is in one of the three businesses, on its own database,
   with all that this business asks for.
   */
  lemma DeviceAcceptedExactly(w: World, t: DeviceToken, s: Surroundings)
    ensures AcceptsDevice(w, t, s) <==>
            && t.device in w.devices && w.devices[t.device].paired && !w.devices[t.device].revoked
            && w.devices[t.device].company in w.companies && w.companies[w.devices[t.device].company].active
            && s.context.Some? && s.context.value.targetDatabase == s.context.value.businessType
            && Serves(s.context.value.businessType, w.devices[t.device].kind, s)
            && t == Issue(w, t.device, s.context.value).(companyGeneration := t.companyGeneration)
            && Claims(t.companyGeneration, w.companies[t.company].generation)
  {
  }

  // ----- What happens to the rows -----

  datatype Event =
    | Suspend(company: Id)
    | Reactivate(company: Id)
    | Pair(device: Id, pinAccepted: bool)
    | Rotate(device: Id)
    | Revoke(device: Id)
    | InvalidateUser(user: Id)
    | SetUser(user: Id, active: bool, deleted: bool)
    | AddCompany(id: Id)
    | AddUser(id: Id, company: Id)
    | AddSession(id: Id, started: Session)
    | Logout(session: Id)
    | AddDevice(id: Id, registered: Device)

  function SuspendDevice(d: Device, company: Id): Device {
    if d.company == company then d.(generation := d.generation + 1, paired := false) else d
  }

  /** A refused request changes nothing. */
  function Step(w: World, e: Event): World {
    match e
    case Suspend(c) =>
      if c !in w.companies || !w.companies[c].active then w
      else
        w.(companies := w.companies[c := Company(false, w.companies[c].generation + 1)],
           sessions := map s | s in w.sessions ::
             if w.sessions[s].company == c then w.sessions[s].(revoked := true) else w.sessions[s],
           devices := map d | d in w.devices :: SuspendDevice(w.devices[d], c))
    case Reactivate(c) =>
      if c !in w.companies then w else w.(companies := w.companies[c := w.companies[c].(active := true)])
    case Pair(d, pinAccepted) =>
      if CanPair(w, d) && pinAccepted then w.(devices := w.devices[d := w.devices[d].(paired := true)]) else w
    case Rotate(d) =>
      if d !in w.devices || w.devices[d].revoked then w
      else w.(devices := w.devices[d := w.devices[d].(generation := w.devices[d].generation + 1, paired := false)])
    case Revoke(d) =>
      if d !in w.devices || w.devices[d].revoked then w
      else w.(devices := w.devices[d := w.devices[d].(generation := w.devices[d].generation + 1, revoked := true)])
    case InvalidateUser(u) =>
      if u !in w.users then w
      else
        w.(users := w.users[u := w.users[u].(generation := w.users[u].generation + 1)],
           sessions := map s | s in w.sessions ::
             if w.sessions[s].user == u && w.sessions[s].company == w.users[u].company
             then w.sessions[s].(revoked := true) else w.sessions[s])
    case SetUser(u, active, deleted) =>
      if u !in w.users then w else w.(users := w.users[u := w.users[u].(active := active, deleted := deleted)])
    case AddCompany(c) =>
      if c in w.companies then w else w.(companies := w.companies[c := Company(true, 1)])
    case AddUser(u, c) =>
      if u in w.users then w else w.(users := w.users[u := User(c, true, false, 1)])
    case AddSession(s, session) =>
      if s in w.sessions then w else w.(sessions := w.sessions[s := session])
    case Logout(s) =>
      if s !in w.sessions then w else w.(sessions := w.sessions[s := w.sessions[s].(revoked := true)])
    case AddDevice(d, device) =>
      if d in w.devices then w
      else w.(devices := w.devices[d := device.(generation := 1, revoked := false, paired := false)])
  }

  predicate CanPair(w: World, d: Id) {
    && d in w.devices && !w.devices[d].revoked
    && w.devices[d].company in w.companies && w.companies[w.devices[d].company].active
  }

  function Run(w: World, events: seq<Event>): World
    decreases |events|
  {
    if events == [] then w else Run(Step(w, events[0]), events[1..])
  }

  // ----- Fallen behind once, refused for ever -----

  predicate UserOutdated(w: World, t: UserToken) {
    || (t.company in w.companies && GetOr(t.companyGeneration, 1) < w.companies[t.company].generation)
    || (t.user in w.users && GetOr(t.userGeneration, 1) < w.users[t.user].generation)
  }

  predicate DeviceOutdated(w: World, t: DeviceToken) {
    || (t.company in w.companies && GetOr(t.companyGeneration, 1) < w.companies[t.company].generation)
    || (t.device in w.devices && (w.devices[t.device].revoked || t.generation < w.devices[t.device].generation))
  }

  lemma OutdatedUserStep(w: World, e: Event, t: UserToken)
    requires UserOutdated(w, t)
    ensures UserOutdated(Step(w, e), t)
  {
  }

  lemma OutdatedUserNow(w: World, t: UserToken)
    requires UserOutdated(w, t)
    ensures forall now, qaEnabled :: !AcceptsUser(w, t, now, qaEnabled)
  {
  }

  /** A user token that has fallen behind is refused in every later state, at any time. */
  lemma {:induction false} OutdatedUserRefused(w: World, events: seq<Event>, t: UserToken)
    requires UserOutdated(w, t)
    ensures UserOutdated(Run(w, events), t)
    ensures forall now, qaEnabled :: !AcceptsUser(Run(w, events), t, now, qaEnabled)
    decreases |events|
  {
    hide Step, UserOutdated, AcceptsUser;
    if events == [] {
      OutdatedUserNow(w, t);
    } else {
      OutdatedUserStep(w, events[0], t);
      OutdatedUserRefused(Step(w, events[0]), events[1..], t);
    }
  }

  lemma OutdatedDeviceStep(w: World, e: Event, t: DeviceToken)
    requires DeviceOutdated(w, t)
    ensures DeviceOutdated(Step(w, e), t)
  {
  }

  lemma OutdatedDeviceNow(w: World, t: DeviceToken)
    requires DeviceOutdated(w, t)
    ensures forall s :: !AcceptsDevice(w, t, s)
  {
  }

  lemma {:induction false} OutdatedDeviceRefused(w: World, events: seq<Event>, t: DeviceToken)
    requires DeviceOutdated(w, t)
    ensures DeviceOutdated(Run(w, events), t)
    ensures forall s :: !AcceptsDevice(Run(w, events), t, s)
    decreases |events|
  {
    hide Step, DeviceOutdated, AcceptsDevice;
    if events == [] {
      OutdatedDeviceNow(w, t);
    } else {
      OutdatedDeviceStep(w, events[0], t);
      OutdatedDeviceRefused(Step(w, events[0]), events[1..], t);
    }
  }

  /**
   A suspension of the company or an invalidation of the user's access ends the tokens of a user for good:
   whatever follows, reactivation included, they stay refused.
   */
  lemma UserTokensEnd(w: World, t: UserToken, now: int, qaEnabled: bool, e: Event, events: seq<Event>)
    requires AcceptsUser(w, t, now, qaEnabled)
    requires e == Suspend(t.company) || e == InvalidateUser(t.user)
    ensures forall later, qa :: !AcceptsUser(Run(Step(w, e), events), t, later, qa)
  {
    OutdatedUserRefused(Step(w, e), events, t);
  }

  /** So does a suspension, a rotation or a revocation those of a device, pairing included. */
  lemma DeviceTokensEnd(w: World, t: DeviceToken, s: Surroundings, e: Event, events: seq<Event>)
    requires AcceptsDevice(w, t, s)
    requires e == Suspend(t.company) || e == Rotate(t.device) || e == Revoke(t.device)
    ensures forall later :: !AcceptsDevice(Run(Step(w, e), events), t, later)
  {
    OutdatedDeviceRefused(Step(w, e), events, t);
  }

  // ----- Generations count -----

  /** How often the company is suspended along the run. */
  function Suspensions(w: World, events: seq<Event>, c: Id): nat
    decreases |events|
  {
    if events == [] then 0
    else
      (if events[0] == Suspend(c) && c in w.companies && w.companies[c].active then 1 else 0) +
      Suspensions(Step(w, events[0]), events[1..], c)
  }

  /** A company starts in generation 1, and its generation counts its suspensions from then on. */
  lemma {:induction false} GenerationCountsSuspensions(w: World, events: seq<Event>, c: Id)
    ensures c in w.companies ==> c in Run(w, events).companies
    ensures c in Run(w, events).companies ==>
              Run(w, events).companies[c].generation ==
              (if c in w.companies then w.companies[c].generation else 1) + Suspensions(w, events, c)
    decreases |events|
  {
    if events != [] { GenerationCountsSuspensions(Step(w, events[0]), events[1..], c); }
  }

  /** How often the access of the user is invalidated along the run. */
  function Invalidations(w: World, events: seq<Event>, u: Id): nat
    decreases |events|
  {
    if events == [] then 0
    else
      (if events[0] == InvalidateUser(u) && u in w.users then 1 else 0) +
      Invalidations(Step(w, events[0]), events[1..], u)
  }

  lemma InvalidationStep(w: World, e: Event, u: Id)
    ensures u in w.users ==> u in Step(w, e).users
    ensures u in Step(w, e).users ==>
              Step(w, e).users[u].generation ==
              if u !in w.users then 1
              else if e == InvalidateUser(u) then w.users[u].generation + 1 else w.users[u].generation
  {
  }

  /** A user starts in generation 1, and the generation counts the invalidations from then on. */
  lemma {:induction false} GenerationCountsInvalidations(w: World, events: seq<Event>, u: Id)
    ensures u in w.users ==> u in Run(w, events).users
    ensures u in Run(w, events).users ==>
              Run(w, events).users[u].generation ==
              (if u in w.users then w.users[u].generation else 1) + Invalidations(w, events, u)
    decreases |events|
  {
    hide Step;
    if events != [] {
      InvalidationStep(w, events[0], u);
      GenerationCountsInvalidations(Step(w, events[0]), events[1..], u);
    }
  }

  /** An event that ends what device `d` was issued: a suspension of its company, a rotation or a revocation. */
  predicate Renews(w: World, e: Event, d: Id) {
    && d in w.devices
    && var c := w.devices[d].company;
    || (e == Suspend(c) && c in w.companies && w.companies[c].active)
    || (e == Rotate(d) && !w.devices[d].revoked) || (e == Revoke(d) && !w.devices[d].revoked)
  }

  function Renewals(w: World, events: seq<Event>, d: Id): nat
    decreases |events|
  {
    if events == [] then 0
    else (if Renews(w, events[0], d) then 1 else 0) + Renewals(Step(w, events[0]), events[1..], d)
  }

  lemma RenewalStep(w: World, e: Event, d: Id)
    ensures if d in w.devices then d in Step(w, e).devices else !Renews(w, e, d)
    ensures d in Step(w, e).devices ==>
              Step(w, e).devices[d].generation ==
              (if d in w.devices then w.devices[d].generation else 1) + (if Renews(w, e, d) then 1 else 0)
  {
  }

  /** A device starts in generation 1, and its generation counts what ended its credentials. */
  lemma {:induction false} GenerationCountsRenewals(w: World, events: seq<Event>, d: Id)
    ensures d in w.devices ==> d in Run(w, events).devices
    ensures d in Run(w, events).devices ==>
              Run(w, events).devices[d].generation ==
              (if d in w.devices then w.devices[d].generation else 1) + Renewals(w, events, d)
    decreases |events|
  {
    hide Step, Renews;
    if events != [] {
      RenewalStep(w, events[0], d);
      GenerationCountsRenewals(Step(w, events[0]), events[1..], d);
    }
  }

  /** Tokens without a company generation are good until the company is suspended for the first time. */
  lemma UnclaimedUntilFirstSuspension(w: World, events: seq<Event>, user: UserToken, device: DeviceToken,
                                      now: int, qaEnabled: bool, s: Surroundings)
    requires user.company == device.company && user.companyGeneration.None? && device.companyGeneration.None?
    requires user.company in w.companies && w.companies[user.company].generation == 1
    ensures AcceptsUser(Run(w, events), user, now, qaEnabled) || AcceptsDevice(Run(w, events), device, s) ==>
              Suspensions(w, events, user.company) == 0
  {
    GenerationCountsSuspensions(w, events, user.company);
  }

  // ----- The life of a device token -----

  /** An event that ends the tokens of device `d` of company `c`. */
  predicate Ends(w: World, e: Event, d: Id, c: Id) {
    || (e == Suspend(c) && c in w.companies && w.companies[c].active)
    || (e in {Rotate(d), Revoke(d)} && d in w.devices && !w.devices[d].revoked)
  }

  predicate EndedBy(w: World, events: seq<Event>, d: Id, c: Id)
    decreases |events|
  {
    events != [] && (Ends(w, events[0], d, c) || EndedBy(Step(w, events[0]), events[1..], d, c))
  }

  lemma {:induction false} HoldsUntilEnded(w: World, events: seq<Event>, t: DeviceToken)
    requires CredentialHolds(w, t)
    ensures CredentialHolds(Run(w, events), t) <==> !EndedBy(w, events, t.device, t.company)
    decreases |events|
  {
    if events != [] {
      var next := Step(w, events[0]);
      if Ends(w, events[0], t.device, t.company) {
        assert DeviceOutdated(next, t);
        OutdatedDeviceRefused(next, events[1..], t);
      } else {
        assert CredentialHolds(next, t);
        HoldsUntilEnded(next, events[1..], t);
      }
    }
  }

  /**
   A token issued at pairing is accepted after any run and in any surroundings exactly when nothing in the run
   ended it, and the branch still has the brand and the business it was issued for and serves the device.
   */
  lemma PairedTokenLifetime(w: World, d: Id, c: Context, events: seq<Event>, s: Surroundings)
    requires CanPair(w, d)
    ensures var paired := Step(w, Pair(d, true));
            AcceptsDevice(Run(paired, events), Issue(paired, d, c), s) <==>
            && !EndedBy(paired, events, d, w.devices[d].company)
            && s.context == Some(c) && c.targetDatabase == c.businessType
            && Serves(c.businessType, w.devices[d].kind, s)
  {
    hide Run, EndedBy, Serves;
    var paired := Step(w, Pair(d, true));
    var t := Issue(paired, d, c);
    HoldsUntilEnded(paired, events, t);
    DeviceAcceptedExactly(Run(paired, events), t, s);
  }

  lemma {:induction false} UnpairedRefused(w: World, events: seq<Event>, d: Id)
    requires d in w.devices ==> !w.devices[d].paired
    requires Pair(d, true) !in events
    ensures d in Run(w, events).devices ==> !Run(w, events).devices[d].paired
    decreases |events|
  {
    if events != [] {
      assert events[0] in events;
      UnpairedRefused(Step(w, events[0]), events[1..], d);
    }
  }

  /**
   A new device, or one whose company was suspended or whose code was rotated, must be paired first: until then
   no token of it whatsoever is accepted, reactivation or not.
   */
  lemma PairingNeeded(w: World, e: Event, events: seq<Event>, t: DeviceToken, s: Surroundings)
    requires Pair(t.device, true) !in events
    requires t.device !in w.devices || (Renews(w, e, t.device) && !e.Revoke?)
    ensures !AcceptsDevice(Run(Step(w, e), events), t, s)
  {
    UnpairedRefused(Step(w, e), events, t.device);
  }

  lemma {:induction false} RevokedStays(w: World, events: seq<Event>, d: Id)
    requires d in w.devices && w.devices[d].revoked
    ensures d in Run(w, events).devices && Run(w, events).devices[d].revoked
    decreases |events|
  {
    if events != [] { RevokedStays(Step(w, events[0]), events[1..], d); }
  }

  /** A revoked device is out for good: whatever follows, no token of it is accepted, old or new. */
  lemma RevokedForGood(w: World, events: seq<Event>, t: DeviceToken, s: Surroundings)
    ensures t.device in w.devices ==> !AcceptsDevice(Run(Step(w, Revoke(t.device)), events), t, s)
  {
    if t.device in w.devices { RevokedStays(Step(w, Revoke(t.device)), events, t.device); }
  }

  // ----- The life of a user token -----

  /** The token is of the generations of its rows, and its session is its own and has not been revoked. */
  predicate Current(w: World, t: UserToken) {
    && t.company in w.companies && t.companyGeneration == Some(w.companies[t.company].generation)
    && t.user in w.users && w.users[t.user].company == t.company
    && t.userGeneration == Some(w.users[t.user].generation)
    && t.session.Some? && t.session.value in w.sessions
    && var s := w.sessions[t.session.value]; s.user == t.user && s.company == t.company && !s.revoked
  }

  /** The session has been revoked, or a generation has moved on. */
  predicate Dead(w: World, t: UserToken) {
    || UserOutdated(w, t)
    || (t.session.Some? && t.session.value in w.sessions && w.sessions[t.session.value].revoked)
  }

  /** A suspension of the active company, an invalidation of the user's access, or a logout. */
  predicate EndsLogin(w: World, e: Event, t: UserToken) {
    || (e == Suspend(t.company) && t.company in w.companies && w.companies[t.company].active)
    || e == InvalidateUser(t.user)
    || (e.Logout? && t.session == Some(e.session))
  }

  predicate LoginEnded(w: World, events: seq<Event>, t: UserToken)
    decreases |events|
  {
    events != [] && (EndsLogin(w, events[0], t) || LoginEnded(Step(w, events[0]), events[1..], t))
  }

  lemma CurrentStep(w: World, e: Event, t: UserToken)
    requires Current(w, t)
    ensures if EndsLogin(w, e, t) then Dead(Step(w, e), t) else Current(Step(w, e), t)
  {
  }

  lemma DeadStep(w: World, e: Event, t: UserToken)
    requires Dead(w, t)
    ensures Dead(Step(w, e), t)
  {
  }

  lemma {:induction false} DeadForGood(w: World, events: seq<Event>, t: UserToken)
    requires Dead(w, t)
    ensures Dead(Run(w, events), t)
    decreases |events|
  {
    hide Step, Dead;
    if events != [] {
      DeadStep(w, events[0], t);
      DeadForGood(Step(w, events[0]), events[1..], t);
    }
  }

  lemma DeadNotCurrent(w: World, t: UserToken)
    requires Dead(w, t)
    ensures !Current(w, t) && forall now, qaEnabled :: !AcceptsUser(w, t, now, qaEnabled)
  {
  }

  lemma {:induction false} CurrentUntilEnded(w: World, events: seq<Event>, t: UserToken)
    requires Current(w, t)
    ensures Current(Run(w, events), t) <==> !LoginEnded(w, events, t)
    decreases |events|
  {
    hide Step, Current, Dead, EndsLogin;
    if events != [] {
      CurrentStep(w, events[0], t);
      if EndsLogin(w, events[0], t) {
        DeadForGood(Step(w, events[0]), events[1..], t);
        DeadNotCurrent(Run(w, events), t);
      } else {
        CurrentUntilEnded(Step(w, events[0]), events[1..], t);
      }
    }
  }

  /** Logging out ends every token of the session: each is refused in every later state, at any time. */
  lemma LogoutEnds(w: World, t: UserToken, id: Id, events: seq<Event>)
    requires t.session == Some(id) && id in w.sessions
    ensures forall now, qaEnabled :: !AcceptsUser(Run(Step(w, Logout(id)), events), t, now, qaEnabled)
  {
    DeadForGood(Step(w, Logout(id)), events, t);
    DeadNotCurrent(Run(Step(w, Logout(id)), events), t);
  }

  /** What revokes a session: its logout, a suspension of its company, an invalidation of its user's access. */
  predicate Revokes(w: World, e: Event, id: Id)
    requires id in w.sessions
  {
    var s := w.sessions[id];
    || e == Logout(id)
    || (e == Suspend(s.company) && s.company in w.companies && w.companies[s.company].active)
    || (e == InvalidateUser(s.user) && s.user in w.users && w.users[s.user].company == s.company)
  }

  predicate RevokedBy(w: World, events: seq<Event>, id: Id)
    requires id in w.sessions
    decreases |events|
  {
    events != [] && (Revokes(w, events[0], id) || RevokedBy(Step(w, events[0]), events[1..], id))
  }

  lemma RevocationStep(w: World, e: Event, id: Id)
    requires id in w.sessions
    ensures var after := Step(w, e);
            && id in after.sessions
            && after.sessions[id] == w.sessions[id].(revoked := w.sessions[id].revoked || Revokes(w, e, id))
  {
  }

  /** A session stays its user's, keeps its expiry, and is revoked exactly by one of these. */
  lemma {:induction false} SessionRevokedExactly(w: World, events: seq<Event>, id: Id)
    requires id in w.sessions
    ensures var after := Run(w, events);
            && id in after.sessions
            && after.sessions[id] == w.sessions[id].(revoked := w.sessions[id].revoked || RevokedBy(w, events, id))
    decreases |events|
  {
    hide Step, Revokes;
    if events != [] {
      RevocationStep(w, events[0], id);
      SessionRevokedExactly(Step(w, events[0]), events[1..], id);
    }
  }

  /**
   A login is good after any run exactly until its session expires, as long as no suspension, invalidation or
   logout of the run has ended it, and user and company are in service.
   */
  lemma LoginLifetime(w: World, u: Id, id: Id, expires: int, qaMode: bool, events: seq<Event>, now: int,
                      qaEnabled: bool)
    requires u in w.users && w.users[u].company in w.companies && id !in w.sessions
    ensures var c := w.users[u].company;
            var start, t := Step(w, AddSession(id, Session(u, c, false, expires))), Login(w, u, id, qaMode);
            var after := Run(start, events);
            AcceptsUser(after, t, now, qaEnabled) <==>
            && !LoginEnded(start, events, t) && now < expires && (qaMode ==> qaEnabled)
            && u in after.users && after.users[u].active && !after.users[u].deleted
            && c in after.companies && after.companies[c].active
  {
    hide Run, LoginEnded;
    var c := w.users[u].company;
    var start, t := Step(w, AddSession(id, Session(u, c, false, expires))), Login(w, u, id, qaMode);
    CurrentUntilEnded(start, events, t);
    SessionRevokedExactly(start, events, id);
  }

  /** Suspension ends a login, reactivation does not bring it back, and the next login works. */
  lemma SuspensionTakesEffect(w: World, u: Id, session: Id, next: Id, expires: int, now: int, qaEnabled: bool)
    requires u in w.users && w.users[u].company in w.companies
    requires AcceptsUser(w, Login(w, u, session, false), now, qaEnabled)
    requires next !in w.sessions && expires > now
    ensures var c := w.users[u].company;
            var suspended := Step(w, Suspend(c));
            var back := Step(Step(suspended, Reactivate(c)), AddSession(next, Session(u, c, false, expires)));
            && !AcceptsUser(suspended, Login(suspended, u, session, false), now, qaEnabled)
            && !AcceptsUser(back, Login(w, u, session, false), now, qaEnabled)
            && AcceptsUser(back, Login(back, u, next, false), now, qaEnabled)
  {
  }

  /** Whether the company is in service after the run, having been so, or not, before. */
  function InService(before: bool, events: seq<Event>, c: Id): bool {
    if events == [] then before
    else
      var n := |events| - 1;
      events[n] == Reactivate(c) || (events[n] != Suspend(c) && InService(before, events[..n], c))
  }

  /** Whether the user may log in: what was last set, or what held before. */
  function LastSet(before: (bool, bool), events: seq<Event>, u: Id): (bool, bool) {
    if events == [] then before
    else
      var n := |events| - 1;
      if events[n].SetUser? && events[n].user == u then (events[n].active, events[n].deleted)
      else LastSet(before, events[..n], u)
  }

  lemma {:induction false} RunLast(w: World, events: seq<Event>, e: Event)
    ensures Run(w, events + [e]) == Step(Run(w, events), e)
    decreases |events|
  {
    if events == [] {
      assert [] + [e] == [e];
      assert Run(w, [e]) == Run(Step(w, e), []);
    } else {
      assert (events + [e])[1..] == events[1..] + [e];
      RunLast(Step(w, events[0]), events[1..], e);
    }
  }

  lemma RunNothing(w: World)
    ensures Run(w, []) == w
  {
  }

  lemma ServiceStep(w: World, e: Event, c: Id, u: Id)
    requires c in w.companies && u in w.users
    ensures var after := Step(w, e);
            && c in after.companies
            && after.companies[c].active == (e == Reactivate(c) || (e != Suspend(c) && w.companies[c].active))
            && u in after.users && after.users[u].company == w.users[u].company
            && (after.users[u].active, after.users[u].deleted) ==
               if e.SetUser? && e.user == u then (e.active, e.deleted) else (w.users[u].active, w.users[u].deleted)
  {
  }

  /** Company and user are in service as the last suspension, reactivation or setting of the run has left them. */
  lemma {:induction false} LastDecides(w: World, events: seq<Event>, c: Id, u: Id)
    requires c in w.companies && u in w.users
    ensures var after := Run(w, events);
            && c in after.companies && after.companies[c].active == InService(w.companies[c].active, events, c)
            && u in after.users && after.users[u].company == w.users[u].company
            && (after.users[u].active, after.users[u].deleted) ==
               LastSet((w.users[u].active, w.users[u].deleted), events, u)
  {
    hide Step, Run;
    if events == [] {
      assert Run(w, events) == w by { RunNothing(w); }
    } else {
      var n := |events| - 1;
      LastDecides(w, events[..n], c, u);
      RunLast(w, events[..n], events[n]);
      ServiceStep(Run(w, events[..n]), events[n], c, u);
      assert events[..n] + [events[n]] == events;
    }
  }

  /** A new company can work at once: its new user's login and its new device, once paired, are accepted. */
  lemma NewCompanyWorks(w: World, c: Id, u: Id, id: Id, expires: int, d: Id, device: Device, now: int,
                        s: Surroundings, qaEnabled: bool)
    requires c !in w.companies && u !in w.users && id !in w.sessions && d !in w.devices
    requires device.company == c && now < expires
    requires s.context.Some? && s.context.value.targetDatabase == s.context.value.businessType
    requires Serves(s.context.value.businessType, device.kind, s)
    ensures var founded := Step(Step(w, AddCompany(c)), AddUser(u, c));
            var open := Step(Step(founded, AddSession(id, Session(u, c, false, expires))), AddDevice(d, device));
            && u in open.users && c in open.companies && open.users[u].company == c
            && AcceptsUser(open, Login(open, u, id, false), now, qaEnabled)
            && d in open.devices && open.devices[d].company == c
            && AcceptsDevice(Step(open, Pair(d, true)), Issue(open, d, s.context.value), s)
  {
  }
}
