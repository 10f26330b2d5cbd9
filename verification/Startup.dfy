/** The check of physical database names at startup, and the routing of requests to databases. */
module Startup {
  import opened Distinct
  import opened Settings
  import opened Wrappers

  // ----- Sessions and their databases -----

  datatype Factory =
    AsyncSessionLocal | PlatformSessionLocal | RestaurantSessionLocal | TakeawaySessionLocal | RetailSessionLocal

  /** `effective_database_url` */
  function Effective(explicit: Option<string>, legacyUrl: string): string {
    if Given(explicit) then explicit.value else legacyUrl
  }

  /** Retail and Takeaway sessions exist only where their address is given. */
  predicate Exists(s: Config, f: Factory) {
    (f.RetailSessionLocal? ==> Given(s.retailUrl)) && (f.TakeawaySessionLocal? ==> Given(s.takeawayUrl))
  }

  function UrlOf(s: Config, f: Factory): string
    requires Exists(s, f)
  {
    match f
    case AsyncSessionLocal => s.databaseUrl
    case PlatformSessionLocal => Effective(s.platformUrl, s.databaseUrl)
    case RestaurantSessionLocal => Effective(s.restaurantUrl, s.databaseUrl)
    case TakeawaySessionLocal => s.takeawayUrl.value
    case RetailSessionLocal => s.retailUrl.value
  }

  // ----- Routing -----

  datatype RouteError = Unavailable | Forbidden

  /** `active_restaurant_service_session_factory` */
  function RestaurantFactory(s: Config): Factory {
    if s.restaurantService == RestaurantOwn then RestaurantSessionLocal else AsyncSessionLocal
  }

  /** `active_retail_service_session_factory`, its error already turned into an answer. */
  function RetailFactory(s: Config): Result<Factory, RouteError> {
    if s.retailService == RetailLegacy then Ok(AsyncSessionLocal)
    else if Given(s.retailUrl) then Ok(RetailSessionLocal)
    else Err(Unavailable)
  }

  /** `active_takeaway_service_session_factory`, likewise. */
  function TakeawayFactory(s: Config): Result<Factory, RouteError> {
    if s.takeawayFeature && s.takeawayService == TakeawayOwn && Given(s.takeawayUrl)
    then Ok(TakeawaySessionLocal) else Err(Unavailable)
  }

  /** `operational_session_factory_for` */
  function OperationalFactory(s: Config, target: Option<string>): Result<Factory, RouteError> {
    if target == Some("restaurant") then Ok(RestaurantFactory(s))
    else if target.None? then Ok(AsyncSessionLocal)
    else if target.value == "retail_pos" then RetailFactory(s)
    else if target.value == "takeaway" then TakeawayFactory(s)
    else Err(Forbidden)
  }

  /** `legacy_model_session_factory_for` */
  function LegacyModelFactory(s: Config, target: Option<string>): Result<Factory, RouteError> {
    if target == Some("takeaway") then Err(Forbidden) else OperationalFactory(s, target)
  }

  /** `active_identity_session_factory` */
  function IdentityFactory(s: Config): Factory {
    if s.identityDatabase == PlatformCore then PlatformSessionLocal else AsyncSessionLocal
  }

  // ----- The check at startup -----

  datatype Names = Names(legacy: string, platform: string, restaurant: string, retail: Option<string>,
      takeaway: Option<string>)

  datatype StartupError =
    | RestaurantWithoutPlatform | PlatformWithoutProjector
    | RetailWithoutPlatform | RetailWithoutProjector | RetailWithoutRetailProjector | RetailWithoutDatabase
    | TakeawayWithoutService | TakeawayWithoutPlatform | TakeawayWithoutProjector | TakeawayWithoutDatabase
    | NamesNotDistinct | RetailWithoutUrl

  type Started = Result<(), StartupError>

  /** The physical names asked for at startup; `databaseAt` answers for each address. */
  function NamesAt(s: Config, databaseAt: string -> string): Names {
    Names(databaseAt(UrlOf(s, AsyncSessionLocal)), databaseAt(UrlOf(s, PlatformSessionLocal)),
          databaseAt(UrlOf(s, RestaurantSessionLocal)),
          if s.retailService == RetailOwn && Given(s.retailUrl) then Some(databaseAt(s.retailUrl.value)) else None,
          if s.takeawayFeature && Given(s.takeawayUrl) then Some(databaseAt(s.takeawayUrl.value)) else None)
  }

  function RetailPrerequisites(s: Config, names: Names): Started {
    if s.retailService == RetailLegacy then Ok(())
    else if s.identityDatabase != PlatformCore then Err(RetailWithoutPlatform)
    else if !s.referenceProjector then Err(RetailWithoutProjector)
    else if !s.retailReferenceProjector then Err(RetailWithoutRetailProjector)
    else if names.retail.None? then Err(RetailWithoutDatabase)
    else Ok(())
  }

  function TakeawayPrerequisites(s: Config, names: Names): Started {
    if !s.takeawayFeature then Ok(())
    else if s.takeawayService != TakeawayOwn then Err(TakeawayWithoutService)
    else if s.identityDatabase != PlatformCore then Err(TakeawayWithoutPlatform)
    else if !s.referenceProjector then Err(TakeawayWithoutProjector)
    else if names.takeaway.None? then Err(TakeawayWithoutDatabase)
    else Ok(())
  }

  /** Something is cut over, or about to be: the names must differ. */
  predicate CutOver(s: Config) {
    || s.identityDatabase == PlatformCore || s.restaurantService == RestaurantOwn
    || s.retailService == RetailOwn || s.referenceProjector
  }

  /** The names that must differ from each other. */
  function RequiredNames(s: Config, names: Names): seq<string> {
    [names.legacy, names.platform, names.restaurant]
    + (if s.retailService == RetailOwn && names.retail.Some? then [names.retail.value] else [])
    + (if s.takeawayFeature && names.takeaway.Some? then [names.takeaway.value] else [])
  }

  /** When the check passes, and with which error it stops otherwise. */
  function Check(s: Config, names: Names): Started {
    if s.restaurantService == RestaurantOwn && s.identityDatabase != PlatformCore then Err(RestaurantWithoutPlatform)
    else if s.identityDatabase == PlatformCore && !s.referenceProjector then Err(PlatformWithoutProjector)
    else if RetailPrerequisites(s, names).Err? then RetailPrerequisites(s, names)
    else if TakeawayPrerequisites(s, names).Err? then TakeawayPrerequisites(s, names)
    else if CutOver(s) && !AllDistinct(RequiredNames(s, names)) then Err(NamesNotDistinct)
    else Ok(())
  }

  /** `validate_runtime_database_names`: counting the set of names decides whether they all differ. */
  method ValidateRuntimeDatabaseNames(s: Config, names: Names) returns (outcome: Started)
    ensures outcome == Check(s, names)
  {
    hide AllDistinct;
    if s.restaurantService == RestaurantOwn && s.identityDatabase != PlatformCore {
      return Err(RestaurantWithoutPlatform);
    }
    if s.identityDatabase == PlatformCore && !s.referenceProjector {
      return Err(PlatformWithoutProjector);
    }
    outcome := RetailPrerequisites(s, names);
    if outcome.Err? { return; }
    outcome := TakeawayPrerequisites(s, names);
    if outcome.Err? { return; }
    if s.identityDatabase != PlatformCore && s.restaurantService != RestaurantOwn
       && s.retailService != RetailOwn && !s.referenceProjector {
      return Ok(());
    }
    outcome := CountNames(s, names);
  }

  method CountNames(s: Config, names: Names) returns (outcome: Started)
    ensures outcome == if AllDistinct(RequiredNames(s, names)) then Ok(()) else Err(NamesNotDistinct)
  {
    hide AllDistinct;
    var requiredNames := {names.legacy, names.platform, names.restaurant};
    var expectedCount := 3;
    ghost var listed := [names.legacy, names.platform, names.restaurant];
    if s.retailService == RetailOwn && names.retail.Some? {
      requiredNames := requiredNames + {names.retail.value};
      expectedCount := expectedCount + 1;
      listed := listed + [names.retail.value];
    }
    if s.takeawayFeature && names.takeaway.Some? {
      requiredNames := requiredNames + {names.takeaway.value};
      expectedCount := expectedCount + 1;
      listed := listed + [names.takeaway.value];
    }
    assert listed == RequiredNames(s, names);
    assert requiredNames == Elements(listed);
    ElementsBound(listed);
    outcome := if |requiredNames| != expectedCount then Err(NamesNotDistinct) else Ok(());
  }

  /** Startup as a whole: the check, then the question whether Retail has an address at all. */
  function StartupOutcome(s: Config, databaseAt: string -> string): Started {
    var checked := Check(s, NamesAt(s, databaseAt));
    if checked.Err? then checked
    else if s.retailService == RetailOwn && !Given(s.retailUrl) then Err(RetailWithoutUrl)
    else Ok(())
  }

  // ----- What the two gates guarantee together -----

  ghost predicate Runs<U>(lib: Libraries<U>, s: Config, databaseAt: string -> string) {
    Accepted(lib, s) && StartupOutcome(s, databaseAt).Ok?
  }

  lemma AcceptedChecks<U>(lib: Libraries<U>, s: Config)
    requires Accepted(lib, s)
    ensures CheckTakeaway(s).Ok? && CheckRetail(s).Ok?
  {
    hide CheckTakeaway, CheckRetail, CheckWrites, CheckEmail;
    var c :| s == Stored(c) && Validated(lib, c).Ok?;
  }

  /** For accepted settings no Retail or Takeaway error is left: this is the whole of startup. */
  lemma OnlyThreeErrorsReachable<U>(lib: Libraries<U>, s: Config, databaseAt: string -> string)
    requires Accepted(lib, s)
    ensures StartupOutcome(s, databaseAt) ==
            if s.restaurantService == RestaurantOwn && s.identityDatabase != PlatformCore
            then Err(RestaurantWithoutPlatform)
            else if s.identityDatabase == PlatformCore && !s.referenceProjector then Err(PlatformWithoutProjector)
            else if CutOver(s) && !AllDistinct(RequiredNames(s, NamesAt(s, databaseAt))) then Err(NamesNotDistinct)
            else Ok(())
  {
    hide AllDistinct, Contains;
    AcceptedChecks(lib, s);
  }

  /** Whether an address is given, or the old one stands in for it. */
  function AddressOr(given: Option<string>, legacyUrl: string): string {
    match given
    case None => legacyUrl
    case Some(url) => if url == "" then legacyUrl else url
  }

  /**
   Accepted settings start exactly when moved services have their prerequisites and, once there is a projector,
   the databases at the addresses in use all differ: the old one, those of Platform and Restaurant, and those of
   Retail and Takeaway where they are in service.
   */
  lemma StartsExactly<U>(lib: Libraries<U>, s: Config, databaseAt: string -> string)
    requires Accepted(lib, s)
    ensures var legacy := databaseAt(s.databaseUrl);
            var platform := databaseAt(AddressOr(s.platformUrl, s.databaseUrl));
            var restaurant := databaseAt(AddressOr(s.restaurantUrl, s.databaseUrl));
            StartupOutcome(s, databaseAt).Ok? <==>
            && (s.restaurantService == RestaurantOwn ==> s.identityDatabase == PlatformCore)
            && (s.identityDatabase == PlatformCore ==> s.referenceProjector)
            && (s.referenceProjector ==>
                  && legacy != platform && legacy != restaurant && platform != restaurant
                  && (forall url | s.retailService == RetailOwn && s.retailUrl == Some(url) ::
                        databaseAt(url) !in {legacy, platform, restaurant})
                  && (forall url | s.takeawayFeature && s.takeawayUrl == Some(url) ::
                        && databaseAt(url) !in {legacy, platform, restaurant}
                        && (forall other | s.retailService == RetailOwn && s.retailUrl == Some(other) ::
                              databaseAt(other) != databaseAt(url))))
  {
    hide Check, CheckTakeaway, CheckRetail, Accepted;
    AcceptedRoutes(lib, s);
    CheckPassesExactly(s, NamesAt(s, databaseAt));
  }

  /** The staff contexts whose service has moved to its own database. */
  predicate Enabled(s: Config, target: string) {
    || (target == "restaurant" && s.restaurantService == RestaurantOwn)
    || (target == "retail_pos" && s.retailService == RetailOwn)
    || (target == "takeaway" && s.takeawayFeature)
  }

  function Database(s: Config, databaseAt: string -> string, f: Factory): string
    requires Exists(s, f)
  {
    databaseAt(UrlOf(s, f))
  }

  /** The sessions whose names startup compares. */
  predicate Compared(s: Config, f: Factory) {
    (f.RetailSessionLocal? ==> s.retailService == RetailOwn) && (f.TakeawaySessionLocal? ==> s.takeawayFeature)
  }

  /** Two different sessions that startup compares are in different databases, once anything is cut over. */
  lemma ComparedDatabasesDiffer<U>(lib: Libraries<U>, s: Config, databaseAt: string -> string, f: Factory, g: Factory)
    requires Runs(lib, s, databaseAt) && CutOver(s)
    requires Compared(s, f) && Compared(s, g) && f != g
    ensures Exists(s, f) && Exists(s, g)
    ensures Database(s, databaseAt, f) != Database(s, databaseAt, g)
  {
    AcceptedChecks(lib, s);
    var names := NamesAt(s, databaseAt);
    var required := RequiredNames(s, names);
    assert AllDistinct(required);
    assert required[0] == names.legacy && required[1] == names.platform && required[2] == names.restaurant;
    var retail := if s.retailService == RetailOwn then 1 else 0;
    if s.retailService == RetailOwn { assert required[3] == names.retail.value; }
    if s.takeawayFeature { assert required[3 + retail] == names.takeaway.value; }
  }

  /** Every context whose service has moved is served, from the service's own session. */
  lemma EnabledRoutes<U>(lib: Libraries<U>, s: Config, target: string)
    requires Accepted(lib, s) && Enabled(s, target)
    ensures OperationalFactory(s, Some(target)) ==
            Ok(if target == "restaurant" then RestaurantSessionLocal
               else if target == "retail_pos" then RetailSessionLocal else TakeawaySessionLocal)
  {
    AcceptedChecks(lib, s);
  }

  /** Services that have moved are served from databases apart from the old one and from each other. */
  lemma CutoversAreSeparate<U>(lib: Libraries<U>, s: Config, databaseAt: string -> string, a: string, b: string)
    requires Runs(lib, s, databaseAt) && Enabled(s, a) && Enabled(s, b) && a != b
    ensures var f, g := OperationalFactory(s, Some(a)), OperationalFactory(s, Some(b));
            && f.Ok? && g.Ok? && Exists(s, f.value) && Exists(s, g.value)
            && Database(s, databaseAt, f.value) != Database(s, databaseAt, AsyncSessionLocal)
            && Database(s, databaseAt, f.value) != Database(s, databaseAt, g.value)
  {
    hide Check, CheckTakeaway, CheckRetail, Database;
    AcceptedChecks(lib, s);
    CutOverIfEnabled(lib, s, a);
    EnabledRoutes(lib, s, a);
    EnabledRoutes(lib, s, b);
    var f, g := OperationalFactory(s, Some(a)).value, OperationalFactory(s, Some(b)).value;
    ComparedDatabasesDiffer(lib, s, databaseAt, f, AsyncSessionLocal);
    ComparedDatabasesDiffer(lib, s, databaseAt, f, g);
  }

  lemma CutOverIfEnabled<U>(lib: Libraries<U>, s: Config, target: string)
    requires Accepted(lib, s) && Enabled(s, target)
    ensures CutOver(s)
  {
    AcceptedChecks(lib, s);
  }

  /** With all three services moved, the three contexts reach three databases, none the old one. */
  lemma AllOnThreeDatabases<U>(lib: Libraries<U>, s: Config, databaseAt: string -> string)
    requires Runs(lib, s, databaseAt)
    requires s.restaurantService == RestaurantOwn && s.retailService == RetailOwn && s.takeawayFeature
    ensures OperationalFactory(s, Some("restaurant")) == Ok(RestaurantSessionLocal)
    ensures OperationalFactory(s, Some("retail_pos")) == Ok(RetailSessionLocal)
    ensures OperationalFactory(s, Some("takeaway")) == Ok(TakeawaySessionLocal)
    ensures Given(s.retailUrl) && Given(s.takeawayUrl)
    ensures AllDistinct([Database(s, databaseAt, AsyncSessionLocal), Database(s, databaseAt, RestaurantSessionLocal),
                         Database(s, databaseAt, RetailSessionLocal), Database(s, databaseAt, TakeawaySessionLocal)])
  {
    EnabledRoutes(lib, s, "restaurant");
    EnabledRoutes(lib, s, "retail_pos");
    EnabledRoutes(lib, s, "takeaway");
    AcceptedChecks(lib, s);
    hide Check, CheckTakeaway, CheckRetail, Database;
    var factories := [AsyncSessionLocal, RestaurantSessionLocal, RetailSessionLocal, TakeawaySessionLocal];
    var databases := [Database(s, databaseAt, AsyncSessionLocal), Database(s, databaseAt, RestaurantSessionLocal),
                      Database(s, databaseAt, RetailSessionLocal), Database(s, databaseAt, TakeawaySessionLocal)];
    forall i, j | 0 <= i < j < 4 ensures databases[i] != databases[j] {
      ComparedDatabasesDiffer(lib, s, databaseAt, factories[i], factories[j]);
    }
  }

  /** With accepted settings a request is turned away exactly for an unknown context or for Takeaway while it is off. */
  lemma RefusedExactly<U>(lib: Libraries<U>, s: Config, target: Option<string>)
    requires Accepted(lib, s)
    ensures OperationalFactory(s, target) == Err(Unavailable) <==> target == Some("takeaway") && !s.takeawayFeature
    ensures OperationalFactory(s, target) == Err(Forbidden) <==>
            target.Some? && target.value !in {"restaurant", "retail_pos", "takeaway"}
  {
    AcceptedChecks(lib, s);
  }

  /** The shared Restaurant and Retail models are never given the Takeaway database. */
  lemma LegacyModelsStayOutOfTakeaway<U>(lib: Libraries<U>, s: Config, databaseAt: string -> string,
                                         target: Option<string>)
    requires Runs(lib, s, databaseAt) && s.takeawayFeature
    ensures Exists(s, TakeawaySessionLocal)
    ensures var f := LegacyModelFactory(s, target);
            f.Ok? ==> Exists(s, f.value)
                      && Database(s, databaseAt, f.value) != Database(s, databaseAt, TakeawaySessionLocal)
    ensures LegacyModelFactory(s, target) ==
            if target in {None, Some("restaurant"), Some("retail_pos")} then OperationalFactory(s, target)
            else Err(Forbidden)
  {
    AcceptedChecks(lib, s);
    CutOverIfEnabled(lib, s, "takeaway");
    var f := LegacyModelFactory(s, target);
    if f.Ok? { ComparedDatabasesDiffer(lib, s, databaseAt, f.value, TakeawaySessionLocal); }
  }

  /** Identities, once moved, are kept apart from the old database and from every service that has moved. */
  lemma IdentityIsSeparate<U>(lib: Libraries<U>, s: Config, databaseAt: string -> string, target: string)
    requires Runs(lib, s, databaseAt) && s.identityDatabase == PlatformCore
    ensures Database(s, databaseAt, IdentityFactory(s)) != Database(s, databaseAt, AsyncSessionLocal)
    ensures Enabled(s, target) ==>
              var f := OperationalFactory(s, Some(target));
              && f.Ok? && Exists(s, f.value)
              && Database(s, databaseAt, IdentityFactory(s)) != Database(s, databaseAt, f.value)
  {
    hide Check, CheckTakeaway, CheckRetail, Database;
    ComparedDatabasesDiffer(lib, s, databaseAt, IdentityFactory(s), AsyncSessionLocal);
    if Enabled(s, target) {
      EnabledRoutes(lib, s, target);
      ComparedDatabasesDiffer(lib, s, databaseAt, IdentityFactory(s), OperationalFactory(s, Some(target)).value);
    }
  }

  /** A running cut-over names Platform and Restaurant addresses of their own: no fallback to the old one is left. */
  lemma CutOverNeedsOwnAddresses<U>(lib: Libraries<U>, s: Config, databaseAt: string -> string)
    requires Runs(lib, s, databaseAt) && CutOver(s)
    ensures Given(s.platformUrl) && Given(s.restaurantUrl)
    ensures AllDistinct([s.databaseUrl, s.platformUrl.value, s.restaurantUrl.value])
  {
    ComparedDatabasesDiffer(lib, s, databaseAt, AsyncSessionLocal, PlatformSessionLocal);
    ComparedDatabasesDiffer(lib, s, databaseAt, AsyncSessionLocal, RestaurantSessionLocal);
    ComparedDatabasesDiffer(lib, s, databaseAt, PlatformSessionLocal, RestaurantSessionLocal);
  }

  /** The database a request is answered from, or the error it is turned away with. */
  function Served(s: Config, databaseAt: string -> string, target: Option<string>): Result<string, RouteError>
    requires var f := OperationalFactory(s, target); f.Ok? ==> Exists(s, f.value)
  {
    match OperationalFactory(s, target)
    case Ok(f) => Ok(Database(s, databaseAt, f))
    case Err(e) => Err(e)
  }

  /**
   Each service that has moved is answered from the database at its own address, identities included, and
   whatever has not moved stays at the old address.
   */
  lemma ServedFromOwnAddress<U>(lib: Libraries<U>, s: Config, databaseAt: string -> string)
    requires Runs(lib, s, databaseAt)
    ensures s.restaurantService == RestaurantOwn ==> s.restaurantUrl.Some?
    ensures s.retailService == RetailOwn ==> s.retailUrl.Some?
    ensures s.takeawayFeature ==> s.takeawayUrl.Some?
    ensures s.identityDatabase == PlatformCore ==> s.platformUrl.Some?
    ensures forall target {:trigger OperationalFactory(s, target)} ::
              OperationalFactory(s, target).Ok? ==> Exists(s, OperationalFactory(s, target).value)
    ensures Served(s, databaseAt, None) == Ok(databaseAt(s.databaseUrl))
    ensures Served(s, databaseAt, Some("restaurant")) ==
            Ok(databaseAt(if s.restaurantService == RestaurantOwn then s.restaurantUrl.value else s.databaseUrl))
    ensures Served(s, databaseAt, Some("retail_pos")) ==
            Ok(databaseAt(if s.retailService == RetailOwn then s.retailUrl.value else s.databaseUrl))
    ensures Served(s, databaseAt, Some("takeaway")) ==
            if s.takeawayFeature then Ok(databaseAt(s.takeawayUrl.value)) else Err(Unavailable)
    ensures forall other | other !in {"restaurant", "retail_pos", "takeaway"} ::
              Served(s, databaseAt, Some(other)) == Err(Forbidden)
    ensures Database(s, databaseAt, IdentityFactory(s)) ==
            databaseAt(if s.identityDatabase == PlatformCore then s.platformUrl.value else s.databaseUrl)
  {
    hide Check, CheckTakeaway, CheckRetail;
    AcceptedRoutes(lib, s);
    if s.restaurantService == RestaurantOwn || s.identityDatabase == PlatformCore {
      CutOverNeedsOwnAddresses(lib, s, databaseAt);
    }
  }

  lemma AcceptedRoutes<U>(lib: Libraries<U>, s: Config)
    requires Accepted(lib, s)
    ensures s.retailService == RetailOwn ==> Given(s.retailUrl)
    ensures s.takeawayFeature ==> s.takeawayService == TakeawayOwn && Given(s.takeawayUrl)
    ensures s.retailService == RetailOwn ==> s.identityDatabase == PlatformCore && s.retailReferenceProjector
    ensures s.takeawayFeature ==> s.identityDatabase == PlatformCore
  {
    AcceptedChecks(lib, s);
  }

  /** The check passes exactly on settings whose cut-overs have their prerequisites, and on names that all differ. */
  lemma CheckPassesExactly(s: Config, names: Names)
    ensures Check(s, names).Ok? <==>
            && (s.restaurantService == RestaurantOwn ==> s.identityDatabase == PlatformCore)
            && (s.identityDatabase == PlatformCore ==> s.referenceProjector)
            && (s.retailService == RetailOwn ==>
                  s.identityDatabase == PlatformCore && s.retailReferenceProjector && names.retail.Some?)
            && (s.takeawayFeature ==>
                  s.identityDatabase == PlatformCore && s.takeawayService == TakeawayOwn && names.takeaway.Some?)
            && (s.referenceProjector ==>
                  && names.legacy != names.platform && names.legacy != names.restaurant
                  && names.platform != names.restaurant
                  && (forall name | s.retailService == RetailOwn && names.retail == Some(name) ::
                        name !in {names.legacy, names.platform, names.restaurant})
                  && (forall name | s.takeawayFeature && names.takeaway == Some(name) ::
                        && name !in {names.legacy, names.platform, names.restaurant}
                        && (s.retailService == RetailOwn ==> names.retail != Some(name))))
  {
    hide AllDistinct;
    RequiredDistinct(s, names);
  }

  lemma RequiredDistinct(s: Config, names: Names)
    ensures AllDistinct(RequiredNames(s, names)) <==>
            && names.legacy != names.platform && names.legacy != names.restaurant && names.platform != names.restaurant
            && (forall name | s.retailService == RetailOwn && names.retail == Some(name) ::
                  name !in {names.legacy, names.platform, names.restaurant})
            && (forall name | s.takeawayFeature && names.takeaway == Some(name) ::
                  && name !in {names.legacy, names.platform, names.restaurant}
                  && (s.retailService == RetailOwn ==> names.retail != Some(name)))
  {
    hide AllDistinct;
    var base := [names.legacy, names.platform, names.restaurant];
    ThreeDistinct(names.legacy, names.platform, names.restaurant);
    var withRetail := if s.retailService == RetailOwn && names.retail.Some? then base + [names.retail.value] else base;
    assert forall name :: name in withRetail <==>
             name in base || (s.retailService == RetailOwn && names.retail == Some(name));
    if s.retailService == RetailOwn && names.retail.Some? { OneMoreDistinct(base, names.retail.value); }
    if s.takeawayFeature && names.takeaway.Some? {
      OneMoreDistinct(withRetail, names.takeaway.value);
      assert RequiredNames(s, names) == withRetail + [names.takeaway.value];
    } else {
      assert RequiredNames(s, names) == withRetail;
    }
  }

  lemma ThreeDistinct(a: string, b: string, c: string)
    ensures AllDistinct([a, b, c]) <==> a != b && a != c && b != c
    ensures forall name :: name in [a, b, c] <==> name in {a, b, c}
  {
    var all := [a, b, c];
    assert all[0] == a && all[1] == b && all[2] == c;
  }

  lemma OneMoreDistinct(s: seq<string>, name: string)
    ensures AllDistinct(s + [name]) <==> AllDistinct(s) && name !in s
  {
    DistinctStep(s + [name]);
    assert (s + [name])[..|s|] == s;
  }

  // ----- What they leave open -----

  /** The Retail address is also that of another database startup compares with the old one. */
  predicate RetailAddressIsCompared(s: Config)
    requires Given(s.retailUrl)
  {
    s.retailUrl.value in {UrlOf(s, PlatformSessionLocal), UrlOf(s, RestaurantSessionLocal)}
    || (s.takeawayFeature && s.retailUrl == s.takeawayUrl)
  }

  /**
   Before Retail itself has moved, its database may be the old one, also while its projector already
   fills it: some layout passes startup that way exactly unless the address is compared for another service.
   */
  lemma RetailMayShareOldDatabase<U>(lib: Libraries<U>, s: Config, databaseAt: string -> string)
    requires Runs(lib, s, databaseAt) && Given(s.retailUrl) && s.retailService == RetailLegacy
    ensures (exists layout: string -> string ::
               Runs(lib, s, layout) && layout(s.retailUrl.value) == layout(s.databaseUrl)) <==>
            !(CutOver(s) && RetailAddressIsCompared(s))
  {
    hide Accepted;
    var legacy, retail := s.databaseUrl, s.retailUrl.value;
    if CutOver(s) && RetailAddressIsCompared(s) {
      forall layout: string -> string | Runs(lib, s, layout) ensures layout(retail) != layout(legacy) {
        var f := if retail == UrlOf(s, PlatformSessionLocal) then PlatformSessionLocal
                 else if retail == UrlOf(s, RestaurantSessionLocal) then RestaurantSessionLocal
                 else TakeawaySessionLocal;
        ComparedDatabasesDiffer(lib, s, layout, f, AsyncSessionLocal);
      }
    } else {
      var layout: string -> string := (url: string) => if url == retail then databaseAt(legacy) else databaseAt(url);
      AcceptedChecks(lib, s);
      if CutOver(s) {
        assert NamesAt(s, layout) == NamesAt(s, databaseAt);
      } else {
        OnlyThreeErrorsReachable(lib, s, layout);
        OnlyThreeErrorsReachable(lib, s, databaseAt);
      }
      assert Runs(lib, s, layout) && layout(retail) == layout(legacy);
    }
  }
}
