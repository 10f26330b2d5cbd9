/** The settings that choose databases and open Takeaway writes, with the validators that accept them. */
module Settings {
  import opened Wrappers
  import Allowlist
  import PyText

  datatype Environment = Development | Staging | Production | Test
  datatype EmailMode = Console | Smtp
  datatype IdentityDatabase = IdentityLegacy | PlatformCore
  datatype RestaurantService = RestaurantLegacy | RestaurantOwn
  datatype RetailService = RetailLegacy | RetailOwn
  datatype TakeawayService = TakeawayDisabled | TakeawayOwn
  datatype WriteMode = Hold | Uat | Canary | Live

  datatype Config = Config(
    environment: Environment,
    publicBaseUrl: string,
    emailMode: EmailMode,
    smtpHost: Option<string>,
    smtpFrom: Option<string>,
    databaseUrl: string,
    platformUrl: Option<string>,
    restaurantUrl: Option<string>,
    retailUrl: Option<string>,
    takeawayUrl: Option<string>,
    identityDatabase: IdentityDatabase,
    restaurantService: RestaurantService,
    retailService: RetailService,
    takeawayService: TakeawayService,
    takeawayFeature: bool,
    referenceProjector: bool,
    retailReferenceProjector: bool,
    legacyUatWrites: bool,
    writeMode: WriteMode,
    companyAllowlist: string,
    brandAllowlist: string,
    branchAllowlist: string,
    approvalReference: Option<string>)

  datatype Url = Url(scheme: string, hostname: Option<string>)

  /** Code outside this model: URL splitting (it may fail), the test-origin list, the identifier parser. */
  datatype Libraries<!U> = Libraries(
    splitUrl: string -> Option<Url>,
    isUatOrigin: string -> bool,
    parseUuid: string -> Option<U>)

  datatype SettingsError =
    | SmtpIncomplete | ProductionNeedsSmtp | ProductionNeedsHttps
    | TakeawayNeedsService | TakeawayNeedsUrl | TakeawayNeedsPlatform | TakeawayNeedsProjector | TakeawayOnLocalhost
    | WritesNeedFeature | InvalidUrl | UatNeedsDevelopment | UatNeedsUatOrigin | LegacyFlagWithLaterMode
    | LaterModeNeedsProduction | LaterModeNeedsHttpsHost | LaterModeNeedsApproval | AllowlistNotUuids | AllowlistEmpty
    | RetailProjectorNeedsUrl | RetailNeedsUrl | RetailNeedsPlatform | RetailNeedsProjector
    | RetailNeedsRetailProjector | RetailOnLocalhost

  type Checked = Result<(), SettingsError>

  /** Python's truth of an optional text: the empty text counts as missing. */
  predicate Given(text: Option<string>) {
    text.Some? && text.value != []
  }

  /** `part in text` */
  predicate Contains(text: string, part: string) {
    exists i | 0 <= i <= |text| :: part <= text[i..]
  }

  /** `url.rstrip("/")` */
  function WithoutTrailingSlashes(url: string): (r: string)
    ensures r <= url
    ensures r == [] || r[|r| - 1] != '/'
    ensures forall i | |r| <= i < |url| :: url[i] == '/'
  {
    if url != [] && url[|url| - 1] == '/' then WithoutTrailingSlashes(url[..|url| - 1]) else url
  }

  /** `validate_saas_email_delivery_config` */
  function CheckEmail(c: Config): Checked {
    if c.emailMode == Smtp && (!Given(c.smtpHost) || !Given(c.smtpFrom)) then Err(SmtpIncomplete)
    else if c.environment == Production && c.emailMode != Smtp then Err(ProductionNeedsSmtp)
    else if c.environment == Production && !("https://" <= c.publicBaseUrl) then Err(ProductionNeedsHttps)
    else Ok(())
  }

  /** `validate_takeaway_runtime_config` */
  function CheckTakeaway(c: Config): Checked {
    if !c.takeawayFeature then Ok(())
    else if c.takeawayService != TakeawayOwn then Err(TakeawayNeedsService)
    else if !Given(c.takeawayUrl) then Err(TakeawayNeedsUrl)
    else if c.identityDatabase != PlatformCore then Err(TakeawayNeedsPlatform)
    else if !c.referenceProjector then Err(TakeawayNeedsProjector)
    else if c.environment in {Staging, Production} && Contains(c.takeawayUrl.value, "localhost")
    then Err(TakeawayOnLocalhost)
    else Ok(())
  }

  /** `validate_retail_runtime_config` */
  function CheckRetail(c: Config): Checked {
    if c.retailReferenceProjector && !Given(c.retailUrl) then Err(RetailProjectorNeedsUrl)
    else if c.retailService == RetailLegacy then Ok(())
    else if !Given(c.retailUrl) then Err(RetailNeedsUrl)
    else if c.identityDatabase != PlatformCore then Err(RetailNeedsPlatform)
    else if !c.referenceProjector then Err(RetailNeedsProjector)
    else if !c.retailReferenceProjector then Err(RetailNeedsRetailProjector)
    else if c.environment in {Staging, Production} && Contains(c.retailUrl.value, "localhost")
    then Err(RetailOnLocalhost)
    else Ok(())
  }

  /** `resolve_takeaway_write_mode` */
  function EffectiveMode(c: Config): WriteMode {
    if c.legacyUatWrites && c.writeMode == Hold then Uat else c.writeMode
  }

  predicate IsProductionUrl(url: Url) {
    && url.scheme == "https" && url.hostname.Some?
    && !("uat-" <= url.hostname.value) && url.hostname.value !in {"localhost", "127.0.0.1"}
  }

  predicate IsApproved(reference: Option<string>) {
    Given(reference) && |PyText.Strip(reference.value)| >= 8
  }

  lemma ProductionUrlExactly(url: Option<Url>)
    ensures url.Some? && IsProductionUrl(url.value) <==>
            exists host :: url == Some(Url("https", Some(host)))
                           && !("uat-" <= host) && host != "localhost" && host != "127.0.0.1"
  {
    if url.Some? && IsProductionUrl(url.value) {
      assert url == Some(Url("https", Some(url.value.hostname.value)));
    }
  }

  lemma ApprovedExactly(reference: Option<string>)
    ensures IsApproved(reference) <==>
            exists text :: reference == Some(text) && |PyText.Strip(text)| >= 8
  {
    if IsApproved(reference) { assert reference == Some(reference.value); }
  }

  ghost function CheckAllowlist<U>(lib: Libraries<U>, raw: string): Checked {
    var ids := Allowlist.Meaning(raw, lib.parseUuid);
    if ids.Err? then Err(AllowlistNotUuids) else if ids.value == {} then Err(AllowlistEmpty) else Ok(())
  }

  function Then(first: Checked, second: Checked): Checked {
    if first.Err? then first else second
  }

  /** `validate_takeaway_write_activation_config` */
  ghost function CheckWrites<U>(lib: Libraries<U>, c: Config): Checked {
    var mode, url := EffectiveMode(c), lib.splitUrl(c.publicBaseUrl);
    if mode == Hold then Ok(())
    else if !c.takeawayFeature then Err(WritesNeedFeature)
    else if url.None? then Err(InvalidUrl)
    else if mode == Uat then
      if c.environment != Development then Err(UatNeedsDevelopment)
      else if !lib.isUatOrigin(c.publicBaseUrl) then Err(UatNeedsUatOrigin)
      else Ok(())
    else if c.legacyUatWrites then Err(LegacyFlagWithLaterMode)
    else if c.environment != Production then Err(LaterModeNeedsProduction)
    else if !IsProductionUrl(url.value) then Err(LaterModeNeedsHttpsHost)
    else if !IsApproved(c.approvalReference) then Err(LaterModeNeedsApproval)
    else if mode == Canary then
      Then(CheckAllowlist(lib, c.companyAllowlist),
           Then(CheckAllowlist(lib, c.brandAllowlist), CheckAllowlist(lib, c.branchAllowlist)))
    else Ok(())
  }

  /** The settings as they are kept: the public address loses its trailing slashes. */
  function Stored(c: Config): Config {
    c.(publicBaseUrl := WithoutTrailingSlashes(c.publicBaseUrl))
  }

  /** The outcome of validating freshly read settings. */
  ghost function Validated<U>(lib: Libraries<U>, c: Config): Checked {
    Then(CheckEmail(c), Then(CheckTakeaway(Stored(c)), Then(CheckWrites(lib, Stored(c)), CheckRetail(Stored(c)))))
  }

  /** The settings `s` are what some accepted configuration is kept as. */
  ghost predicate Accepted<U>(lib: Libraries<U>, s: Config) {
    exists c :: s == Stored(c) && Validated(lib, c).Ok?
  }

  /** The settings object while its validator runs. */
  class SettingsObject<!U(==)> {
    const lib: Libraries<U>
    var values: Config

    constructor (lib: Libraries<U>, values: Config)
      ensures this.lib == lib && this.values == values
    {
      this.lib, this.values := lib, values;
    }

    /** `validate_saas_delivery` */
    method ValidateSaasDelivery() returns (outcome: Checked)
      modifies this
      ensures outcome == Validated(lib, old(values))
      ensures outcome.Ok? ==> values == Stored(old(values)) && Accepted(lib, values)
    {
      outcome := CheckEmail(values);
      if outcome.Err? { return; }
      ghost var c := values;
      values := values.(publicBaseUrl := WithoutTrailingSlashes(values.publicBaseUrl));
      outcome := CheckTakeaway(values);
      if outcome.Err? { return; }
      outcome := ValidateWrites();
      if outcome.Err? { return; }
      outcome := CheckRetail(values);
      assert outcome.Ok? ==> Validated(lib, c).Ok?;
    }

    method ValidateWrites() returns (outcome: Checked)
      ensures outcome == CheckWrites(lib, values)
    {
      hide IsProductionUrl, IsApproved, Allowlist.Meaning;
      var mode := EffectiveMode(values);
      if mode == Hold { return Ok(()); }
      if !values.takeawayFeature { return Err(WritesNeedFeature); }
      var url := lib.splitUrl(values.publicBaseUrl);
      if url.None? { return Err(InvalidUrl); }
      if mode == Uat {
        if values.environment != Development { return Err(UatNeedsDevelopment); }
        return if lib.isUatOrigin(values.publicBaseUrl) then Ok(()) else Err(UatNeedsUatOrigin);
      }
      if values.legacyUatWrites { return Err(LegacyFlagWithLaterMode); }
      if values.environment != Production { return Err(LaterModeNeedsProduction); }
      if !IsProductionUrl(url.value) { return Err(LaterModeNeedsHttpsHost); }
      if !IsApproved(values.approvalReference) { return Err(LaterModeNeedsApproval); }
      outcome := Ok(());
      if mode == Canary {
        outcome := ValidateAllowlists([values.companyAllowlist, values.brandAllowlist, values.branchAllowlist]);
      }
    }

    /** The loop over the lists: every one must be readable and name somebody. */
    method ValidateAllowlists(lists: seq<string>) returns (outcome: Checked)
      requires |lists| == 3
      ensures outcome == Then(CheckAllowlist(lib, lists[0]),
              Then(CheckAllowlist(lib, lists[1]), CheckAllowlist(lib, lists[2])))
    {
      hide CheckAllowlist;
      outcome := Ok(());
      var i := 0;
      while i < 3
        invariant 0 <= i <= 3
        invariant forall k | 0 <= k < i :: CheckAllowlist(lib, lists[k]).Ok?
        invariant i > 0 ==> outcome == CheckAllowlist(lib, lists[i - 1])
      {
        outcome := ValidateAllowlist(lists[i]);
        if outcome.Err? { return; }
        i := i + 1;
      }
    }

    method ValidateAllowlist(raw: string) returns (outcome: Checked)
      ensures outcome == CheckAllowlist(lib, raw)
    {
      hide Allowlist.Meaning;
      var ids := Allowlist.ParseUuidAllowlist(raw, lib.parseUuid);
      outcome := if ids.Err? then Err(AllowlistNotUuids) else if ids.value == {} then Err(AllowlistEmpty) else Ok(());
    }
  }

  // ----- Which settings are accepted -----

  predicate Missing(text: Option<string>) {
    text == None || text == Some("")
  }

  ghost predicate NamesLocalhost(url: Option<string>) {
    exists before, after :: url == Some(before + "localhost" + after)
  }

  lemma ContainsExactly(text: string, part: string)
    ensures Contains(text, part) <==> exists before, after :: text == before + part + after
  {
    if Contains(text, part) {
      var i :| 0 <= i <= |text| && part <= text[i..];
      assert text == text[..i] + part + text[i..][|part|..];
    }
    forall before, after | text == before + part + after ensures Contains(text, part) {
      assert text[|before|..] == part + after;
    }
  }

  lemma LocalhostExactly(url: Option<string>)
    ensures NamesLocalhost(url) <==> url.Some? && Contains(url.value, "localhost")
  {
    hide Contains;
    if url.Some? { ContainsExactly(url.value, "localhost"); }
  }

  /** Mail goes through a complete SMTP server wherever SMTP is chosen, and in production it is, at an HTTPS address. */
  predicate EmailFits(c: Config) {
    && (c.emailMode == Smtp ==> !Missing(c.smtpHost) && !Missing(c.smtpFrom))
    && (c.environment == Production ==> c.emailMode == Smtp && "https://" <= c.publicBaseUrl)
  }

  /** Takeaway, where it is on, has its own service and address, moved identities and their projector. */
  ghost predicate TakeawayFits(c: Config) {
    c.takeawayFeature ==>
      && c.takeawayService == TakeawayOwn && !Missing(c.takeawayUrl)
      && c.identityDatabase == PlatformCore && c.referenceProjector
      && (c.environment in {Staging, Production} ==> !NamesLocalhost(c.takeawayUrl))
  }

  /** The Retail projector has an address; a moved Retail service has both projectors and moved identities. */
  ghost predicate RetailFits(c: Config) {
    && (c.retailReferenceProjector ==> !Missing(c.retailUrl))
    && (c.retailService == RetailOwn ==>
          && c.retailReferenceProjector && c.identityDatabase == PlatformCore && c.referenceProjector
          && (c.environment in {Staging, Production} ==> !NamesLocalhost(c.retailUrl)))
  }

  /** Everything between the commas of the list is blank or an identifier, and there is an identifier. */
  ghost predicate NamesSomebody<U>(lib: Libraries<U>, raw: string) {
    var parts := PyText.Split(raw, ',');
    && (forall i | 0 <= i < |parts| && PyText.Strip(parts[i]) != [] :: lib.parseUuid(PyText.Strip(parts[i])).Some?)
    && (exists i | 0 <= i < |parts| :: PyText.Strip(parts[i]) != [])
  }

  lemma NamesSomebodyExactly<U>(lib: Libraries<U>, raw: string)
    ensures CheckAllowlist(lib, raw).Ok? <==> NamesSomebody(lib, raw)
  {
    hide PyText.Strip, PyText.Split, Allowlist.Meaning;
    var parts, ids := PyText.Split(raw, ','), Allowlist.Meaning(raw, lib.parseUuid);
    Allowlist.MeaningExactly(raw, lib.parseUuid);
    assert forall i | 0 <= i < |parts| && PyText.Strip(parts[i]) != [] ::
             PyText.Strip(parts[i]) in Allowlist.Texts(parts);
    if e :| e in Allowlist.Texts(parts) && ids.Ok? {
      assert lib.parseUuid(e).value in ids.value;
    }
  }

  /** Test writes belong to development on a test origin, real ones to approved production on a production address. */
  ghost predicate WritesFit<U>(lib: Libraries<U>, c: Config, address: string) {
    var testing := c.writeMode == Uat || (c.writeMode == Hold && c.legacyUatWrites);
    c.writeMode != Hold || c.legacyUatWrites ==>
      && c.takeawayFeature && lib.splitUrl(address) != None
      && (testing ==> c.environment == Development && lib.isUatOrigin(address))
      && (!testing ==>
            && !c.legacyUatWrites && c.environment == Production
            && (exists host :: lib.splitUrl(address) == Some(Url("https", Some(host)))
                               && !("uat-" <= host) && host != "localhost" && host != "127.0.0.1")
            && (exists text :: c.approvalReference == Some(text) && |PyText.Strip(text)| >= 8))
      && (c.writeMode == Canary ==>
            && NamesSomebody(lib, c.companyAllowlist) && NamesSomebody(lib, c.brandAllowlist)
            && NamesSomebody(lib, c.branchAllowlist))
  }

  /** The validator accepts exactly the settings that fit in these four respects. */
  lemma AcceptedExactly<U>(lib: Libraries<U>, c: Config)
    ensures Validated(lib, c).Ok? <==>
            && EmailFits(c) && TakeawayFits(c) && RetailFits(c)
            && WritesFit(lib, c, WithoutTrailingSlashes(c.publicBaseUrl))
  {
    hide Contains, IsProductionUrl, IsApproved, Allowlist.Meaning, WithoutTrailingSlashes, NamesLocalhost, PyText.Strip;
    LocalhostExactly(c.takeawayUrl);
    LocalhostExactly(c.retailUrl);
    WritesExactly(lib, c);
    hide CheckWrites, WritesFit;
  }

  lemma WritesExactly<U>(lib: Libraries<U>, c: Config)
    ensures CheckWrites(lib, Stored(c)).Ok? <==> WritesFit(lib, c, WithoutTrailingSlashes(c.publicBaseUrl))
  {
    hide IsProductionUrl, IsApproved, CheckAllowlist, NamesSomebody, PyText.Strip, WithoutTrailingSlashes;
    ProductionUrlExactly(lib.splitUrl(WithoutTrailingSlashes(c.publicBaseUrl)));
    ApprovedExactly(c.approvalReference);
    NamesSomebodyExactly(lib, c.companyAllowlist);
    NamesSomebodyExactly(lib, c.brandAllowlist);
    NamesSomebodyExactly(lib, c.branchAllowlist);
  }

  /**
   The check for HTTPS looks at the address before its slashes go: what production keeps is an HTTPS
   address exactly when something other than slashes follows the scheme.
   */
  lemma StoredAddressIsHttps<U>(lib: Libraries<U>, c: Config)
    requires Validated(lib, c).Ok? && c.environment == Production
    ensures "https://" <= Stored(c).publicBaseUrl <==>
            exists i | 8 <= i < |c.publicBaseUrl| :: c.publicBaseUrl[i] != '/'
  {
    var url, kept := c.publicBaseUrl, Stored(c).publicBaseUrl;
    assert url[7] == '/';
    if |kept| > 8 { assert url[|kept| - 1] == kept[|kept| - 1] != '/'; }
  }

  /** Such a configuration: accepted for production, and kept with an address that is no HTTPS one. */
  lemma AcceptedAddressCanLoseHttps<U>(lib: Libraries<U>) returns (c: Config)
    ensures c.environment == Production && c.publicBaseUrl == "https://"
    ensures Validated(lib, c).Ok? && !("https://" <= Stored(c).publicBaseUrl)
  {
    c := Config(Production, "https://", Smtp, Some("smtp.example"), Some("noreply@example"),
                "db", None, None, None, None,
                IdentityLegacy, RestaurantLegacy, RetailLegacy, TakeawayDisabled, false, false, false,
                false, Hold, "", "", "", None);
    StoredAddressIsHttps(lib, c);
  }
}
