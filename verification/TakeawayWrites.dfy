/** Who may write Takeaway transactions, given settings that passed their validator. */
module TakeawayWrites {
  import opened Settings
  import opened Wrappers
  import Allowlist
  import PyText

  /** The company, brand and branch a request speaks for. */
  datatype Context<U> = Context(company: Option<U>, brand: Option<U>, branch: Option<U>)

  ghost predicate InList<U>(lib: Libraries<U>, raw: string, id: Option<U>) {
    var ids := Allowlist.Meaning(raw, lib.parseUuid);
    id.Some? && ids.Ok? && id.value in ids.value
  }

  ghost predicate InLists<U>(lib: Libraries<U>, s: Config, context: Context<U>) {
    && InList(lib, s.companyAllowlist, context.company)
    && InList(lib, s.brandAllowlist, context.brand)
    && InList(lib, s.branchAllowlist, context.branch)
  }

  /** `takeaway_write_allowed`; a list that cannot be read refuses. */
  ghost predicate WriteAllowed<U>(lib: Libraries<U>, s: Config, context: Context<U>) {
    var mode := EffectiveMode(s);
    mode in {Uat, Live} || (mode == Canary && InLists(lib, s, context))
  }

  method DecideWrite<U(==)>(lib: Libraries<U>, s: Config, context: Context<U>) returns (allowed: bool)
    ensures allowed == WriteAllowed(lib, s, context)
  {
    var mode := EffectiveMode(s);
    if mode == Hold { return false; }
    if mode in {Uat, Live} { return true; }
    if context.company.None? || context.brand.None? || context.branch.None? { return false; }
    var companies := Allowlist.ParseUuidAllowlist(s.companyAllowlist, lib.parseUuid);
    if companies.Err? || context.company.value !in companies.value { return false; }
    var brands := Allowlist.ParseUuidAllowlist(s.brandAllowlist, lib.parseUuid);
    if brands.Err? || context.brand.value !in brands.value { return false; }
    var branches := Allowlist.ParseUuidAllowlist(s.branchAllowlist, lib.parseUuid);
    allowed := branches.Ok? && context.branch.value in branches.value;
  }

  /** Test writes are open: development, on an approved test origin, by the mode or the older flag. */
  predicate OpenForUat<U>(lib: Libraries<U>, s: Config) {
    && s.environment == Development && lib.isUatOrigin(s.publicBaseUrl)
    && (s.writeMode == Uat || (s.writeMode == Hold && s.legacyUatWrites))
  }

  /** Real writes are open to this context: production, approved, on a production address, without the older flag. */
  ghost predicate OpenInProduction<U>(lib: Libraries<U>, s: Config, context: Context<U>) {
    && s.environment == Production && !s.legacyUatWrites
    && (exists reference :: s.approvalReference == Some(reference) && |PyText.Strip(reference)| >= 8)
    && (exists host :: lib.splitUrl(s.publicBaseUrl) == Some(Url("https", Some(host)))
                       && !("uat-" <= host) && host != "localhost" && host != "127.0.0.1")
    && (s.writeMode == Live || (s.writeMode == Canary && InLists(lib, s, context)))
  }

  /** What an accepted configuration allows, in full: no other environment, flag or mode opens writes. */
  lemma WritesAllowedExactly<U>(lib: Libraries<U>, s: Config, context: Context<U>)
    requires Accepted(lib, s)
    ensures WriteAllowed(lib, s, context) <==>
            s.takeawayFeature && (OpenForUat(lib, s) || OpenInProduction(lib, s, context))
  {
    hide IsProductionUrl, IsApproved, InLists, CheckAllowlist, CheckEmail, CheckTakeaway, CheckRetail, PyText.Strip;
    ProductionUrlExactly(lib.splitUrl(s.publicBaseUrl));
    ApprovedExactly(s.approvalReference);
    var c :| s == Stored(c) && Validated(lib, c).Ok?;
    assert CheckWrites(lib, s).Ok?;
  }

  /** An accepted canary lets somebody write: each of its three lists names at least one identifier. */
  lemma CanaryAdmitsSomebody<U>(lib: Libraries<U>, s: Config) returns (context: Context<U>)
    requires Accepted(lib, s) && s.writeMode == Canary
    ensures WriteAllowed(lib, s, context)
  {
    hide IsProductionUrl, IsApproved, Allowlist.Meaning;
    var c :| s == Stored(c) && Validated(lib, c).Ok?;
    assert CheckWrites(lib, s).Ok?;
    var companies, brands := Listing(lib, s.companyAllowlist), Listing(lib, s.brandAllowlist);
    var branches := Listing(lib, s.branchAllowlist);
    var company :| company in companies;
    var brand :| brand in brands;
    var branch :| branch in branches;
    context := Context(Some(company), Some(brand), Some(branch));
  }

  ghost function Listing<U>(lib: Libraries<U>, raw: string): (ids: set<U>)
    requires CheckAllowlist(lib, raw).Ok?
    ensures ids != {} && Allowlist.Meaning(raw, lib.parseUuid) == Ok(ids)
  {
    Allowlist.Meaning(raw, lib.parseUuid).value
  }

  /** A canary whose lists are written out by hand admits exactly the contexts written down. */
  lemma CanaryAdmitsTheListed<U(!new)>(lib: Libraries<U>, form: U -> string, s: Config, context: Context<U>,
                                       companies: seq<Allowlist.Entry<U>>, brands: seq<Allowlist.Entry<U>>,
                                       branches: seq<Allowlist.Entry<U>>)
    requires Allowlist.ReadsPrinted(form, lib.parseUuid)
    requires forall list | list in [companies, brands, branches] :: Allowlist.PaddedWithSpace(list)
    requires s.companyAllowlist == PyText.Join(Allowlist.Written(form, companies), ',')
    requires s.brandAllowlist == PyText.Join(Allowlist.Written(form, brands), ',')
    requires s.branchAllowlist == PyText.Join(Allowlist.Written(form, branches), ',')
    requires Accepted(lib, s) && s.writeMode == Canary
    ensures WriteAllowed(lib, s, context) <==>
            && context.company.Some? && context.company.value in Allowlist.Listed(companies)
            && context.brand.Some? && context.brand.value in Allowlist.Listed(brands)
            && context.branch.Some? && context.branch.value in Allowlist.Listed(branches)
  {
    hide Accepted, Allowlist.Meaning, Allowlist.Listed, Allowlist.ReadsPrinted, Allowlist.PaddedWithSpace, PyText.Join;
    assert forall list | list in [companies, brands, branches] :: Allowlist.PaddedWithSpace(list);
    assert companies in [companies, brands, branches] && brands in [companies, brands, branches]
           && branches in [companies, brands, branches];
    Allowlist.ParseInvertsWriting(form, lib.parseUuid, companies);
    Allowlist.ParseInvertsWriting(form, lib.parseUuid, brands);
    Allowlist.ParseInvertsWriting(form, lib.parseUuid, branches);
  }
}
