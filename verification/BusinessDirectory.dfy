/**
 The running application's side of business slugs: the check every slug passes, the allocator for new
 companies, and the lookup of a company by its slug.
 */
module BusinessDirectory {
  import opened Wrappers
  import opened SlugText
  import opened SlugAllocator
  import opened Uuid
  import Decimal
  import Probe
  import PyText

  datatype DirectoryError = InvalidSlug | SlugInUse | NoSlugFree | BusinessNotFound

  // ----- The slug check -----

  /** What the application asks of `str.lower`: on ASCII text it maps letters to lower case. */
  ghost predicate LowersAscii(lower: string -> string) {
    forall s | IsAscii(s) :: lower(s) == Lower(s)
  }

  predicate HasDoubleHyphen(s: string) {
    exists i | 0 < i < |s| :: s[i - 1] == '-' && s[i] == '-'
  }

  /** `^[a-z0-9](?:[a-z0-9-]{1,61}[a-z0-9])$` */
  predicate MatchesPattern(s: string) {
    && 3 <= |s| <= 63
    && IsLowerAlnum(s[0])
    && (forall i | 1 <= i < |s| - 1 :: IsLowerAlnum(s[i]) || s[i] == '-')
    && IsLowerAlnum(s[|s| - 1])
  }

  /** `normalize_business_slug` */
  function NormalizeBusinessSlug(lower: string -> string, value: string): Result<string, DirectoryError> {
    var normalized := lower(PyText.Strip(value));
    if !MatchesPattern(normalized) || HasDoubleHyphen(normalized) || normalized in RUNTIME_RESERVED
    then Err(InvalidSlug)
    else Ok(normalized)
  }

  /** The slugs the application accepts: the migration's, but for one word. */
  predicate IsRuntimeSlug(s: string) {
    IsSlug(s) && s != "company-kitchen"
  }

  lemma ReservedWords(s: string)
    ensures s in RUNTIME_RESERVED <==> s in RESERVED || s == "company-kitchen"
  {
  }

  /** Pattern and double-hyphen test together describe the canonical texts of legal length. */
  lemma PatternIsCanonical(s: string)
    ensures MatchesPattern(s) && !HasDoubleHyphen(s) <==> Canonical(s) && 3 <= |s| <= 63
  {
    if MatchesPattern(s) && !HasDoubleHyphen(s) {
      forall i | 0 <= i < |s|
        ensures IsLowerAlnum(s[i]) || s[i] == '-'
        ensures 0 < i && s[i] == '-' ==> s[i - 1] != '-'
      {
      }
    }
    if Canonical(s) && 3 <= |s| <= 63 {
      assert forall i | 0 <= i < |s| :: IsLowerAlnum(s[i]) || s[i] == '-';
    }
  }

  /** Only acceptable slugs come out of the check. */
  lemma NormalizeAccepts(lower: string -> string, value: string)
    ensures var outcome := NormalizeBusinessSlug(lower, value);
            outcome.Ok? ==> IsRuntimeSlug(outcome.value)
  {
    hide RESERVED, RUNTIME_RESERVED, Canonical, MatchesPattern, HasDoubleHyphen;
    var s := lower(PyText.Strip(value));
    PatternIsCanonical(s);
    ReservedWords(s);
  }

  lemma SlugIsTrimmedAscii(s: string)
    requires Canonical(s)
    ensures PyText.Trimmed(s) && IsAscii(s)
  {
    assert IsLowerAlnum(s[0]) && IsLowerAlnum(s[|s| - 1]);
  }

  /** The texts the check returns unchanged are exactly the acceptable slugs. */
  lemma NormalizeFixpoints(lower: string -> string, s: string)
    requires LowersAscii(lower)
    ensures NormalizeBusinessSlug(lower, s) == Ok(s) <==> IsRuntimeSlug(s)
  {
    hide RESERVED, RUNTIME_RESERVED, MatchesPattern, HasDoubleHyphen;
    NormalizeAccepts(lower, s);
    if IsRuntimeSlug(s) {
      SlugIsTrimmedAscii(s);
      assert lower(s) == Lower(s) == s;
      PatternIsCanonical(s);
      ReservedWords(s);
    }
  }

  /** The slug, where some letters may be capitals. */
  predicate ButForCapitals(text: string, s: string) {
    && |text| == |s|
    && forall i | 0 <= i < |s| ::
         text[i] == s[i] || ('A' <= text[i] <= 'Z' && text[i] as int - 'A' as int == s[i] as int - 'a' as int)
  }

  /** Of an ASCII text with whitespace around it, exactly the acceptable slugs are made, whatever the capitals. */
  lemma NormalizeExactly(lower: string -> string, left: string, text: string, right: string, s: string)
    requires LowersAscii(lower) && IsAscii(text) && PyText.Trimmed(text)
    requires PyText.AllSpace(left) && PyText.AllSpace(right)
    ensures var outcome := NormalizeBusinessSlug(lower, left + (text + right));
            && (outcome == Ok(s) <==> IsRuntimeSlug(s) && ButForCapitals(text, s))
            && (outcome.Ok? || outcome == Err(InvalidSlug))
  {
    hide RESERVED, RUNTIME_RESERVED, MatchesPattern, HasDoubleHyphen, PyText.AllSpace, PyText.Trimmed, ButForCapitals;
    PyText.StripPadded(left, text, right);
    PatternIsCanonical(Lower(text));
    ReservedWords(Lower(text));
    if IsRuntimeSlug(s) { LowersTo(text, s); }
  }

  lemma LowersTo(text: string, s: string)
    requires Hyphenated(s)
    ensures Lower(text) == s <==> ButForCapitals(text, s)
  {
    if ButForCapitals(text, s) {
      assert forall i | 0 <= i < |s| :: Lower(text)[i] == s[i];
    }
  }

  // ----- The allocator -----

  /** The text `suggest_business_slug` hands to the check. */
  function Suggestion(nfkd: string -> string, name: string, companyId: string): string {
    var candidate := Squeeze(DropNonAscii(nfkd(name)));
    var chosen := if |candidate| < 3 || candidate in RUNTIME_RESERVED
                  then "business-" + Lower(SliceTo(RemoveHyphens(companyId), 12))
                  else candidate;
    StripRight(SliceTo(chosen, 63))
  }

  lemma SlugEnds(s: string)
    ensures Canonical(s) ==> s[|s| - 1] != '-'
  {
  }

  /** A suggestion always passes the check, and is the migration's base slug but for one word. */
  lemma SuggestionIsSlug(nfkd: string -> string, name: string, companyId: string)
    requires IsUuid(companyId)
    ensures var s, base := Suggestion(nfkd, name, companyId), BaseSlug(nfkd, name, companyId);
            IsRuntimeSlug(s) && s == if base == "company-kitchen" then Fallback(companyId) else base
  {
    hide RESERVED, RUNTIME_RESERVED, Squeeze, Canonical;
    var candidate := Squeeze(DropNonAscii(nfkd(name)));
    SqueezeShape(DropNonAscii(nfkd(name)));
    SlugEnds(candidate);
    ReservedWords(candidate);
    FallbackIsSlug(companyId);
    CompactId(companyId);
    ReservedWords(Fallback(companyId));
    SlugEnds(Fallback(companyId));
    var tail := SliceTo(RemoveHyphens(companyId), 12);
    assert forall i | 0 <= i < |tail| :: IsHexDigit(tail[i]);
    assert Hyphenated(tail);
    var s := Suggestion(nfkd, name, companyId);
    if |candidate| < 3 || candidate in RUNTIME_RESERVED {
      assert s == Fallback(companyId);
    } else {
      assert s == candidate;
      assert candidate !in RESERVED;
    }
  }

  /** The first attempt, up to the hundredth, that is free; the candidate counts as attempt 0. */
  ghost function Allocated(candidate: string, companyId: string, used: set<string>): Result<string, DirectoryError> {
    var choice := Choices(candidate, companyId);
    var n := Probe.FirstFree(choice, used, 0);
    if n <= 100 then Ok(choice(n)) else Err(NoSlugFree)
  }

  /** The whole of `allocate_business_slug`; an empty request counts as none. */
  ghost function Allocation(lower: string -> string, nfkd: string -> string, requested: Option<string>,
                            name: string, companyId: string, used: set<string>): Result<string, DirectoryError>
  {
    if requested.Some? && requested.value != [] then
      var wanted := NormalizeBusinessSlug(lower, requested.value);
      if wanted.Ok? && wanted.value in used then Err(SlugInUse) else wanted
    else Allocated(Suggestion(nfkd, name, companyId), companyId, used)
  }

  lemma AttemptIsRuntimeSlug(candidate: string, companyId: string, counter: nat)
    requires IsRuntimeSlug(candidate) && IsUuid(companyId) && 1 <= counter <= 100
    ensures IsRuntimeSlug(Attempt(candidate, companyId, counter))
  {
    AttemptNotReserved(candidate, companyId, counter);
    AttemptIsLegal(candidate, companyId, counter);
    Decimal.PowersGrow(3, 52);
    assert Decimal.Pow10(3) == 1000;
  }

  lemma AllocatedIs(candidate: string, companyId: string, used: set<string>, n: nat)
    requires n <= 101
    requires candidate in used <==> n > 0
    requires forall j | 1 <= j < n :: Attempt(candidate, companyId, j) in used
    requires 1 <= n <= 100 ==> Attempt(candidate, companyId, n) !in used
    ensures Allocated(candidate, companyId, used) ==
            if n == 0 then Ok(candidate) else if n <= 100 then Ok(Attempt(candidate, companyId, n)) else Err(NoSlugFree)
  {
    hide Attempt;
    var choice := Choices(candidate, companyId);
    assert forall j | 0 <= j < n :: choice(j) in used;
    if n <= 100 {
      Probe.FirstFreeIs(choice, used, n);
    } else {
      assert choice(Probe.FirstFree(choice, used, 0)) !in used;
    }
  }

  method AllocateBusinessSlug(lower: string -> string, nfkd: string -> string, requested: Option<string>,
                              name: string, companyId: string, used: set<string>)
    returns (outcome: Result<string, DirectoryError>)
    requires LowersAscii(lower) && IsUuid(companyId)
    ensures outcome == Allocation(lower, nfkd, requested, name, companyId, used)
  {
    hide Attempt, NormalizeBusinessSlug, Suggestion, Allocated, IsRuntimeSlug, LowersAscii;
    var isRequest := requested.Some? && requested.value != [];
    var text := if isRequest then requested.value else Suggestion(nfkd, name, companyId);
    if !isRequest {
      SuggestionIsSlug(nfkd, name, companyId);
      NormalizeFixpoints(lower, text);
    }
    var checked := NormalizeBusinessSlug(lower, text);
    if checked.Err? {
      return checked;
    }
    var candidate := checked.value;
    if candidate !in used {
      if !isRequest { AllocatedIs(candidate, companyId, used, 0); }
      return Ok(candidate);
    }
    if isRequest {
      return Err(SlugInUse);
    }
    outcome := FirstFreeAttempt(lower, candidate, companyId, used);
  }

  /** The hundred attempts after a taken candidate. */
  method FirstFreeAttempt(lower: string -> string, candidate: string, companyId: string, used: set<string>)
    returns (outcome: Result<string, DirectoryError>)
    requires LowersAscii(lower) && IsUuid(companyId) && IsRuntimeSlug(candidate) && candidate in used
    ensures outcome == Allocated(candidate, companyId, used)
  {
    hide Attempt, Allocated, IsRuntimeSlug, LowersAscii, IsUuid;
    var attempt := 1;
    while attempt < 101
      invariant 1 <= attempt <= 101
      invariant forall j | 1 <= j < attempt :: Attempt(candidate, companyId, j) in used
    {
      outcome := TryAttempt(lower, candidate, companyId, attempt);
      if outcome.Err? || outcome.value !in used {
        AllocatedIs(candidate, companyId, used, attempt);
        return;
      }
      attempt := attempt + 1;
    }
    AllocatedIs(candidate, companyId, used, 101);
    outcome := Err(NoSlugFree);
  }

  /** One attempt passes the check every time. */
  method TryAttempt(lower: string -> string, candidate: string, companyId: string, attempt: nat)
    returns (outcome: Result<string, DirectoryError>)
    requires LowersAscii(lower) && IsUuid(companyId) && IsRuntimeSlug(candidate) && 1 <= attempt <= 100
    ensures outcome == Ok(Attempt(candidate, companyId, attempt))
  {
    hide IsRuntimeSlug, NormalizeBusinessSlug;
    var suffix := Suffix(companyId, attempt);
    var prefix := StripRight(SliceTo(candidate, 62 - |suffix|));
    AttemptIsRuntimeSlug(candidate, companyId, attempt);
    NormalizeFixpoints(lower, Attempt(candidate, companyId, attempt));
    outcome := NormalizeBusinessSlug(lower, prefix + "-" + suffix);
  }

  /** Whatever is allocated is free, acceptable, and passes the check unchanged. */
  lemma AllocationIsFresh(lower: string -> string, nfkd: string -> string, requested: Option<string>,
                          name: string, companyId: string, used: set<string>)
    requires LowersAscii(lower) && IsUuid(companyId)
    ensures var outcome := Allocation(lower, nfkd, requested, name, companyId, used);
            outcome.Ok? ==> && outcome.value !in used && IsRuntimeSlug(outcome.value)
                            && NormalizeBusinessSlug(lower, outcome.value) == outcome
  {
    hide Attempt, NormalizeBusinessSlug, Suggestion, IsRuntimeSlug;
    var outcome := Allocation(lower, nfkd, requested, name, companyId, used);
    if requested.Some? && requested.value != [] {
      NormalizeAccepts(lower, requested.value);
    } else {
      var candidate := Suggestion(nfkd, name, companyId);
      SuggestionIsSlug(nfkd, name, companyId);
      var n := Probe.FirstFree(Choices(candidate, companyId), used, 0);
      if 1 <= n <= 100 { AttemptIsRuntimeSlug(candidate, companyId, n); }
    }
    if outcome.Ok? { NormalizeFixpoints(lower, outcome.value); }
  }

  /**
   A request in ASCII, whitespace around it and capitals included, is granted exactly when it spells an acceptable
   slug that is free, and refused as in use or as invalid otherwise; an empty one counts as none.
   */
  lemma RequestExactly(lower: string -> string, nfkd: string -> string, left: string, text: string, right: string,
                       s: string, name: string, companyId: string, used: set<string>)
    requires LowersAscii(lower) && IsAscii(text) && PyText.Trimmed(text)
    requires PyText.AllSpace(left) && PyText.AllSpace(right)
    ensures var outcome := Allocation(lower, nfkd, Some(left + (text + right)), name, companyId, used);
            left + (text + right) != [] ==>
              && (outcome == Ok(s) <==> IsRuntimeSlug(s) && ButForCapitals(text, s) && s !in used)
              && (IsRuntimeSlug(s) && ButForCapitals(text, s) && s in used ==> outcome == Err(SlugInUse))
              && (outcome.Ok? || outcome == Err(InvalidSlug) ||
                  (outcome == Err(SlugInUse) && exists taken | taken in used :: ButForCapitals(text, taken)))
    ensures Allocation(lower, nfkd, Some([]), name, companyId, used) ==
            Allocation(lower, nfkd, None, name, companyId, used)
  {
    hide NormalizeBusinessSlug, IsRuntimeSlug, ButForCapitals, Allocated, Suggestion;
    var checked := NormalizeBusinessSlug(lower, left + (text + right));
    NormalizeExactly(lower, left, text, right, s);
    if checked.Ok? { NormalizeExactly(lower, left, text, right, checked.value); }
  }

  lemma {:induction false} DistinctAttemptsFill(candidate: string, companyId: string, used: set<string>, n: nat)
    requires IsUuid(companyId) && n <= 100
    requires forall j | 1 <= j <= n :: Attempt(candidate, companyId, j) in used
    ensures |used| >= n
  {
    hide Attempt;
    if n > 0 {
      var last := Attempt(candidate, companyId, n);
      forall j | 1 <= j <= n - 1 ensures Attempt(candidate, companyId, j) in used - {last} {
        AttemptsDistinctBelowTenMillion(candidate, companyId, j, n);
      }
      DistinctAttemptsFill(candidate, companyId, used - {last}, n - 1);
    }
  }

  /** Without a request, allocation only fails when the suggestion and all hundred attempts are taken. */
  lemma AllocationFailsWhenCrowded(lower: string -> string, nfkd: string -> string,
                                   name: string, companyId: string, used: set<string>)
    requires IsUuid(companyId)
    ensures var candidate := Suggestion(nfkd, name, companyId);
            var outcome := Allocation(lower, nfkd, None, name, companyId, used);
            && (outcome.Err? <==>
                  candidate in used && forall j | 1 <= j <= 100 :: Attempt(candidate, companyId, j) in used)
            && (outcome.Err? ==> outcome == Err(NoSlugFree) && |used| >= 100)
  {
    hide Attempt, Suggestion;
    var candidate := Suggestion(nfkd, name, companyId);
    var choice := Choices(candidate, companyId);
    var n := Probe.FirstFree(choice, used, 0);
    assert choice(n) !in used;
    if n > 100 {
      forall j | 1 <= j <= 100 ensures Attempt(candidate, companyId, j) in used {
        assert choice(j) in used;
      }
      assert choice(0) in used;
      DistinctAttemptsFill(candidate, companyId, used, 100);
    }
  }

  /** The running allocator and the migration give a new company the same slug, but for one word. */
  lemma AgreesWithMigration(lower: string -> string, nfkd: string -> string,
                            name: string, companyId: string, used: set<string>)
    requires IsUuid(companyId) && BaseSlug(nfkd, name, companyId) != "company-kitchen"
    ensures var outcome := Allocation(lower, nfkd, None, name, companyId, used);
            outcome.Ok? ==> outcome.value == FirstFit(BaseSlug(nfkd, name, companyId), companyId, used)
  {
    SuggestionIsSlug(nfkd, name, companyId);
  }

  // ----- The directory -----

  datatype Business = Business(id: string, active: bool)

  /** `resolve_active_business` */
  function Resolve(lower: string -> string, businesses: map<string, Business>, text: string)
    : Result<Business, DirectoryError>
  {
    var normalized := NormalizeBusinessSlug(lower, text);
    if normalized.Ok? && normalized.value in businesses && businesses[normalized.value].active
    then Ok(businesses[normalized.value]) else Err(BusinessNotFound)
  }

  /** A slug leads to its company by some address exactly when the company is active and the slug acceptable. */
  lemma ReachableBySlug(lower: string -> string, businesses: map<string, Business>, slug: string)
    requires LowersAscii(lower) && slug in businesses
    ensures (exists text :: NormalizeBusinessSlug(lower, text) == Ok(slug) && Resolve(lower, businesses, text).Ok?) <==>
            businesses[slug].active && IsRuntimeSlug(slug)
  {
    NormalizeFixpoints(lower, slug);
    forall text ensures NormalizeBusinessSlug(lower, text) == Ok(slug) ==> IsRuntimeSlug(slug) {
      NormalizeAccepts(lower, text);
    }
    if businesses[slug].active && IsRuntimeSlug(slug) {
      assert Resolve(lower, businesses, slug).Ok?;
    }
  }

  lemma LongWordsWithC(w: string)
    requires |w| == 15 && w[0] == 'c'
    ensures w !in RESERVED
  {
  }

  lemma {:induction false} HyphenateWords(a: string, b: string)
    requires forall i | 0 <= i < |a| :: IsLowerAlnum(a[i])
    requires b != [] && IsLowerAlnum(b[0])
    ensures Hyphenate(a + " " + b) == a + "-" + Hyphenate(b)
  {
    var s := a + " " + b;
    if a == [] {
      assert s[1..] == b;
    } else {
      assert s[1..] == a[1..] + " " + b;
      HyphenateWords(a[1..], b);
    }
  }

  lemma KitchenWords(a: string, b: string)
    requires Canonical(a) && Canonical(b) && '-' !in a && '-' !in b
    ensures Hyphenate(a + " " + b) == a + "-" + b && Canonical(a + "-" + b)
  {
    assert forall i | 0 <= i < |a| :: a[i] in a;
    HyphenateWords(a, b);
    HyphenateFixes(b);
    CanonicalConcat(a, b);
  }

  lemma LowerCompanyKitchen()
    ensures Lower("Company Kitchen") == "company" + " " + "kitchen"
  {
  }

  lemma CompanyKitchenText()
    ensures Hyphenate(Lower("Company Kitchen")) == "company-kitchen"
    ensures Canonical("company-kitchen")
  {
    LowerCompanyKitchen();
    KitchenWords("company", "kitchen");
    assert "company" + "-" + "kitchen" == "company-kitchen";
  }

  lemma CompanyKitchenBase(nfkd: string -> string, id: string)
    requires FixesAscii(nfkd)
    ensures BaseSlug(nfkd, "Company Kitchen", id) == "company-kitchen"
  {
    hide RESERVED, Squeeze, Hyphenate, Lower, Canonical, Fallback;
    assert IsAscii("Company Kitchen");
    CompanyKitchenText();
    SqueezeKeeps("Company Kitchen", "company-kitchen");
    LongWordsWithC("company-kitchen");
  }

  /** The exception does occur: migrated under this name first, a company is out of reach of every address. */
  lemma CompanyKitchenIsUnreachable(lower: string -> string, nfkd: string -> string, id: string, text: string)
    requires FixesAscii(nfkd) && IsUuid(id)
    ensures Slugs(nfkd, [Company(id, Some("Company Kitchen"), None)]) == ["company-kitchen"]
    ensures Resolve(lower, map["company-kitchen" := Business(id, true)], text) == Err(BusinessNotFound)
  {
    var row := Company(id, Some("Company Kitchen"), None);
    CompanyKitchenBase(nfkd, id);
    SlugsStep(nfkd, [row], 0);
    NormalizeAccepts(lower, text);
  }

  /** The `companies` table under its unique slug index. */
  class Directory {
    var businesses: map<string, Business>

    constructor (businesses: map<string, Business>)
      ensures this.businesses == businesses
    {
      this.businesses := businesses;
    }

    /** Sign-up: on success exactly one row is added, and its slug leads to it from then on. */
    method Register(lower: string -> string, nfkd: string -> string, requested: Option<string>,
                    name: string, companyId: string) returns (outcome: Result<string, DirectoryError>)
      requires LowersAscii(lower) && IsUuid(companyId)
      modifies this
      ensures outcome == Allocation(lower, nfkd, requested, name, companyId, old(businesses).Keys)
      ensures outcome.Err? ==> businesses == old(businesses)
      ensures outcome.Ok? ==> outcome.value !in old(businesses)
      ensures outcome.Ok? ==> businesses == old(businesses)[outcome.value := Business(companyId, true)]
      ensures outcome.Ok? ==> Resolve(lower, businesses, outcome.value) == Ok(Business(companyId, true))
    {
      outcome := AllocateBusinessSlug(lower, nfkd, requested, name, companyId, businesses.Keys);
      AllocationIsFresh(lower, nfkd, requested, name, companyId, businesses.Keys);
      if outcome.Ok? {
        businesses := businesses[outcome.value := Business(companyId, true)];
      }
    }
  }
}
