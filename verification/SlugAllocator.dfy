/**
 The business-slug allocator of the `add_company_business_slug` migrations: the normalised base slug,
 the probe for a free slug, and the pass over all companies.
 */
module SlugAllocator {
  import opened Wrappers
  import opened SlugText
  import opened Uuid
  import Decimal
  import opened Distinct
  import Probe
  import Scan

  const RESERVED: set<string> := {
    "403", "accounting", "admin", "api", "billing", "branches", "central", "counter", "crm", "dashboard",
    "device", "devices", "erp", "etax", "forgot-password", "hr", "integrations", "kitchen", "logistics",
    "login", "menu", "order", "payable", "pickup", "platform", "pos", "privacy-support", "products",
    "purchase", "reports", "reset-password", "restaurant", "roles", "settings", "shift-history", "signup",
    "stock", "stock-count", "store", "transfer", "units", "uploads", "users", "verify-email"
  }

  /** The words the running application reserves: one more than the migration does. */
  const RUNTIME_RESERVED: set<string> := RESERVED + {"company-kitchen"}

  const MAX_LENGTH := 63

  /** What the migration asks of compatibility normalisation: it leaves ASCII text alone. */
  ghost predicate FixesAscii(nfkd: string -> string) {
    forall s | IsAscii(s) :: nfkd(s) == s
  }

  // ----- The base slug -----

  function Squeeze(asciiName: string): string {
    StripRight(SliceTo(StripRight(StripLeft(Hyphenate(Lower(asciiName)))), MAX_LENGTH))
  }

  function Fallback(companyId: string): string {
    "business-" + SliceTo(RemoveHyphens(companyId), 12)
  }

  function BaseSlug(nfkd: string -> string, name: string, companyId: string): string {
    var candidate := Squeeze(DropNonAscii(nfkd(name)));
    if |candidate| < 3 || candidate in RESERVED then Fallback(companyId) else candidate
  }

  /** What a slug column may hold: a legal slug that is no reserved word of the migration. */
  predicate IsSlug(s: string) {
    Canonical(s) && 3 <= |s| <= MAX_LENGTH && s !in RESERVED
  }

  lemma SqueezeShape(asciiName: string)
    ensures Squeeze(asciiName) == [] || Canonical(Squeeze(asciiName))
    ensures |Squeeze(asciiName)| <= MAX_LENGTH
  {
    var stripped := StripLeft(Hyphenate(Lower(asciiName)));
    var whole := StripRight(stripped);
    HyphenatedPrefix(stripped, whole);
    if whole != [] {
      StripPrefix(whole, SliceTo(whole, MAX_LENGTH));
    }
  }

  lemma SqueezeKeeps(asciiName: string, s: string)
    requires Canonical(s) && |s| <= MAX_LENGTH && Hyphenate(Lower(asciiName)) == s
    ensures Squeeze(asciiName) == s
  {
  }

  lemma CompactId(companyId: string)
    requires IsUuid(companyId)
    ensures |RemoveHyphens(companyId)| >= 12
    ensures forall i | 0 <= i < 12 :: IsHexDigit(RemoveHyphens(companyId)[i])
  {
    var a, b, c := companyId[..8], companyId[9..13], companyId[13..];
    assert forall i | 0 <= i < 8 :: a[i] == companyId[i] && IsHexDigit(a[i]);
    assert forall i | 0 <= i < 4 :: b[i] == companyId[i + 9] && IsHexDigit(b[i]);
    assert companyId == a + (['-'] + (b + c));
    RemoveFirstHyphen(a, b, c);
    assert forall i | 0 <= i < 12 :: RemoveHyphens(companyId)[i] == if i < 8 then a[i] else b[i - 8];
  }

  lemma RemoveFirstHyphen(a: string, b: string, c: string)
    requires '-' !in a && '-' !in b
    ensures RemoveHyphens(a + (['-'] + (b + c))) == a + (b + RemoveHyphens(c))
  {
    RemoveHyphensConcat(b, c);
    RemoveHyphensConcat(a, ['-'] + (b + c));
    assert (['-'] + (b + c))[1..] == b + c;
  }

  /**
   No reserved word is as long as a generated slug and ends the way generated slugs do: in two
   characters each of which is a hexadecimal digit or a hyphen.
   */
  lemma ReservedEndings(w: string)
    requires w in RUNTIME_RESERVED && |w| >= 9
    ensures !(IsHexDigit(w[|w| - 1]) && (IsHexDigit(w[|w| - 2]) || w[|w| - 2] == '-'))
  {
    assert w in RESERVED || w == "company-kitchen";
  }

  lemma FallbackIsSlug(companyId: string)
    requires IsUuid(companyId)
    ensures IsSlug(Fallback(companyId)) && Fallback(companyId) !in RUNTIME_RESERVED
  {
    CompactId(companyId);
    var tail := SliceTo(RemoveHyphens(companyId), 12);
    assert forall i | 0 <= i < 12 :: IsHexDigit(tail[i]);
    HyphenFreeIsCanonical("business");
    HyphenFreeIsCanonical(tail);
    CanonicalConcat("business", tail);
    var s := Fallback(companyId);
    assert s == "business" + "-" + tail;
    if s in RUNTIME_RESERVED { ReservedEndings(s); }
  }

  /** Whatever the name, the base slug is a legal slug. */
  lemma BaseSlugIsSlug(nfkd: string -> string, name: string, companyId: string)
    requires IsUuid(companyId)
    ensures IsSlug(BaseSlug(nfkd, name, companyId))
  {
    SqueezeShape(DropNonAscii(nfkd(name)));
    FallbackIsSlug(companyId);
  }

  /** The texts `BaseSlug` returns unchanged are exactly the legal slugs. */
  lemma BaseSlugFixpoints(nfkd: string -> string, s: string, companyId: string)
    requires FixesAscii(nfkd) && IsUuid(companyId)
    ensures BaseSlug(nfkd, s, companyId) == s <==> IsSlug(s)
  {
    BaseSlugIsSlug(nfkd, s, companyId);
    if IsSlug(s) {
      assert IsAscii(s);
      HyphenateFixes(s);
      SqueezeKeeps(s, s);
    }
  }

  /** `BaseSlug` is a normal form. */
  lemma BaseSlugIdempotent(nfkd: string -> string, name: string, companyId: string)
    requires FixesAscii(nfkd) && IsUuid(companyId)
    ensures var s := BaseSlug(nfkd, name, companyId);
            BaseSlug(nfkd, s, companyId) == s
  {
    BaseSlugIsSlug(nfkd, name, companyId);
    BaseSlugFixpoints(nfkd, BaseSlug(nfkd, name, companyId), companyId);
  }

  // ----- The probe for a free slug -----

  function ShortId(companyId: string): string {
    SliceTo(RemoveHyphens(companyId), 8)
  }

  function Suffix(companyId: string, counter: nat): string {
    if counter == 1 then ShortId(companyId) else ShortId(companyId) + "-" + Decimal.Print(counter)
  }

  function Prefix(candidate: string, companyId: string, counter: nat): string {
    StripRight(SliceTo(candidate, 62 - |Suffix(companyId, counter)|))
  }

  function Attempt(candidate: string, companyId: string, counter: nat): string {
    Prefix(candidate, companyId, counter) + "-" + Suffix(companyId, counter)
  }

  /** What the probe tries, in order: the candidate itself, then attempt 1, attempt 2, ... */
  ghost function Choices(candidate: string, companyId: string): (choice: nat -> string)
    ensures Probe.EventuallyDistinct(choice)
  {
    AllAttemptsDistinct(candidate, companyId);
    (k: nat) => if k == 0 then candidate else Attempt(candidate, companyId, k)
  }

  lemma AllAttemptsDistinct(candidate: string, companyId: string)
    ensures forall j: nat, k: nat | 2 <= j < k :: Attempt(candidate, companyId, j) != Attempt(candidate, companyId, k)
  {
    forall j: nat, k: nat | 2 <= j < k
      ensures Attempt(candidate, companyId, j) != Attempt(candidate, companyId, k)
    {
      AttemptsDistinct(candidate, companyId, j, k);
    }
  }

  lemma ShortIdShape(companyId: string)
    requires IsUuid(companyId)
    ensures |ShortId(companyId)| == 8 && forall c | c in ShortId(companyId) :: IsHexDigit(c)
    ensures Canonical(ShortId(companyId)) && '-' !in ShortId(companyId)
  {
    CompactId(companyId);
    var t := ShortId(companyId);
    assert forall i | 0 <= i < 8 :: t[i] == RemoveHyphens(companyId)[i] && IsHexDigit(t[i]);
    HyphenFreeIsCanonical(t);
  }

  lemma NumberedAttempt(candidate: string, companyId: string, counter: nat)
    requires counter >= 2
    ensures Attempt(candidate, companyId, counter) ==
            (Prefix(candidate, companyId, counter) + "-" + ShortId(companyId)) + "-" + Decimal.Print(counter)
  {
  }

  /** Truncation only ever touches the prefix: the counter stays readable at the end. */
  lemma AttemptEnding(candidate: string, companyId: string, counter: nat)
    requires counter >= 2
    ensures LastSegment(Attempt(candidate, companyId, counter)) == Decimal.Print(counter)
  {
    NumberedAttempt(candidate, companyId, counter);
    LastSegmentAfterHyphen(Prefix(candidate, companyId, counter) + "-" + ShortId(companyId), Decimal.Print(counter));
  }

  lemma AttemptsDistinct(candidate: string, companyId: string, j: nat, k: nat)
    requires j >= 2 && k >= 2 && j != k
    ensures Attempt(candidate, companyId, j) != Attempt(candidate, companyId, k)
  {
    AttemptEnding(candidate, companyId, j);
    AttemptEnding(candidate, companyId, k);
    Decimal.ReadPrint(j);
    Decimal.ReadPrint(k);
  }

  lemma CollisionOfForms(p1: string, pk: string, short: string, digits: string)
    requires '-' !in short && '-' !in digits
    ensures p1 + "-" + short == (pk + "-" + short) + "-" + digits <==> digits == short && p1 == pk + "-" + short
  {
    var a1, ak := p1 + "-" + short, (pk + "-" + short) + "-" + digits;
    if a1 == ak {
      LastSegmentAfterHyphen(p1, short);
      LastSegmentAfterHyphen(pk + "-" + short, digits);
      assert p1 == a1[..|a1| - |short| - 1] == ak[..|ak| - |short| - 1] == pk + "-" + short;
    }
  }

  /** The unnumbered attempt meets a numbered one exactly when the short id reads as that number. */
  lemma FirstAttemptCollision(candidate: string, companyId: string, k: nat)
    requires IsUuid(companyId) && k >= 2
    ensures Attempt(candidate, companyId, 1) == Attempt(candidate, companyId, k) <==>
            && Decimal.Print(k) == ShortId(companyId)
            && StripRight(SliceTo(candidate, 54)) ==
               StripRight(SliceTo(candidate, 45)) + "-" + ShortId(companyId)
  {
    ShortIdShape(companyId);
    var short, digits := ShortId(companyId), Decimal.Print(k);
    var p1, pk := Prefix(candidate, companyId, 1), Prefix(candidate, companyId, k);
    assert p1 == StripRight(SliceTo(candidate, 54));
    assert digits == short ==> pk == StripRight(SliceTo(candidate, 45));
    NumberedAttempt(candidate, companyId, k);
    CollisionOfForms(p1, pk, short, digits);
  }

  /** Attempts with counters below ten million never repeat, whatever is truncated or stripped. */
  lemma AttemptsDistinctBelowTenMillion(candidate: string, companyId: string, j: nat, k: nat)
    requires IsUuid(companyId) && 1 <= j < k < 10_000_000
    ensures Attempt(candidate, companyId, j) != Attempt(candidate, companyId, k)
  {
    if j == 1 {
      FirstAttemptCollision(candidate, companyId, k);
      ShortIdShape(companyId);
      Decimal.PrintLength(k, 7);
      assert Decimal.Pow10(7) == 10_000_000;
    } else {
      AttemptsDistinct(candidate, companyId, j, k);
    }
  }

  /** They do repeat for every company whose short id is a decimal numeral, given a suitable name. */
  lemma AttemptsCanRepeat(companyId: string, k: nat)
    requires IsUuid(companyId) && k >= 2 && ShortId(companyId) == Decimal.Print(k)
    ensures var candidate := seq(45, _ => 'a') + "-" + ShortId(companyId);
            IsSlug(candidate) && Attempt(candidate, companyId, 1) == Attempt(candidate, companyId, k)
  {
    ShortIdShape(companyId);
    var letters: string := seq(45, _ => 'a');
    var candidate := letters + "-" + ShortId(companyId);
    HyphenFreeIsCanonical(letters);
    CanonicalConcat(letters, ShortId(companyId));
    assert candidate !in RESERVED by {
      assert candidate[53] == ShortId(companyId)[7] && candidate[52] == ShortId(companyId)[6];
      if candidate in RESERVED { ReservedEndings(candidate); }
    }
    assert SliceTo(candidate, 45) == letters;
    FirstAttemptCollision(candidate, companyId, k);
  }

  /** The first free choice; it exists for every candidate, company id and finite set of used slugs. */
  ghost function FirstFit(candidate: string, companyId: string, used: set<string>): string {
    var choice := Choices(candidate, companyId);
    choice(Probe.FirstFree(choice, used, 0))
  }

  lemma FirstFitIs(candidate: string, companyId: string, used: set<string>, n: nat)
    requires candidate in used <==> n > 0
    requires forall j | 1 <= j < n :: Attempt(candidate, companyId, j) in used
    requires n > 0 ==> Attempt(candidate, companyId, n) !in used
    ensures FirstFit(candidate, companyId, used) == if n == 0 then candidate else Attempt(candidate, companyId, n)
  {
    var choice := Choices(candidate, companyId);
    hide Attempt;
    assert forall j | 0 <= j < n :: choice(j) in used;
    Probe.FirstFreeIs(choice, used, n);
  }

  lemma AttemptsBound(candidate: string, companyId: string, used: set<string>, end: nat)
    requires forall j | 1 <= j < end :: Attempt(candidate, companyId, j) in used
    ensures end <= |used| + 2
  {
    var choice := Choices(candidate, companyId);
    assert forall j | 2 <= j < end :: choice(j) in used;
    Probe.Bound(choice, used, end);
  }

  /** `_unique_slug` */
  method UniqueSlug(candidate: string, companyId: string, used: set<string>) returns (slug: string)
    ensures slug == FirstFit(candidate, companyId, used)
  {
    hide FirstFit, Suffix, SliceTo, StripRight;
    if candidate !in used {
      FirstFitIs(candidate, companyId, used, 0);
      return candidate;
    }
    var counter := 1;
    while true
      invariant counter >= 1
      invariant forall j | 1 <= j < counter :: Attempt(candidate, companyId, j) in used
      decreases |used| + 2 - counter
    {
      var suffix := Suffix(companyId, counter);
      var prefix := StripRight(SliceTo(candidate, 62 - |suffix|));
      var generated := prefix + "-" + suffix;
      assert generated == Attempt(candidate, companyId, counter);
      if generated !in used {
        FirstFitIs(candidate, companyId, used, counter);
        return generated;
      }
      counter := counter + 1;
      AttemptsBound(candidate, companyId, used, counter);
    }
  }

  /** A numbered attempt is a legal slug exactly while its counter leaves room for a prefix. */
  lemma AttemptIsLegal(candidate: string, companyId: string, counter: nat)
    requires Canonical(candidate) && |candidate| <= MAX_LENGTH && IsUuid(companyId) && counter >= 1
    ensures var s := Attempt(candidate, companyId, counter);
            (Canonical(s) && |s| <= MAX_LENGTH) <==> counter < Decimal.Pow10(52)
  {
    ShortIdShape(companyId);
    var short, digits, suffix := ShortId(companyId), Decimal.Print(counter), Suffix(companyId, counter);
    var room, prefix := 62 - |suffix|, Prefix(candidate, companyId, counter);
    Decimal.PrintLength(counter, 52);
    Decimal.PrintLength(counter, 1);
    assert 10 == Decimal.Pow10(1) <= Decimal.Pow10(52) by { Decimal.PowersGrow(1, 52); }
    HyphenFreeIsCanonical(digits);
    CanonicalConcat(short, digits);
    assert Canonical(suffix);
    if counter == 1 || |digits| <= 52 {
      StripPrefix(candidate, SliceTo(candidate, room));
      CanonicalConcat(prefix, suffix);
    } else if room == 0 {
      assert prefix == [];
      assert Attempt(candidate, companyId, counter)[0] == '-';
    }
  }

  /** No generated slug is a reserved word, at any counter. */
  lemma AttemptNotReserved(candidate: string, companyId: string, counter: nat)
    requires IsUuid(companyId) && counter >= 1
    ensures Attempt(candidate, companyId, counter) !in RUNTIME_RESERVED
    ensures |Attempt(candidate, companyId, counter)| >= 9
  {
    ShortIdShape(companyId);
    var short, digits, s := ShortId(companyId), Decimal.Print(counter), Attempt(candidate, companyId, counter);
    var n := |s|;
    if counter == 1 {
      assert s[n - 1] == short[7] && s[n - 2] == short[6];
    } else {
      assert s[n - 1] == digits[|digits| - 1];
      assert s[n - 2] == if |digits| == 1 then '-' else digits[|digits| - 2];
    }
    if s in RUNTIME_RESERVED { ReservedEndings(s); }
  }

  // ----- The pass over all companies -----

  /** A row of `companies`; both names may be null, and an empty name counts as none. */
  datatype Company = Company(id: string, name: Option<string>, nameEn: Option<string>)

  /** `str(row["name_en"] or row["name"] or "")` */
  function DisplayName(c: Company): string {
    if c.nameEn.Some? && c.nameEn.value != [] then c.nameEn.value
    else if c.name.Some? then c.name.value
    else ""
  }

  function Base(nfkd: string -> string, c: Company): string {
    BaseSlug(nfkd, DisplayName(c), c.id)
  }

  ghost function SlugAfter(nfkd: string -> string, row: Company, earlier: seq<string>): string {
    FirstFit(Base(nfkd, row), row.id, Elements(earlier))
  }

  /** The slugs of the companies, in their order. */
  ghost function Slugs(nfkd: string -> string, rows: seq<Company>): (slugs: seq<string>)
    ensures |slugs| == |rows|
  {
    Scan.Results((row, earlier) => SlugAfter(nfkd, row, earlier), rows)
  }

  /** Appending companies never changes the slug of an earlier one. */
  lemma SlugsPrefixStable(nfkd: string -> string, rows: seq<Company>, more: seq<Company>)
    ensures Slugs(nfkd, rows + more)[..|rows|] == Slugs(nfkd, rows)
  {
    Scan.PrefixStable((row, earlier) => SlugAfter(nfkd, row, earlier), rows, more);
  }

  lemma SlugsStep(nfkd: string -> string, rows: seq<Company>, i: nat)
    requires i < |rows|
    ensures Slugs(nfkd, rows)[i] == SlugAfter(nfkd, rows[i], Slugs(nfkd, rows)[..i])
  {
    Scan.EachStep((row, earlier) => SlugAfter(nfkd, row, earlier), rows, i);
  }

  /** First fit: everything tried before the slug was held by an earlier row, and the slug was not. */
  lemma SlugsFirstFit(nfkd: string -> string, rows: seq<Company>, i: nat) returns (k: nat)
    requires i < |rows|
    ensures var choice := Choices(Base(nfkd, rows[i]), rows[i].id);
            && Slugs(nfkd, rows)[i] == choice(k)
            && (forall j | 0 <= j < k :: choice(j) in Slugs(nfkd, rows)[..i])
    ensures Slugs(nfkd, rows)[i] !in Slugs(nfkd, rows)[..i]
    ensures k <= i + 2
  {
    SlugsStep(nfkd, rows, i);
    var earlier := Slugs(nfkd, rows)[..i];
    k := Probe.FirstFree(Choices(Base(nfkd, rows[i]), rows[i].id), Elements(earlier), 0);
    ElementsBound(earlier);
  }

  /** No two companies share a slug, however many there are. */
  lemma SlugsDistinct(nfkd: string -> string, rows: seq<Company>, i: nat, j: nat)
    requires i < j < |rows|
    ensures Slugs(nfkd, rows)[i] != Slugs(nfkd, rows)[j]
  {
    var k := SlugsFirstFit(nfkd, rows, j);
    assert Slugs(nfkd, rows)[..j][i] == Slugs(nfkd, rows)[i];
  }

  /** No company is given a reserved word, however many companies there are. */
  lemma SlugsNotReserved(nfkd: string -> string, rows: seq<Company>, i: nat)
    requires i < |rows| && IsUuid(rows[i].id)
    ensures Slugs(nfkd, rows)[i] !in RESERVED && |Slugs(nfkd, rows)[i]| >= 3
  {
    var k := SlugsFirstFit(nfkd, rows, i);
    BaseSlugIsSlug(nfkd, DisplayName(rows[i]), rows[i].id);
    if k > 0 { AttemptNotReserved(Base(nfkd, rows[i]), rows[i].id, k); }
  }

  /** Up to 10^52 - 2 companies, every slug is legal. */
  lemma SlugsLegal(nfkd: string -> string, rows: seq<Company>, i: nat)
    requires i < |rows| <= Decimal.Pow10(52) - 2 && IsUuid(rows[i].id)
    ensures IsSlug(Slugs(nfkd, rows)[i])
  {
    var k := SlugsFirstFit(nfkd, rows, i);
    var base := Base(nfkd, rows[i]);
    BaseSlugIsSlug(nfkd, DisplayName(rows[i]), rows[i].id);
    SlugsNotReserved(nfkd, rows, i);
    if k > 0 { AttemptIsLegal(base, rows[i].id, k); }
  }

  // ----- The migration over the table -----

  datatype MigrationError = ValueTooLong | NullSlug | DuplicateSlug

  predicate AllFit(slugs: seq<string>) {
    forall i | 0 <= i < |slugs| :: |slugs[i]| <= MAX_LENGTH
  }

  function Ids(rows: seq<Company>): set<string> {
    set row | row in rows :: row.id
  }

  /** The column holds exactly the slugs of these rows. */
  predicate Filled(column: map<string, string>, rows: seq<Company>, slugs: seq<string>)
    requires |rows| == |slugs|
  {
    && column.Keys == Ids(rows)
    && forall i | 0 <= i < |rows| :: rows[i].id in column && column[rows[i].id] == slugs[i]
  }

  lemma NothingFilled(rows: seq<Company>, slugs: seq<string>)
    requires |rows| == |slugs|
    ensures Filled(map[], rows[..0], slugs[..0]) && AllFit(slugs[..0]) && Elements(slugs[..0]) == {}
  {
  }

  lemma FitStep(slugs: seq<string>, n: nat)
    requires n < |slugs| && AllFit(slugs[..n])
    ensures |slugs[n]| <= MAX_LENGTH ==> AllFit(slugs[..n + 1])
    ensures |slugs[n]| > MAX_LENGTH ==> !AllFit(slugs)
  {
    Scan.TakeOneMore(slugs, n);
  }

  lemma FilledStep(column: map<string, string>, rows: seq<Company>, slugs: seq<string>, n: nat)
    requires n < |rows| == |slugs|
    requires Filled(column, rows[..n], slugs[..n]) && rows[n].id !in Ids(rows[..n])
    ensures Filled(column[rows[n].id := slugs[n]], rows[..n + 1], slugs[..n + 1])
  {
    Scan.TakeOneMore(rows, n);
    assert forall c :: c in rows[..n + 1] <==> c in rows[..n] || c == rows[n];
  }

  /** The `companies` table while the migration runs; the new column starts null in every row. */
  class CompanyTable {
    const rows: seq<Company>
    var businessSlug: map<string, string>

    constructor (rows: seq<Company>)
      ensures this.rows == rows && businessSlug == map[]
    {
      this.rows := rows;
      businessSlug := map[];
    }

    /** `upgrade`: fill the column row by row, then require it to be set and unique everywhere. */
    method Upgrade(nfkd: string -> string) returns (outcome: Result<(), MigrationError>)
      requires forall i, j | 0 <= i < j < |rows| :: rows[i].id != rows[j].id
      requires businessSlug == map[]
      modifies this
      ensures outcome == (if AllFit(Slugs(nfkd, rows)) then Ok(()) else Err(ValueTooLong))
      ensures outcome.Ok? ==> Filled(businessSlug, rows, Slugs(nfkd, rows))
    {
      ghost var slugs := Slugs(nfkd, rows);
      forall i | 0 <= i < |rows|
        ensures slugs[i] == SlugAfter(nfkd, rows[i], slugs[..i])
      {
        SlugsStep(nfkd, rows, i);
      }
      outcome := FillColumn(nfkd, slugs);
      if outcome.Ok? {
        forall i, j | 0 <= i < j < |rows|
          ensures slugs[i] != slugs[j]
        {
          SlugsDistinct(nfkd, rows, i, j);
        }
        outcome := CheckColumn();
      }
    }

    /** The loop; a slug longer than the column aborts the statement that writes it. */
    method FillColumn(nfkd: string -> string, ghost slugs: seq<string>) returns (outcome: Result<(), MigrationError>)
      requires forall i, j | 0 <= i < j < |rows| :: rows[i].id != rows[j].id
      requires businessSlug == map[]
      requires |slugs| == |rows|
      requires forall i | 0 <= i < |rows| :: slugs[i] == SlugAfter(nfkd, rows[i], slugs[..i])
      modifies this
      ensures outcome == (if AllFit(slugs) then Ok(()) else Err(ValueTooLong))
      ensures outcome.Ok? ==> Filled(businessSlug, rows, slugs)
    {
      hide FirstFit, Base, IsUuid, RESERVED, Filled, Elements, AllFit;
      NothingFilled(rows, slugs);
      var used: set<string> := {};
      var n := 0;
      while n < |rows|
        invariant 0 <= n <= |rows|
        invariant used == Elements(slugs[..n])
        invariant AllFit(slugs[..n])
        invariant Filled(businessSlug, rows[..n], slugs[..n])
      {
        var row := rows[n];
        var candidate := UniqueSlug(Base(nfkd, row), row.id, used);
        assert candidate == slugs[n];
        ElementsStep(slugs, n);
        used := used + {candidate};
        FitStep(slugs, n);
        if |candidate| > MAX_LENGTH {
          return Err(ValueTooLong);
        }
        FilledStep(businessSlug, rows, slugs, n);
        businessSlug := businessSlug[row.id := candidate];
        n := n + 1;
      }
      assert slugs[..n] == slugs && rows[..n] == rows;
      outcome := Ok(());
    }

    /** The column becomes NOT NULL, then gets its unique index. */
    method CheckColumn() returns (outcome: Result<(), MigrationError>)
      ensures outcome == if exists i | 0 <= i < |rows| :: rows[i].id !in businessSlug then Err(NullSlug)
                         else if exists i, j | 0 <= i < j < |rows| ::
                           businessSlug[rows[i].id] == businessSlug[rows[j].id] then Err(DuplicateSlug)
                         else Ok(())
    {
      if exists i | 0 <= i < |rows| :: rows[i].id !in businessSlug {
        return Err(NullSlug);
      }
      if exists i, j | 0 <= i < j < |rows| :: businessSlug[rows[i].id] == businessSlug[rows[j].id] {
        return Err(DuplicateSlug);
      }
      outcome := Ok(());
    }
  }

  /** Up to 10^52 - 2 companies the column never overflows, so `Upgrade` succeeds. */
  lemma UpgradeFits(nfkd: string -> string, rows: seq<Company>)
    requires |rows| <= Decimal.Pow10(52) - 2
    requires forall i | 0 <= i < |rows| :: IsUuid(rows[i].id)
    ensures AllFit(Slugs(nfkd, rows))
  {
    forall i | 0 <= i < |rows|
      ensures |Slugs(nfkd, rows)[i]| <= MAX_LENGTH
    {
      SlugsLegal(nfkd, rows, i);
    }
  }
}
