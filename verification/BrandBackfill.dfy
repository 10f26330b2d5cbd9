/** The migration that gives user-branch assignments their brand, business type and target database. */
module BrandBackfill {
  import opened Wrappers

  type Id = nat

  datatype BrandBranch = BrandBranch(brand: Id, branch: Id, active: bool)

  datatype UserBranch = UserBranch(branch: Id, brand: Option<Id>, businessType: Option<string>,
      targetDatabase: Option<string>)

  const BUSINESS_TYPES := {"restaurant", "retail_pos", "takeaway"}

  // ----- Grouping the active assignments of brands to branches -----

  /** The brands active at a branch, one per row: the group of `GROUP BY branch_id`. */
  function ActiveBrands(rows: seq<BrandBranch>, branch: Id): seq<Id> {
    if rows == [] then []
    else
      var row := rows[|rows| - 1];
      ActiveBrands(rows[..|rows| - 1], branch) + if row.active && row.branch == branch then [row.brand] else []
  }

  function Minimum(ids: seq<Id>): (m: Id)
    requires ids != []
    ensures m in ids && forall id | id in ids :: m <= id
  {
    if |ids| == 1 then ids[0]
    else
      var m := Minimum(ids[..|ids| - 1]);
      assert forall id | id in ids :: id in ids[..|ids| - 1] || id == ids[|ids| - 1];
      if m <= ids[|ids| - 1] then m else ids[|ids| - 1]
  }

  /** The subquery of the first update: branches with exactly one active brand. */
  function Resolved(rows: seq<BrandBranch>, branch: Id): Option<Id> {
    var group := ActiveBrands(rows, branch);
    if |group| == 1 then Some(Minimum(group)) else None
  }

  /** The partial unique index: no two active rows share a branch. */
  ghost predicate OneActiveBrand(rows: seq<BrandBranch>) {
    forall i, j | 0 <= i < j < |rows| && rows[i].active && rows[j].active :: rows[i].branch != rows[j].branch
  }

  lemma {:induction false} ActiveBrandsAre(rows: seq<BrandBranch>, branch: Id, brand: Id)
    ensures brand in ActiveBrands(rows, branch) <==> BrandBranch(brand, branch, true) in rows
  {
    if rows != [] {
      var front, row := rows[..|rows| - 1], rows[|rows| - 1];
      ActiveBrandsAre(front, branch, brand);
      assert forall x :: x in rows <==> x in front || x == row;
    }
  }

  lemma {:induction false} IndexableBounds(rows: seq<BrandBranch>, branch: Id)
    requires OneActiveBrand(rows)
    ensures |ActiveBrands(rows, branch)| <= 1
  {
    if rows != [] {
      var front, row := rows[..|rows| - 1], rows[|rows| - 1];
      IndexableBounds(front, branch);
      if row.active && row.branch == branch { NoneActive(front, branch); }
    }
  }

  lemma {:induction false} NoneActive(rows: seq<BrandBranch>, branch: Id)
    requires forall i | 0 <= i < |rows| && rows[i].active :: rows[i].branch != branch
    ensures ActiveBrands(rows, branch) == []
  {
    if rows != [] { NoneActive(rows[..|rows| - 1], branch); }
  }

  lemma {:induction false} SharedBranchCounts(rows: seq<BrandBranch>, i: nat, j: nat)
    requires i < j < |rows| && rows[i].active && rows[j].active && rows[i].branch == rows[j].branch
    ensures |ActiveBrands(rows, rows[i].branch)| >= 2
  {
    var front, row := rows[..|rows| - 1], rows[|rows| - 1];
    if j < |front| {
      SharedBranchCounts(front, i, j);
    } else {
      assert front[i] in front;
      ActiveBrandsAre(front, row.branch, front[i].brand);
    }
  }

  /** The guard lets pass exactly the data on which the unique index can be built. */
  lemma GuardMeansIndexable(rows: seq<BrandBranch>)
    ensures (forall b | b in rows && b.active :: |ActiveBrands(rows, b.branch)| <= 1) <==> OneActiveBrand(rows)
  {
    if OneActiveBrand(rows) {
      forall b | b in rows && b.active ensures |ActiveBrands(rows, b.branch)| <= 1 {
        IndexableBounds(rows, b.branch);
      }
    } else {
      var i, j :| 0 <= i < j < |rows| && rows[i].active && rows[j].active && rows[i].branch == rows[j].branch;
      SharedBranchCounts(rows, i, j);
      assert rows[i] in rows;
    }
  }

  /** With the guard passed, a branch resolves to its active brand whenever it has one. */
  lemma ResolvesActiveBrand(rows: seq<BrandBranch>, branch: Id, brand: Id)
    requires OneActiveBrand(rows)
    ensures Resolved(rows, branch) == Some(brand) <==> BrandBranch(brand, branch, true) in rows
  {
    IndexableBounds(rows, branch);
    ActiveBrandsAre(rows, branch, brand);
  }

  // ----- The constraints afterwards -----

  /** `ck_user_branches_context_complete` */
  predicate Complete(u: UserBranch) {
    || (u.brand.None? && u.businessType.None? && u.targetDatabase.None?)
    || (u.brand.Some? && u.businessType.Some? && u.targetDatabase == u.businessType)
  }

  /** The two checks on the values. */
  predicate LegalValues(u: UserBranch) {
    && (u.businessType.Some? ==> u.businessType.value in BUSINESS_TYPES)
    && (u.targetDatabase.Some? ==> u.targetDatabase.value in BUSINESS_TYPES)
  }

  /** The first update */
  function Assign(brandBranches: seq<BrandBranch>, u: UserBranch): UserBranch {
    var resolved := Resolved(brandBranches, u.branch);
    if u.brand.None? && resolved.Some? then u.(brand := resolved) else u
  }

  /** The second update */
  function Derive(businessTypes: map<Id, string>, u: UserBranch): UserBranch {
    if u.brand.Some? && u.brand.value in businessTypes
    then u.(businessType := Some(businessTypes[u.brand.value]), targetDatabase := Some(businessTypes[u.brand.value]))
    else u
  }

  /** One assignment through the whole migration. */
  function Migrated(brandIds: set<Id>, brandBranches: seq<BrandBranch>, u: UserBranch): UserBranch {
    Derive(map b | b in brandIds :: "restaurant",
           Assign(brandBranches, u.(businessType := None, targetDatabase := None)))
  }

  /** What the two updates make of one assignment. */
  lemma Backfilled(brandBranches: seq<BrandBranch>, brandIds: set<Id>, u: UserBranch)
    requires OneActiveBrand(brandBranches)
    requires forall b | b in brandBranches :: b.brand in brandIds
    requires u.brand.Some? ==> u.brand.value in brandIds
    ensures var after := Migrated(brandIds, brandBranches, u);
            && after.branch == u.branch
            && (u.brand.Some? ==> after.brand == u.brand)
            && (u.brand.None? ==>
                  forall b: Id :: after.brand == Some(b) <==> BrandBranch(b, u.branch, true) in brandBranches)
            && Complete(after) && LegalValues(after)
            && (after.brand.Some? ==> after.businessType == Some("restaurant"))
  {
    forall b: Id
      ensures Resolved(brandBranches, u.branch) == Some(b) <==> BrandBranch(b, u.branch, true) in brandBranches
    {
      ResolvesActiveBrand(brandBranches, u.branch, b);
    }
    var resolved := Resolved(brandBranches, u.branch);
    if resolved.Some? { assert BrandBranch(resolved.value, u.branch, true) in brandBranches; }
  }

  datatype MigrationError = TooManyActiveBrands | ContextIncomplete

  class Tables {
    const brandBranches: seq<BrandBranch>
    const brandIds: set<Id>
    var businessTypes: map<Id, string>
    var userBranches: map<Id, UserBranch>

    constructor (brandIds: set<Id>, brandBranches: seq<BrandBranch>, userBranches: map<Id, UserBranch>)
      ensures this.brandIds == brandIds && this.brandBranches == brandBranches && this.userBranches == userBranches
    {
      this.brandIds, this.brandBranches, this.userBranches := brandIds, brandBranches, userBranches;
      businessTypes := map[];
    }

    /** Every foreign key to `brands` holds. */
    ghost predicate KeysHold()
      reads this
    {
      && (forall b | b in brandBranches :: b.brand in brandIds)
      && (forall u | u in userBranches :: userBranches[u].brand.Some? ==> userBranches[u].brand.value in brandIds)
    }

    /**
     `upgrade`: passes exactly on data with at most one active brand per branch. Every brand starts as a
     restaurant, every assignment without a context; then come the two updates and the new checks.
     */
    method Upgrade() returns (outcome: Result<(), MigrationError>)
      requires KeysHold()
      modifies this
      ensures outcome == if OneActiveBrand(brandBranches) then Ok(()) else Err(TooManyActiveBrands)
      ensures outcome.Ok? ==> userBranches.Keys == old(userBranches).Keys
      ensures outcome.Ok? ==> forall u | u in old(userBranches) ::
                userBranches[u] == Migrated(brandIds, brandBranches, old(userBranches)[u])
      ensures outcome.Ok? ==> forall u | u in userBranches :: Complete(userBranches[u]) && LegalValues(userBranches[u])
    {
      businessTypes := map b | b in brandIds :: "restaurant";
      GuardMeansIndexable(brandBranches);
      if exists b | b in brandBranches :: b.active && |ActiveBrands(brandBranches, b.branch)| > 1 {
        return Err(TooManyActiveBrands);
      }
      userBranches := map u | u in userBranches :: userBranches[u].(businessType := None, targetDatabase := None);
      forall u | u in userBranches
        ensures var after := Migrated(brandIds, brandBranches, userBranches[u]); Complete(after) && LegalValues(after)
      {
        Backfilled(brandBranches, brandIds, userBranches[u]);
      }
      userBranches := map u | u in userBranches :: Assign(brandBranches, userBranches[u]);
      userBranches := map u | u in userBranches :: Derive(businessTypes, userBranches[u]);
      if exists u | u in userBranches :: !Complete(userBranches[u]) || !LegalValues(userBranches[u]) {
        return Err(ContextIncomplete);
      }
      outcome := Ok(());
    }
  }
}
