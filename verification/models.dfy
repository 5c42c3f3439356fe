/**
  The record shapes of models.py and the commission engine that lives on
  them: `Affiliate.calculate_commission`, `Affiliate.update_earnings`,
  `Referral.validate_for_completion`,
  `Referral.calculate_and_update_commission` and `User.verify_email`.

  The database is one immutable snapshot `Db`; a row's id is its position in
  its table. Money is whole cents. A failed operation returns the snapshot it
  was given, which is what the session rollback achieves.
 */
module Models {
  import opened Basics

  /** A Numeric(10, 2) amount, in cents. */
  type Cents = int

  datatype Date = Date(year: int, month: int, day: int)

  /** A `datetime`; only its calendar date is ever inspected. */
  datatype DateTime = DateTime(date: Date, secondOfDay: int)

  /**
    The `status` column. The API admits only the three names; the admin form
    stores whatever string it is sent, which `Other` keeps.
   */
  datatype Status = New | InProgress | Completed | Other(name: string)

  function StatusName(s: Status): string
  {
    match s
    case New => "new"
    case InProgress => "in-progress"
    case Completed => "completed"
    case Other(n) => n
  }

  predicate IsKnownStatusName(s: string)
  {
    s == "new" || s == "in-progress" || s == "completed"
  }

  /** A status value as the column can hold it: `Other` never spells a known name. */
  ghost predicate WellFormedStatus(st: Status)
  {
    st.Other? ==> !IsKnownStatusName(st.name)
  }

  /** Reading the `status` column. */
  function ParseStatus(s: string): (st: Status)
    ensures WellFormedStatus(st)
    ensures StatusName(st) == s
    ensures st.Other? <==> !IsKnownStatusName(s)
  {
    if s == "new" then New
    else if s == "in-progress" then InProgress
    else if s == "completed" then Completed
    else Other(s)
  }

  lemma ParseStatusName(st: Status)
    requires WellFormedStatus(st)
    ensures ParseStatus(StatusName(st)) == st
  {
  }

  datatype User = User(
    username: string,
    email: string,
    passwordHash: string,
    role: string,
    emailVerified: bool,
    verificationToken: Option<string>,
    tokenExpiry: Option<DateTime>)

  datatype Affiliate = Affiliate(
    userId: nat,
    slug: string,
    approved: bool,
    totalEarnings: Cents)

  /** `commission_amount` is NOT NULL, so "unset" and "zero" are the same value here. */
  datatype TreatmentGroup = TreatmentGroup(
    name: string,
    description: string,
    commissionAmount: Cents)

  datatype Treatment = Treatment(
    name: string,
    active: bool,
    groupId: Option<nat>)

  datatype TreatmentStatus = TreatmentStatus(
    startDate: Option<DateTime>,
    endDate: Option<DateTime>,
    notes: string,
    outcome: Option<string>)

  /** The one-to-one `Treatment_Status` row is kept inside its referral. */
  datatype Referral = Referral(
    affiliateId: nat,
    treatmentId: nat,
    name: string,
    surname: string,
    email: string,
    phone: string,
    status: Status,
    commissionAmount: Option<Cents>,
    createdAt: DateTime,
    treatmentStatus: Option<TreatmentStatus>)

  /** `TreatmentNameMapping`: a CRM treatment name mapped onto a group. */
  datatype NameMapping = NameMapping(externalName: string, groupId: nat)

  datatype Webhook = Webhook(
    userId: nat,
    url: string,
    secret: string,
    events: seq<string>,
    isActive: bool,
    lastTriggered: Option<DateTime>,
    failureCount: int)

  datatype Db = Db(
    users: seq<User>,
    affiliates: seq<Affiliate>,
    groups: seq<TreatmentGroup>,
    treatments: seq<Treatment>,
    referrals: seq<Referral>,
    mappings: seq<NameMapping>,
    webhooks: seq<Webhook>)

  /** `referral.treatment`. */
  function TreatmentOf(db: Db, r: Referral): Option<Treatment>
  {
    Lookup(db.treatments, r.treatmentId)
  }

  /** `treatment.group`. */
  function GroupOf(db: Db, t: Treatment): Option<TreatmentGroup>
  {
    if t.groupId.Some? then Lookup(db.groups, t.groupId.value) else None
  }

  /** `referral.treatment.group`, when both links resolve. */
  function ReferralGroup(db: Db, r: Referral): Option<TreatmentGroup>
  {
    match TreatmentOf(db, r)
    case None => None
    case Some(t) => GroupOf(db, t)
  }

  /** `user.affiliate`: the affiliate row whose `user_id` points at the user. */
  function AffiliateOf(db: Db, uid: nat): (r: Option<nat>)
    ensures r.Some? ==> r.value < |db.affiliates| && db.affiliates[r.value].userId == uid
    ensures r.None? ==> forall j :: 0 <= j < |db.affiliates| ==> db.affiliates[j].userId != uid
  {
    FirstIndex(db.affiliates, (a: Affiliate) => a.userId == uid)
  }

  /** Some affiliate row already holds `slug` (the unique `Affiliate.slug` column). */
  ghost predicate SlugTaken(db: Db, slug: string)
  {
    exists a :: 0 <= a < |db.affiliates| && db.affiliates[a].slug == slug
  }

  // ---------------------------------------------------------------------
  // Affiliate.calculate_commission
  // ---------------------------------------------------------------------

  /**
    The fixed commission of the treatment's group, or 0 when the treatment or
    its group is missing or the amount is zero or negative.
   */
  function CalculateCommission(db: Db, t: Option<Treatment>): (c: Cents)
    ensures c >= 0
    ensures c > 0 <==> t.Some? && GroupOf(db, t.value).Some? && GroupOf(db, t.value).value.commissionAmount > 0
    ensures c > 0 ==> c == GroupOf(db, t.value).value.commissionAmount
  {
    if t.None? then 0
    else
      match GroupOf(db, t.value)
      case None => 0
      case Some(g) =>
        if g.commissionAmount == 0 then 0
        else if g.commissionAmount <= 0 then 0
        else g.commissionAmount
  }

  // ---------------------------------------------------------------------
  // Referral.validate_for_completion
  // ---------------------------------------------------------------------

  const MissingTreatment := "Missing treatment information"
  const NoGroup := "Treatment has no group assigned"
  const NoCommissionAmount := "Treatment group has no commission amount"
  const InvalidCommissionAmount := "Invalid commission amount"
  const MissingAffiliate := "Missing affiliate information"
  const NotCompleted := "Referral is not completed"
  const ZeroCommissionCalculated := "Invalid commission amount calculated"

  /** Everything a referral needs before a commission can be paid on it. */
  ghost predicate ReadyForCompletion(db: Db, r: Referral)
  {
    && ReferralGroup(db, r).Some?
    && ReferralGroup(db, r).value.commissionAmount > 0
    && r.affiliateId < |db.affiliates|
  }

  function ValidateForCompletion(db: Db, r: Referral): (v: Outcome)
    ensures v.Pass? <==> ReadyForCompletion(db, r)
    ensures v == Fail(MissingTreatment) <==> TreatmentOf(db, r).None?
    ensures v == Fail(NoGroup) <==> TreatmentOf(db, r).Some? && ReferralGroup(db, r).None?
    ensures v == Fail(NoCommissionAmount) <==>
              ReferralGroup(db, r).Some? && ReferralGroup(db, r).value.commissionAmount == 0
    ensures v == Fail(InvalidCommissionAmount) <==>
              ReferralGroup(db, r).Some? && ReferralGroup(db, r).value.commissionAmount < 0
    ensures v == Fail(MissingAffiliate) <==>
              ReferralGroup(db, r).Some? && ReferralGroup(db, r).value.commissionAmount > 0
              && r.affiliateId >= |db.affiliates|
  {
    match TreatmentOf(db, r)
    case None => Fail(MissingTreatment)
    case Some(t) =>
      match GroupOf(db, t)
      case None => Fail(NoGroup)
      case Some(g) =>
        if g.commissionAmount == 0 then Fail(NoCommissionAmount)
        else if g.commissionAmount <= 0 then Fail(InvalidCommissionAmount)
        else if r.affiliateId >= |db.affiliates| then Fail(MissingAffiliate)
        else Pass
  }

  /** The five checks of the validator as a flat list of (holds, message), in source order. */
  function CompletionChecks(db: Db, r: Referral): seq<(bool, string)>
  {
    var g := ReferralGroup(db, r);
    [ (TreatmentOf(db, r).Some?, MissingTreatment),
      (g.Some?, NoGroup),
      (g.Some? && g.value.commissionAmount != 0, NoCommissionAmount),
      (g.Some? && g.value.commissionAmount > 0, InvalidCommissionAmount),
      (r.affiliateId < |db.affiliates|, MissingAffiliate) ]
  }

  /** The message of the first check that does not hold. */
  function FirstFailure(checks: seq<(bool, string)>): Outcome
  {
    if |checks| == 0 then Pass
    else if !checks[0].0 then Fail(checks[0].1)
    else FirstFailure(checks[1..])
  }

  /** The validator reports exactly the first failing check of the list. */
  lemma ValidateIsFirstFailure(db: Db, r: Referral)
    ensures ValidateForCompletion(db, r) == FirstFailure(CompletionChecks(db, r))
  {
    var c0 := CompletionChecks(db, r);
    var c1 := c0[1..];
    var c2 := c1[1..];
    var c3 := c2[1..];
    var c4 := c3[1..];
    assert FirstFailure(c4[1..]) == Pass;
    assert FirstFailure(c4) == if !c4[0].0 then Fail(c4[0].1) else Pass;
    assert FirstFailure(c3) == if !c3[0].0 then Fail(c3[0].1) else FirstFailure(c4);
    assert FirstFailure(c2) == if !c2[0].0 then Fail(c2[0].1) else FirstFailure(c3);
    assert FirstFailure(c1) == if !c1[0].0 then Fail(c1[0].1) else FirstFailure(c2);
  }

  /** The validator and the commission calculator agree: validation passes only if a positive group amount is paid. */
  lemma ValidationAgreesWithCommission(db: Db, r: Referral)
    ensures ValidateForCompletion(db, r).Pass? ==>
              && ReferralGroup(db, r).value.commissionAmount > 0
              && CalculateCommission(db, TreatmentOf(db, r)) == ReferralGroup(db, r).value.commissionAmount
    ensures (ValidateForCompletion(db, r) in
               {Fail(MissingTreatment), Fail(NoGroup), Fail(NoCommissionAmount), Fail(InvalidCommissionAmount)})
            <==> CalculateCommission(db, TreatmentOf(db, r)) == 0
  {
  }

  // ---------------------------------------------------------------------
  // Affiliate.update_earnings
  // ---------------------------------------------------------------------

  /** `referral.status == 'completed'` on the stored string, as the dashboards compare it. */
  predicate CompletedName(r: Referral)
  {
    StatusName(r.status) == "completed"
  }

  /** A referral counts towards earnings when it is completed with a positive commission. */
  predicate Earns(r: Referral)
  {
    r.status == Completed && r.commissionAmount.Some? && r.commissionAmount.value > 0
  }

  /** What one referral adds to its affiliate's balance. */
  function Earned(r: Referral): (c: Cents)
    ensures c >= 0
    ensures c > 0 <==> Earns(r)
  {
    if Earns(r) then r.commissionAmount.value else 0
  }

  /** What referral `r` contributes to affiliate `aid`'s balance. */
  function Contribution(r: Referral, aid: nat): Cents
  {
    if r.affiliateId == aid then Earned(r) else 0
  }

  /** The loop of `update_earnings` over the affiliate's referrals. */
  function EarningsTotal(rs: seq<Referral>, aid: nat): (total: Cents)
    ensures total >= 0
  {
    if |rs| == 0 then 0 else Contribution(rs[0], aid) + EarningsTotal(rs[1..], aid)
  }

  /** The plain sum of the commissions of a list of referrals, missing ones as 0. */
  function CommissionSum(rs: seq<Referral>): Cents
  {
    if |rs| == 0 then 0
    else (if rs[0].commissionAmount.Some? then rs[0].commissionAmount.value else 0) + CommissionSum(rs[1..])
  }

  /** The balance is the sum of commissions over exactly the affiliate's completed, positive-commission referrals. */
  lemma {:induction false} EarningsTotalIsSumOverEarning(rs: seq<Referral>, aid: nat)
    ensures EarningsTotal(rs, aid) == CommissionSum(Filter(rs, (r: Referral) => r.affiliateId == aid && Earns(r)))
  {
    if |rs| > 0 {
      EarningsTotalIsSumOverEarning(rs[1..], aid);
      var p := (r: Referral) => r.affiliateId == aid && Earns(r);
      assert Filter(rs, p) == (if p(rs[0]) then [rs[0]] else []) + Filter(rs[1..], p);
      CommissionSumAppend(if p(rs[0]) then [rs[0]] else [], Filter(rs[1..], p));
    }
  }

  lemma {:induction false} CommissionSumAppend(a: seq<Referral>, b: seq<Referral>)
    ensures CommissionSum(a + b) == CommissionSum(a) + CommissionSum(b)
  {
    if |a| == 0 {
      assert a + b == b;
    } else {
      assert (a + b)[1..] == a[1..] + b;
      CommissionSumAppend(a[1..], b);
    }
  }

  /** Replacing one referral changes the balance by the difference of the two contributions. */
  lemma {:induction false} EarningsTotalUpdate(rs: seq<Referral>, i: nat, x: Referral, aid: nat)
    requires i < |rs|
    ensures EarningsTotal(rs[i := x], aid) == EarningsTotal(rs, aid) - Contribution(rs[i], aid) + Contribution(x, aid)
  {
    if i > 0 {
      assert rs[i := x][1..] == rs[1..][i - 1 := x];
      EarningsTotalUpdate(rs[1..], i - 1, x, aid);
    } else {
      assert rs[i := x][1..] == rs[1..];
    }
  }

  lemma {:induction false} EarningsTotalIsSumOf(rs: seq<Referral>, aid: nat)
    ensures EarningsTotal(rs, aid) == SumOf(rs, (r: Referral) => Contribution(r, aid))
  {
    if |rs| > 0 {
      EarningsTotalIsSumOf(rs[1..], aid);
    }
  }

  /** The balance does not depend on the order in which the referrals are visited. */
  lemma EarningsTotalOrderIndependent(rs: seq<Referral>, ts: seq<Referral>, aid: nat)
    requires multiset(rs) == multiset(ts)
    ensures EarningsTotal(rs, aid) == EarningsTotal(ts, aid)
  {
    EarningsTotalIsSumOf(rs, aid);
    EarningsTotalIsSumOf(ts, aid);
    SumOfPermutation(rs, ts, (r: Referral) => Contribution(r, aid));
  }

  /** The stored balance of `aid` agrees with its referrals. */
  ghost predicate EarningsConsistent(db: Db, aid: nat)
  {
    aid < |db.affiliates| && db.affiliates[aid].totalEarnings == EarningsTotal(db.referrals, aid)
  }

  /** Only money moved: every table other than referrals and affiliates is untouched, and no row was added. */
  ghost predicate SameRows(db: Db, db': Db)
  {
    && db'.users == db.users
    && db'.groups == db.groups
    && db'.treatments == db.treatments
    && db'.mappings == db.mappings
    && db'.webhooks == db.webhooks
    && |db'.affiliates| == |db.affiliates|
    && |db'.referrals| == |db.referrals|
  }

  /** `Affiliate.update_earnings`: recompute the balance of affiliate `aid` from its referrals. */
  function UpdateEarnings(db: Db, aid: nat): (r: Db)
    requires aid < |db.affiliates|
    ensures EarningsConsistent(r, aid)
    ensures SameRows(db, r) && r.referrals == db.referrals
    ensures r.affiliates[aid].(totalEarnings := 0) == db.affiliates[aid].(totalEarnings := 0)
    ensures forall j :: 0 <= j < |db.affiliates| && j != aid ==> r.affiliates[j] == db.affiliates[j]
  {
    var a := db.affiliates[aid];
    db.(affiliates := db.affiliates[aid := a.(totalEarnings := EarningsTotal(db.referrals, aid))])
  }

  // ---------------------------------------------------------------------
  // Referral.calculate_and_update_commission
  // ---------------------------------------------------------------------

  /** The new snapshot together with the `(success, message)` pair. */
  datatype Attempt = Attempt(db: Db, outcome: Outcome)

  function CalculateAndUpdateCommission(db: Db, i: nat): (a: Attempt)
    requires i < |db.referrals|
    ensures a.outcome.Fail? ==> a.db == db
    ensures ValidateForCompletion(db, db.referrals[i]).Fail? ==> a.outcome == ValidateForCompletion(db, db.referrals[i])
    ensures ValidateForCompletion(db, db.referrals[i]).Pass? && db.referrals[i].status != Completed ==>
              a.outcome == Fail(NotCompleted)
    ensures a.outcome.Pass? <==> ReadyForCompletion(db, db.referrals[i]) && db.referrals[i].status == Completed
    ensures a.outcome.Pass? ==>
              a.db.referrals == db.referrals[i := db.referrals[i].(commissionAmount := Some(ReferralGroup(db, db.referrals[i]).value.commissionAmount))]
    ensures a.outcome.Pass? ==> EarningsConsistent(a.db, db.referrals[i].affiliateId)
    ensures SameRows(db, a.db)
    ensures forall j :: 0 <= j < |db.affiliates| && j != db.referrals[i].affiliateId ==> a.db.affiliates[j] == db.affiliates[j]
    ensures forall j :: 0 <= j < |db.affiliates| ==>
              a.db.affiliates[j].(totalEarnings := 0) == db.affiliates[j].(totalEarnings := 0)
  {
    var r := db.referrals[i];
    var v := ValidateForCompletion(db, r);
    if v.Fail? then Attempt(db, v)
    else if r.status != Completed then Attempt(db, Fail(NotCompleted))
    else
      var c := CalculateCommission(db, TreatmentOf(db, r));
      if c <= 0 then Attempt(db, Fail(ZeroCommissionCalculated))
      else
        var updated := db.(referrals := db.referrals[i := r.(commissionAmount := Some(c))]);
        Attempt(UpdateEarnings(updated, r.affiliateId), Pass)
  }

  /**
    On success the affiliate's balance moves by exactly the new commission
    minus what the referral already contributed, provided it was consistent
    before: the increment the CRM webhook applies is right only when the
    referral contributed nothing yet.
   */
  lemma CommissionSuccessDelta(db: Db, i: nat)
    requires i < |db.referrals|
    requires EarningsConsistent(db, db.referrals[i].affiliateId)
    requires CalculateAndUpdateCommission(db, i).outcome.Pass?
    ensures var aid := db.referrals[i].affiliateId;
            CalculateAndUpdateCommission(db, i).db.affiliates[aid].totalEarnings
              == db.affiliates[aid].totalEarnings - Earned(db.referrals[i])
                 + ReferralGroup(db, db.referrals[i]).value.commissionAmount
  {
    var r := db.referrals[i];
    var c := ReferralGroup(db, r).value.commissionAmount;
    EarningsTotalUpdate(db.referrals, i, r.(commissionAmount := Some(c)), r.affiliateId);
  }

  // ---------------------------------------------------------------------
  // User.verify_email
  // ---------------------------------------------------------------------

  /** Mark user `uid` verified, drop the token and its expiry, and approve the user's affiliate if there is one. */
  function VerifyEmail(db: Db, uid: nat): (r: Db)
    requires uid < |db.users|
    ensures |r.users| == |db.users| && |r.affiliates| == |db.affiliates|
    ensures r.users[uid].emailVerified
    ensures r.users[uid].verificationToken.None? && r.users[uid].tokenExpiry.None?
    ensures r.users[uid].(emailVerified := false, verificationToken := None, tokenExpiry := None)
            == db.users[uid].(emailVerified := false, verificationToken := None, tokenExpiry := None)
    ensures forall j :: 0 <= j < |db.users| && j != uid ==> r.users[j] == db.users[j]
    ensures AffiliateOf(db, uid).Some? ==> r.affiliates[AffiliateOf(db, uid).value].approved
    ensures forall j :: 0 <= j < |db.affiliates| ==> r.affiliates[j].(approved := false) == db.affiliates[j].(approved := false)
    ensures forall j :: 0 <= j < |db.affiliates| && Some(j) != AffiliateOf(db, uid) ==> r.affiliates[j] == db.affiliates[j]
    ensures r.referrals == db.referrals && r.groups == db.groups && r.treatments == db.treatments
    ensures r.webhooks == db.webhooks && r.mappings == db.mappings
  {
    var u := db.users[uid].(emailVerified := true, verificationToken := None, tokenExpiry := None);
    var db1 := db.(users := db.users[uid := u]);
    match AffiliateOf(db, uid)
    case None => db1
    case Some(k) => db1.(affiliates := db.affiliates[k := db.affiliates[k].(approved := true)])
  }
}
