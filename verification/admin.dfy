/**
  admin.py: the treatment-group and commission-rate forms with their
  recalculation loops, the treatment-status form, affiliate approval and
  the per-affiliate status histogram.

  Every handler answers with a redirect and a flashed message; the model
  returns the snapshot the session commits (the prior one on rollback)
  together with that message.
 */
module Admin {
  import opened Basics
  import opened Tally
  import opened Models

  // ---------------------------------------------------------------------
  // Form values and answers
  // ---------------------------------------------------------------------

  /**
    A decimal form field as `Decimal(field or '0')` reads it, in hundredths:
    left blank, not a number (InvalidOperation), or a value.
   */
  datatype FormDecimal = Blank | Malformed | Hundredths(value: int)

  function ParseDecimal(f: FormDecimal): Option<int>
  {
    match f
    case Blank => Some(0)
    case Malformed => None
    case Hundredths(v) => Some(v)
  }

  /** The flashed message category: success, warning, danger; or the 404 / 500 page. */
  datatype Flash = Done(message: string) | Warned(message: string) | Refused(message: string) | NotFound | ServerError

  datatype AdminResult = AdminResult(db: Db, flash: Flash)

  const GroupAdded := "Treatment group added successfully."
  const InvalidAmount := "Invalid commission amount."
  const ErrorAddingGroup := "Error adding treatment group."
  const GroupUpdated := "Treatment group updated successfully."
  const ErrorUpdatingGroup := "Error updating treatment group."
  const RateUpdated := "Commission rate updated successfully."
  const InvalidRate := "Invalid commission rate."
  const StatusAndCommissionUpdated := "Treatment status updated and commission calculated successfully."
  const CommissionFailedPrefix := "Treatment status updated but commission calculation failed: "
  const StatusUpdated := "Treatment status updated successfully."
  const AffiliateApproved := "Affiliate approved and email verified successfully"
  const ApprovedWithoutMail := "Affiliate approved but notification email could not be sent."

  /** The largest rate the form accepts: 100 percent, in hundredths. */
  const MaxRate := 10000

  /** What the admin forms keep true: no group pays a negative commission. */
  ghost predicate AmountsNonNegative(db: Db)
  {
    forall g :: 0 <= g < |db.groups| ==> db.groups[g].commissionAmount >= 0
  }

  // ---------------------------------------------------------------------
  // add_treatment_group
  // ---------------------------------------------------------------------

  /**
    A blank amount means 0; a malformed or negative one is refused before a
    group exists; a missing name violates NOT NULL at commit and rolls back.
   */
  function AddTreatmentGroup(db: Db, name: Option<string>, description: string, amount: FormDecimal): (r: AdminResult)
    ensures ParseDecimal(amount).None? || ParseDecimal(amount).value < 0 ==> r == AdminResult(db, Refused(InvalidAmount))
    ensures r.flash.Done? <==> name.Some? && ParseDecimal(amount).Some? && ParseDecimal(amount).value >= 0
    ensures !r.flash.Done? ==> r.db == db
    ensures r.flash.Done? ==>
              r.db == db.(groups := db.groups + [TreatmentGroup(name.value, description, ParseDecimal(amount).value)])
    ensures amount.Blank? && name.Some? ==> r.db.groups[|db.groups|].commissionAmount == 0
    ensures AmountsNonNegative(db) ==> AmountsNonNegative(r.db)
  {
    match ParseDecimal(amount)
    case None => AdminResult(db, Refused(InvalidAmount))
    case Some(v) =>
      if v < 0 then AdminResult(db, Refused(InvalidAmount))
      else if name.None? then AdminResult(db, Refused(ErrorAddingGroup))
      else AdminResult(db.(groups := db.groups + [TreatmentGroup(name.value, description, v)]), Done(GroupAdded))
  }

  // ---------------------------------------------------------------------
  // The recalculation loops of edit_treatment_group and update_commission_rate
  // ---------------------------------------------------------------------

  /** Which referrals a loop revisits: those of the group's treatments, or those of the affiliate. */
  datatype Scope = GroupScope(gid: nat) | AffiliateScope(aid: nat)

  /** The loop recalculates `r`: it is completed and in scope. */
  predicate Revisited(db: Db, scope: Scope, r: Referral)
  {
    && r.status == Completed
    && (match scope
        case GroupScope(gid) => r.treatmentId < |db.treatments| && db.treatments[r.treatmentId].groupId == Some(gid)
        case AffiliateScope(aid) => r.affiliateId == aid)
  }

  /** The row after its recalculation: the group amount when the commission engine accepts it, the row as it was otherwise. */
  ghost function Recalculated(db: Db, scope: Scope, r: Referral): Referral
  {
    if Revisited(db, scope, r) && ReadyForCompletion(db, r) then
      r.(commissionAmount := Some(ReferralGroup(db, r).value.commissionAmount))
    else r
  }

  /** Recomputing one referral's commission keeps every balance that was right, right. */
  lemma CommissionKeepsConsistency(db: Db, i: nat)
    requires i < |db.referrals|
    ensures forall a :: EarningsConsistent(db, a) ==> EarningsConsistent(CalculateAndUpdateCommission(db, i).db, a)
  {
    var att := CalculateAndUpdateCommission(db, i);
    forall a | EarningsConsistent(db, a)
      ensures EarningsConsistent(att.db, a)
    {
      if att.outcome.Pass? && a != db.referrals[i].affiliateId {
        EarningsTotalUpdate(db.referrals, i, att.db.referrals[i], a);
      }
    }
  }

  /**
    One pass of the loop body for referral `j`. In the group loop
    `referral.affiliate.update_earnings()` follows and raises on a dangling
    affiliate (`None`). The rollback that follows keeps what earlier passes
    committed (`PartialEdit`).
   */
  function RecalcStep(db: Db, scope: Scope, j: nat): (r: Option<Db>)
    requires j < |db.referrals|
    ensures r.None? <==> scope.GroupScope? && Revisited(db, scope, db.referrals[j]) && db.referrals[j].affiliateId >= |db.affiliates|
    ensures r.Some? ==> SameRows(db, r.value)
    ensures r.Some? ==> r.value.referrals == db.referrals[j := Recalculated(db, scope, db.referrals[j])]
    ensures r.Some? ==> forall a :: EarningsConsistent(db, a) ==> EarningsConsistent(r.value, a)
    ensures r.Some? && Revisited(db, scope, db.referrals[j]) && (scope.GroupScope? || ReadyForCompletion(db, db.referrals[j])) ==>
              EarningsConsistent(r.value, db.referrals[j].affiliateId)
    ensures r.Some? ==> forall a :: 0 <= a < |db.affiliates| && !(Revisited(db, scope, db.referrals[j]) && db.referrals[j].affiliateId == a) ==>
              r.value.affiliates[a] == db.affiliates[a]
    ensures r.Some? ==> forall a :: 0 <= a < |db.affiliates| ==>
              r.value.affiliates[a].(totalEarnings := 0) == db.affiliates[a].(totalEarnings := 0)
  {
    var rj := db.referrals[j];
    if !Revisited(db, scope, rj) then Some(db)
    else
      var att := CalculateAndUpdateCommission(db, j);
      CommissionKeepsConsistency(db, j);
      match scope
      case AffiliateScope(_) => Some(att.db)
      case GroupScope(_) =>
        if rj.affiliateId < |db.affiliates| then Some(UpdateEarnings(att.db, rj.affiliateId)) else None
  }

  /** The loop over referrals `k` up to (not including) `n`, in id order. */
  function RecalcFrom(db: Db, scope: Scope, k: nat, n: nat): (r: Option<Db>)
    requires k <= n <= |db.referrals|
    ensures r.Some? ==> SameRows(db, r.value)
    ensures r.Some? ==> forall j :: 0 <= j < |db.referrals| && !(k <= j < n) ==> r.value.referrals[j] == db.referrals[j]
    decreases n - k
  {
    if k == n then Some(db)
    else
      match RecalcStep(db, scope, k)
      case None => None
      case Some(db2) => RecalcFrom(db2, scope, k + 1, n)
  }

  /** Some revisited referral in `k..n` has a dangling affiliate, and the group loop is the one that asks for it. */
  ghost predicate Breaks(db: Db, scope: Scope, k: nat, n: nat)
  {
    scope.GroupScope? && exists j :: k <= j < n && j < |db.referrals| && Revisited(db, scope, db.referrals[j]) && db.referrals[j].affiliateId >= |db.affiliates|
  }

  /** Affiliate `a` owns a referral the loop revisits in `k..n`. */
  ghost predicate Touched(db: Db, scope: Scope, k: nat, n: nat, a: nat)
  {
    exists j :: k <= j < n && j < |db.referrals| && Revisited(db, scope, db.referrals[j]) && db.referrals[j].affiliateId == a
  }

  /** After a successful step at `k`, the rest of the table and the scope and readiness of every row read the same. */
  lemma StepFrame(db: Db, scope: Scope, k: nat)
    requires k < |db.referrals| && RecalcStep(db, scope, k).Some?
    ensures var db2 := RecalcStep(db, scope, k).value;
            && (forall j :: k < j < |db.referrals| ==> db2.referrals[j] == db.referrals[j])
            && (forall x :: Revisited(db2, scope, x) == Revisited(db, scope, x))
            && (forall x :: Recalculated(db2, scope, x) == Recalculated(db, scope, x))
            && (forall x :: ReadyForCompletion(db2, x) == ReadyForCompletion(db, x))
  {
    var db2 := RecalcStep(db, scope, k).value;
    assert forall x :: ReferralGroup(db2, x) == ReferralGroup(db, x);
  }

  /** After a successful step at `k`, the rows after it and the scope of every row read the same. */
  lemma StepKeepsScope(db: Db, scope: Scope, k: nat)
    requires k < |db.referrals| && RecalcStep(db, scope, k).Some?
    ensures var db2 := RecalcStep(db, scope, k).value;
            && (forall j :: k < j < |db.referrals| ==> db2.referrals[j] == db.referrals[j])
            && (forall x :: Revisited(db2, scope, x) == Revisited(db, scope, x))
  {
  }

  /** A step writes no treatment or group, so the readiness of every row reads the same after it. */
  lemma StepKeepsReadiness(db: Db, scope: Scope, k: nat)
    requires k < |db.referrals| && RecalcStep(db, scope, k).Some?
    ensures forall x :: ReadyForCompletion(RecalcStep(db, scope, k).value, x) == ReadyForCompletion(db, x)
  {
    var db2 := RecalcStep(db, scope, k).value;
    assert forall x :: ReferralGroup(db2, x) == ReferralGroup(db, x);
  }

  /** A step that raises is a break of the loop it belongs to. */
  lemma StepFailureBreaks(db: Db, scope: Scope, k: nat, n: nat)
    requires k < n <= |db.referrals| && RecalcStep(db, scope, k).None?
    ensures Breaks(db, scope, k, n)
  {
    assert Revisited(db, scope, db.referrals[k]) && db.referrals[k].affiliateId >= |db.affiliates|;
  }

  /** The loop over `k..n` fails exactly when a revisited referral's affiliate is missing, and only the group loop asks for it. */
  lemma {:induction false} RecalcFails(db: Db, scope: Scope, k: nat, n: nat)
    requires k <= n <= |db.referrals|
    ensures RecalcFrom(db, scope, k, n).None? <==> Breaks(db, scope, k, n)
    decreases n - k
  {
    if k < n {
      var s := RecalcStep(db, scope, k);
      if s.None? {
        StepFailureBreaks(db, scope, k, n);
      } else {
        RecalcFails(s.value, scope, k + 1, n);
        StepKeepsScope(db, scope, k);
        BreaksFrame(db, s.value, scope, k, n);
      }
    }
  }

  /** Every referral in `k..n` is recalculated; no other referral changes. */
  lemma {:induction false} RecalcRows(db: Db, scope: Scope, k: nat, n: nat)
    requires k <= n <= |db.referrals|
    ensures RecalcFrom(db, scope, k, n).Some? ==>
              forall j :: 0 <= j < |db.referrals| ==>
                RecalcFrom(db, scope, k, n).value.referrals[j] ==
                  (if k <= j < n then Recalculated(db, scope, db.referrals[j]) else db.referrals[j])
    decreases n - k
  {
    if k < n {
      var s := RecalcStep(db, scope, k);
      if s.Some? {
        RecalcRows(s.value, scope, k + 1, n);
        StepFrame(db, scope, k);
      }
    }
  }

  /** A balance that was right before the loop is right after it. */
  lemma {:induction false} RecalcKeepsConsistency(db: Db, scope: Scope, k: nat, n: nat)
    requires k <= n <= |db.referrals|
    ensures RecalcFrom(db, scope, k, n).Some? ==>
              forall a :: EarningsConsistent(db, a) ==> EarningsConsistent(RecalcFrom(db, scope, k, n).value, a)
    decreases n - k
  {
    if k < n {
      var s := RecalcStep(db, scope, k);
      if s.Some? {
        RecalcKeepsConsistency(s.value, scope, k + 1, n);
      }
    }
  }

  /**
    The balance of each affiliate the loop revisits is right afterwards: in
    the group loop because `update_earnings` follows every recalculation, in
    the affiliate loop for the affiliates the engine paid.
   */
  lemma {:induction false} RecalcSettles(db: Db, scope: Scope, k: nat, n: nat)
    requires k <= n <= |db.referrals|
    ensures RecalcFrom(db, scope, k, n).Some? ==>
              forall j :: k <= j < n && Revisited(db, scope, db.referrals[j])
                          && (scope.GroupScope? || ReadyForCompletion(db, db.referrals[j])) ==>
                EarningsConsistent(RecalcFrom(db, scope, k, n).value, db.referrals[j].affiliateId)
    decreases n - k
  {
    if k < n {
      var s := RecalcStep(db, scope, k);
      if s.Some? {
        RecalcSettles(s.value, scope, k + 1, n);
        RecalcKeepsConsistency(s.value, scope, k + 1, n);
        StepKeepsScope(db, scope, k);
        StepKeepsReadiness(db, scope, k);
        var d := RecalcFrom(db, scope, k, n);
        if d.Some? {
          forall j | k <= j < n && Revisited(db, scope, db.referrals[j]) && (scope.GroupScope? || ReadyForCompletion(db, db.referrals[j]))
            ensures EarningsConsistent(d.value, db.referrals[j].affiliateId)
          {
            if j > k {
              assert s.value.referrals[j] == db.referrals[j];
            }
          }
        }
      }
    }
  }

  /** The loop writes balances and nothing else of an affiliate row. */
  lemma {:induction false} RecalcOnlyBalances(db: Db, scope: Scope, k: nat, n: nat)
    requires k <= n <= |db.referrals|
    ensures RecalcFrom(db, scope, k, n).Some? ==>
              forall a :: 0 <= a < |db.affiliates| ==>
                RecalcFrom(db, scope, k, n).value.affiliates[a].(totalEarnings := 0) == db.affiliates[a].(totalEarnings := 0)
    decreases n - k
  {
    if k < n {
      var s := RecalcStep(db, scope, k);
      if s.Some? {
        RecalcOnlyBalances(s.value, scope, k + 1, n);
      }
    }
  }

  /** An affiliate none of whose referrals is revisited keeps its row. */
  lemma {:induction false} RecalcUntouched(db: Db, scope: Scope, k: nat, n: nat)
    requires k <= n <= |db.referrals|
    ensures RecalcFrom(db, scope, k, n).Some? ==>
              forall a :: 0 <= a < |db.affiliates| && !Touched(db, scope, k, n, a) ==>
                RecalcFrom(db, scope, k, n).value.affiliates[a] == db.affiliates[a]
    decreases n - k
  {
    if k < n {
      var s := RecalcStep(db, scope, k);
      if s.Some? {
        RecalcUntouched(s.value, scope, k + 1, n);
        StepKeepsScope(db, scope, k);
        TouchedFrame(db, s.value, scope, k, n);
        forall a | 0 <= a < |db.affiliates| && !Touched(db, scope, k, n, a)
          ensures !(Revisited(db, scope, db.referrals[k]) && db.referrals[k].affiliateId == a)
        {
        }
      }
    }
  }

  lemma BreaksFrame(db: Db, db2: Db, scope: Scope, k: nat, n: nat)
    requires k < n <= |db.referrals| && SameRows(db, db2)
    requires forall j :: k < j < |db.referrals| ==> db2.referrals[j] == db.referrals[j]
    requires forall x :: Revisited(db2, scope, x) == Revisited(db, scope, x)
    ensures Breaks(db2, scope, k + 1, n) ==> Breaks(db, scope, k, n)
    ensures Breaks(db, scope, k, n) && !Breaks(db2, scope, k + 1, n) ==>
              Revisited(db, scope, db.referrals[k]) && db.referrals[k].affiliateId >= |db.affiliates|
  {
    if Breaks(db2, scope, k + 1, n) {
      var j :| k + 1 <= j < n && j < |db2.referrals| && Revisited(db2, scope, db2.referrals[j]) && db2.referrals[j].affiliateId >= |db2.affiliates|;
      assert db2.referrals[j] == db.referrals[j];
    }
    if Breaks(db, scope, k, n) && !(Revisited(db, scope, db.referrals[k]) && db.referrals[k].affiliateId >= |db.affiliates|) {
      var j :| k <= j < n && j < |db.referrals| && Revisited(db, scope, db.referrals[j]) && db.referrals[j].affiliateId >= |db.affiliates|;
      assert j != k;
      assert db2.referrals[j] == db.referrals[j];
    }
  }

  lemma TouchedFrame(db: Db, db2: Db, scope: Scope, k: nat, n: nat)
    requires k < n <= |db.referrals| && SameRows(db, db2)
    requires forall j :: k < j < |db.referrals| ==> db2.referrals[j] == db.referrals[j]
    requires forall x :: Revisited(db2, scope, x) == Revisited(db, scope, x)
    ensures forall a :: Touched(db2, scope, k + 1, n, a) ==> Touched(db, scope, k, n, a)
  {
    forall a | Touched(db2, scope, k + 1, n, a)
      ensures Touched(db, scope, k, n, a)
    {
      var j :| k + 1 <= j < n && j < |db2.referrals| && Revisited(db2, scope, db2.referrals[j]) && db2.referrals[j].affiliateId == a;
      assert db2.referrals[j] == db.referrals[j];
    }
  }

  // ---------------------------------------------------------------------
  // edit_treatment_group
  // ---------------------------------------------------------------------

  /** Referral `r` is completed and its treatment belongs to group `gid`. */
  predicate InGroupCompleted(db: Db, gid: nat, r: Referral)
  {
    Revisited(db, GroupScope(gid), r)
  }

  /** Referral `r` is in the group's loop but has no affiliate: `referral.affiliate.update_earnings()` raises on it. */
  predicate Dangles(db: Db, gid: nat, r: Referral)
  {
    InGroupCompleted(db, gid, r) && r.affiliateId >= |db.affiliates|
  }

  /** The first referral, in loop order, on which the group loop raises. */
  function FirstDangling(db: Db, gid: nat): (b: Option<nat>)
    ensures b.None? <==> forall j :: 0 <= j < |db.referrals| ==> !Dangles(db, gid, db.referrals[j])
    ensures b.Some? ==> b.value < |db.referrals| && Dangles(db, gid, db.referrals[b.value])
    ensures b.Some? ==> forall j :: 0 <= j < b.value ==> !Dangles(db, gid, db.referrals[j])
  {
    FirstIndex(db.referrals, (r: Referral) => Dangles(db, gid, r))
  }

  /** Some iteration before `b` ran, and its `update_earnings` committed the session. */
  predicate CommittedBefore(db: Db, gid: nat, b: nat)
  {
    exists j :: 0 <= j < b && j < |db.referrals| && InGroupCompleted(db, gid, db.referrals[j])
  }

  /** Group `gid` rewritten to `g`, then the loop over referrals `0..n` run to its end without raising. */
  function RewriteAndRecalc(db: Db, gid: nat, g: TreatmentGroup, n: nat): (d: Db)
    requires gid < |db.groups| && g.commissionAmount >= 0 && n <= |db.referrals|
    requires forall j :: 0 <= j < n ==> !Dangles(db, gid, db.referrals[j])
    ensures d.groups == db.groups[gid := g]
    ensures d.users == db.users && d.treatments == db.treatments && d.mappings == db.mappings
    ensures d.webhooks == db.webhooks && |d.affiliates| == |db.affiliates| && |d.referrals| == |db.referrals|
    // a positive amount is written into every completed referral of the group; 0 is refused by the engine
    ensures forall j :: 0 <= j < |db.referrals| ==>
              d.referrals[j] == if j < n && InGroupCompleted(db, gid, db.referrals[j]) && g.commissionAmount > 0
                                then db.referrals[j].(commissionAmount := Some(g.commissionAmount))
                                else db.referrals[j]
    // and every affiliate of such a referral ends with the right balance
    ensures forall j :: 0 <= j < n && InGroupCompleted(db, gid, db.referrals[j]) ==>
              EarningsConsistent(d, db.referrals[j].affiliateId)
    ensures forall a :: 0 <= a < |db.affiliates| && !Touched(db, GroupScope(gid), 0, n, a) ==> d.affiliates[a] == db.affiliates[a]
  {
    var db1 := db.(groups := db.groups[gid := g]);
    var scope := GroupScope(gid);
    assert forall x :: Revisited(db1, scope, x) == Revisited(db, scope, x);
    assert forall x :: Revisited(db, scope, x) ==>
      (ReadyForCompletion(db1, x) <==> g.commissionAmount > 0 && x.affiliateId < |db.affiliates|) && ReferralGroup(db1, x) == Some(g);
    assert forall a :: Touched(db1, scope, 0, n, a) == Touched(db, scope, 0, n, a);
    assert !Breaks(db1, scope, 0, n) by {
      assert forall j :: 0 <= j < n ==> !Dangles(db, gid, db1.referrals[j]);
    }
    RecalcFails(db1, scope, 0, n);
    RecalcRows(db1, scope, 0, n);
    RecalcSettles(db1, scope, 0, n);
    RecalcUntouched(db1, scope, 0, n);
    RecalcFrom(db1, scope, 0, n).value
  }

  /**
    What persists when the group loop raises at referral `b`: every
    iteration before it ended in `update_earnings`, which commits, so the
    group rewrite and the recalculations before `b` stay; the rollback only
    undoes what came after the last commit. With no earlier iteration
    nothing was committed and the snapshot is unchanged.
   */
  function PartialEdit(db: Db, gid: nat, g: TreatmentGroup, b: nat): (d: Db)
    requires gid < |db.groups| && g.commissionAmount >= 0
    requires b < |db.referrals| && Dangles(db, gid, db.referrals[b])
    requires forall j :: 0 <= j < b ==> !Dangles(db, gid, db.referrals[j])
    ensures !CommittedBefore(db, gid, b) ==> d == db
    ensures CommittedBefore(db, gid, b) ==>
              && d.groups == db.groups[gid := g]
              && d.users == db.users && d.treatments == db.treatments && d.mappings == db.mappings
              && d.webhooks == db.webhooks && |d.affiliates| == |db.affiliates| && |d.referrals| == |db.referrals|
              && (forall j :: 0 <= j < |db.referrals| ==>
                    d.referrals[j] == if j < b && InGroupCompleted(db, gid, db.referrals[j]) && g.commissionAmount > 0
                                      then db.referrals[j].(commissionAmount := Some(g.commissionAmount))
                                      else db.referrals[j])
              && (forall j :: 0 <= j < b && InGroupCompleted(db, gid, db.referrals[j]) ==>
                    EarningsConsistent(d, db.referrals[j].affiliateId))
              && (forall a :: 0 <= a < |db.affiliates| && !Touched(db, GroupScope(gid), 0, b, a) ==> d.affiliates[a] == db.affiliates[a])
    ensures AmountsNonNegative(db) ==> AmountsNonNegative(d)
  {
    if !CommittedBefore(db, gid, b) then db else RewriteAndRecalc(db, gid, g, b)
  }

  /**
    Replace group `gid`'s fields and recalculate the completed referrals of
    its treatments, updating each one's affiliate balance. The amount is
    checked before any field is written. A missing name (NOT NULL) fails at
    the first flush, before any commit, and rolls everything back; a
    dangling affiliate raises after the earlier iterations have committed
    (`PartialEdit`).
   */
  function EditTreatmentGroup(db: Db, gid: nat, name: Option<string>, description: string, amount: FormDecimal): (r: AdminResult)
    ensures gid >= |db.groups| ==> r == AdminResult(db, NotFound)
    ensures gid < |db.groups| && (ParseDecimal(amount).None? || ParseDecimal(amount).value < 0) ==>
              r == AdminResult(db, Refused(InvalidAmount))
    ensures gid < |db.groups| && ParseDecimal(amount).Some? && ParseDecimal(amount).value >= 0 && name.None? ==>
              r == AdminResult(db, Refused(ErrorUpdatingGroup))
    ensures r.flash.Done? <==>
              && gid < |db.groups| && name.Some? && ParseDecimal(amount).Some? && ParseDecimal(amount).value >= 0
              && forall j :: 0 <= j < |db.referrals| && InGroupCompleted(db, gid, db.referrals[j]) ==>
                   db.referrals[j].affiliateId < |db.affiliates|
    ensures r.flash.Done? ==>
              var v := ParseDecimal(amount).value;
              && r.db.groups == db.groups[gid := TreatmentGroup(name.value, description, v)]
              && r.db.users == db.users && r.db.treatments == db.treatments && r.db.mappings == db.mappings
              && r.db.webhooks == db.webhooks && |r.db.affiliates| == |db.affiliates| && |r.db.referrals| == |db.referrals|
              // a positive amount is written into every completed referral of the group; 0 is refused by the engine
              && (forall j :: 0 <= j < |db.referrals| ==>
                    r.db.referrals[j] == if InGroupCompleted(db, gid, db.referrals[j]) && v > 0
                                        then db.referrals[j].(commissionAmount := Some(v))
                                        else db.referrals[j])
              // and every affiliate of such a referral ends with the right balance
              && (forall j :: 0 <= j < |db.referrals| && InGroupCompleted(db, gid, db.referrals[j]) ==>
                    EarningsConsistent(r.db, db.referrals[j].affiliateId))
              && (forall a :: 0 <= a < |db.affiliates| && !Touched(db, GroupScope(gid), 0, |db.referrals|, a) ==>
                    r.db.affiliates[a] == db.affiliates[a])
    // a dangling affiliate keeps what the iterations before it committed
    ensures gid < |db.groups| && name.Some? && ParseDecimal(amount).Some? && ParseDecimal(amount).value >= 0
            && FirstDangling(db, gid).Some? ==>
              r == AdminResult(
                     PartialEdit(db, gid, TreatmentGroup(name.value, description, ParseDecimal(amount).value), FirstDangling(db, gid).value),
                     Refused(ErrorUpdatingGroup))
    ensures AmountsNonNegative(db) ==> AmountsNonNegative(r.db)
  {
    if gid >= |db.groups| then AdminResult(db, NotFound)
    else
      match ParseDecimal(amount)
      case None => AdminResult(db, Refused(InvalidAmount))
      case Some(v) =>
        if v < 0 then AdminResult(db, Refused(InvalidAmount))
        else if name.None? then AdminResult(db, Refused(ErrorUpdatingGroup))
        else
          var g := TreatmentGroup(name.value, description, v);
          match FirstDangling(db, gid)
          case Some(b) => AdminResult(PartialEdit(db, gid, g, b), Refused(ErrorUpdatingGroup))
          case None => AdminResult(RewriteAndRecalc(db, gid, g, |db.referrals|), Done(GroupUpdated))
  }

  // ---------------------------------------------------------------------
  // update_commission_rate
  // ---------------------------------------------------------------------

  /**
    Check the rate against 0..100 percent, recalculate the affiliate's
    completed referrals, then recompute its balance. The rate itself is
    assigned to an attribute that is not a column of the affiliate table,
    so it is never stored and has no influence on any commission.
   */
  function UpdateCommissionRate(db: Db, aid: nat, rate: FormDecimal): (r: AdminResult)
    ensures aid >= |db.affiliates| ==> r == AdminResult(db, NotFound)
    ensures aid < |db.affiliates| ==>
              (r.flash.Done? <==> ParseDecimal(rate).Some? && 0 <= ParseDecimal(rate).value <= MaxRate)
    ensures aid < |db.affiliates| && !r.flash.Done? ==> r == AdminResult(db, Refused(InvalidRate))
    ensures r.flash.Done? ==>
              && SameRows(db, r.db) && r.db.groups == db.groups
              && EarningsConsistent(r.db, aid)
              && (forall j :: 0 <= j < |db.referrals| ==>
                    r.db.referrals[j] == if db.referrals[j].affiliateId == aid && db.referrals[j].status == Completed
                                            && ReadyForCompletion(db, db.referrals[j])
                                        then db.referrals[j].(commissionAmount := Some(ReferralGroup(db, db.referrals[j]).value.commissionAmount))
                                        else db.referrals[j])
              && (forall a :: 0 <= a < |db.affiliates| && a != aid ==> r.db.affiliates[a] == db.affiliates[a])
              && r.db.affiliates[aid].(totalEarnings := 0) == db.affiliates[aid].(totalEarnings := 0)
  {
    if aid >= |db.affiliates| then AdminResult(db, NotFound)
    else
      match ParseDecimal(rate)
      case None => AdminResult(db, Refused(InvalidRate))
      case Some(v) =>
        if v < 0 || v > MaxRate then AdminResult(db, Refused(InvalidRate))
        else
          var scope := AffiliateScope(aid);
          var n := |db.referrals|;
          RecalcFails(db, scope, 0, n);
          RecalcRows(db, scope, 0, n);
          RecalcUntouched(db, scope, 0, n);
          RecalcOnlyBalances(db, scope, 0, n);
          // The loop only revisits the affiliate's own referrals, and `aid`
          // exists, so it cannot fail (`RecalcFails`).
          match RecalcFrom(db, scope, 0, n)
          case None => assert false; AdminResult(db, NotFound)
          case Some(d) => AdminResult(UpdateEarnings(d, aid), Done(RateUpdated))
  }

  /** Two accepted rates give the same snapshot: the rate is never stored. */
  lemma RateIsDiscarded(db: Db, aid: nat, rate1: FormDecimal, rate2: FormDecimal)
    requires UpdateCommissionRate(db, aid, rate1).flash.Done? && UpdateCommissionRate(db, aid, rate2).flash.Done?
    ensures UpdateCommissionRate(db, aid, rate1).db == UpdateCommissionRate(db, aid, rate2).db
  {
  }
  // ---------------------------------------------------------------------
  // update_treatment_status
  // ---------------------------------------------------------------------

  /**
    The treatment-status record after the form: created with a start date
    only for "in-progress", or updated with the new notes and a start or
    end date stamped only when that date is still unset.
   */
  function StampStatus(ts: Option<TreatmentStatus>, status: string, notes: string, now: DateTime): (t: TreatmentStatus)
    ensures t.notes == notes
    ensures ts.None? ==>
              && t.startDate == (if status == "in-progress" then Some(now) else None)
              && t.endDate.None? && t.outcome.None?
    ensures ts.Some? ==> t.outcome == ts.value.outcome
    // a date once set is never overwritten
    ensures ts.Some? && ts.value.startDate.Some? ==> t.startDate == ts.value.startDate
    ensures ts.Some? && ts.value.endDate.Some? ==> t.endDate == ts.value.endDate
    // an unset date is stamped with `now` exactly for its status
    ensures ts.Some? && ts.value.startDate.None? ==> t.startDate == (if status == "in-progress" then Some(now) else None)
    ensures ts.Some? && ts.value.endDate.None? ==> t.endDate == (if status == "completed" then Some(now) else None)
  {
    match ts
    case None => TreatmentStatus(if status == "in-progress" then Some(now) else None, None, notes, None)
    case Some(prev) =>
      var t := prev.(notes := notes);
      if status == "in-progress" && t.startDate.None? then t.(startDate := Some(now))
      else if status == "completed" && t.endDate.None? then t.(endDate := Some(now))
      else t
  }

  /** Submitting the same form again, later, changes no date of an existing record. */
  lemma RestampKeepsDates(ts: TreatmentStatus, status: string, notes: string, now: DateTime, later: DateTime)
    ensures var once := StampStatus(Some(ts), status, notes, now);
            StampStatus(Some(once), status, notes, later) == once
  {
  }

  /**
    The admin's status form for referral `i`. The string is stored as sent;
    the commission engine runs whenever the new status is "completed", and
    when it refuses, the status change is committed anyway with a warning.
   */
  function UpdateTreatmentStatus(db: Db, i: nat, status: string, notes: string, now: DateTime): (r: AdminResult)
    ensures i >= |db.referrals| ==> r == AdminResult(db, NotFound)
    ensures i < |db.referrals| ==>
              var before := db.referrals[i];
              && SameRows(db, r.db)
              && r.db.referrals[i].status == ParseStatus(status)
              && r.db.referrals[i].treatmentStatus == Some(StampStatus(before.treatmentStatus, status, notes, now))
              && (forall j :: 0 <= j < |db.referrals| && j != i ==> r.db.referrals[j] == db.referrals[j])
              && r.db.referrals[i].(status := New, treatmentStatus := None, commissionAmount := None)
                 == before.(status := New, treatmentStatus := None, commissionAmount := None)
    ensures i < |db.referrals| && status == "completed" ==>
              var before := db.referrals[i];
              if ReadyForCompletion(db, before) then
                && r.flash == Done(StatusAndCommissionUpdated)
                && r.db.referrals[i].commissionAmount == Some(ReferralGroup(db, before).value.commissionAmount)
                && EarningsConsistent(r.db, before.affiliateId)
                && (forall a :: 0 <= a < |db.affiliates| && a != before.affiliateId ==> r.db.affiliates[a] == db.affiliates[a])
                && (forall a :: 0 <= a < |db.affiliates| ==>
                      r.db.affiliates[a].(totalEarnings := 0) == db.affiliates[a].(totalEarnings := 0))
              else
                && r.flash == Warned(CommissionFailedPrefix + ValidateForCompletion(db, before).reason)
                && r.db.referrals[i].commissionAmount == before.commissionAmount
                && r.db.affiliates == db.affiliates
    ensures i < |db.referrals| && status != "completed" ==>
              && r.flash == Done(StatusUpdated)
              && r.db.referrals[i].commissionAmount == db.referrals[i].commissionAmount
              && r.db.affiliates == db.affiliates
  {
    if i >= |db.referrals| then AdminResult(db, NotFound)
    else
      var before := db.referrals[i];
      var stamped := before.(treatmentStatus := Some(StampStatus(before.treatmentStatus, status, notes, now)),
                             status := ParseStatus(status));
      var db1 := db.(referrals := db.referrals[i := stamped]);
      assert TreatmentOf(db1, stamped) == TreatmentOf(db, before) && ReferralGroup(db1, stamped) == ReferralGroup(db, before);
      if status == "completed" then
        var att := CalculateAndUpdateCommission(db1, i);
        match att.outcome
        case Pass => AdminResult(att.db, Done(StatusAndCommissionUpdated))
        case Fail(reason) => AdminResult(db1, Warned(CommissionFailedPrefix + reason))
      else
        AdminResult(db1, Done(StatusUpdated))
  }

  // ---------------------------------------------------------------------
  // approve_affiliate
  // ---------------------------------------------------------------------

  /**
    Approve affiliate `aid` and mark its user's e-mail verified; both are
    committed before the notification is attempted, whose success `mailSent`
    only picks the message. An affiliate without a user raises before the
    commit.
   */
  function ApproveAffiliate(db: Db, aid: nat, mailSent: bool): (r: AdminResult)
    ensures aid >= |db.affiliates| ==> r == AdminResult(db, NotFound)
    ensures aid < |db.affiliates| && db.affiliates[aid].userId >= |db.users| ==> r == AdminResult(db, ServerError)
    ensures aid < |db.affiliates| && db.affiliates[aid].userId < |db.users| ==>
              var uid := db.affiliates[aid].userId;
              && r.flash == (if mailSent then Done(AffiliateApproved) else Warned(ApprovedWithoutMail))
              && r.db == db.(affiliates := db.affiliates[aid := db.affiliates[aid].(approved := true)],
                             users := db.users[uid := db.users[uid].(emailVerified := true)])
              && r.db.affiliates[aid].approved && r.db.users[uid].emailVerified
  {
    if aid >= |db.affiliates| then AdminResult(db, NotFound)
    else
      var a := db.affiliates[aid];
      if a.userId >= |db.users| then AdminResult(db, ServerError)
      else
        var db1 := db.(affiliates := db.affiliates[aid := a.(approved := true)],
                       users := db.users[a.userId := db.users[a.userId].(emailVerified := true)]);
        AdminResult(db1, if mailSent then Done(AffiliateApproved) else Warned(ApprovedWithoutMail))
  }

  /** Approving twice leaves the same snapshot as approving once. */
  lemma ApproveIsIdempotent(db: Db, aid: nat, mailSent: bool)
    requires ApproveAffiliate(db, aid, mailSent).flash.Done? || ApproveAffiliate(db, aid, mailSent).flash.Warned?
    ensures var once := ApproveAffiliate(db, aid, mailSent).db;
            ApproveAffiliate(once, aid, mailSent).db == once
  {
    var once := ApproveAffiliate(db, aid, mailSent).db;
    var uid := db.affiliates[aid].userId;
    assert once.affiliates[aid := once.affiliates[aid].(approved := true)] == once.affiliates;
    assert once.users[uid := once.users[uid].(emailVerified := true)] == once.users;
  }

  // ---------------------------------------------------------------------
  // affiliate_details
  // ---------------------------------------------------------------------

  /** One `(status, 1)` per referral: what the histogram loop adds. */
  function StatusPairs(rs: seq<Referral>): (ps: seq<(string, int)>)
    ensures |ps| == |rs|
    ensures forall i :: 0 <= i < |rs| ==> ps[i] == (StatusName(rs[i].status), 1)
  {
    if |rs| == 0 then [] else [(StatusName(rs[0].status), 1)] + StatusPairs(rs[1..])
  }

  /** One `((year, month), commission)` per completed referral: what the distribution loop adds. */
  function MonthPairs(rs: seq<Referral>): (ps: seq<((int, int), int)>)
    ensures |ps| == Count(rs, CompletedName)
  {
    if |rs| == 0 then []
    else
      var rest := MonthPairs(rs[1..]);
      if CompletedName(rs[0]) then
        var d := rs[0].createdAt.date;
        [((d.year, d.month), if rs[0].commissionAmount.Some? then rs[0].commissionAmount.value else 0)] + rest
      else rest
  }

  lemma {:induction false} StatusPairsTotals(rs: seq<Referral>, k: string)
    ensures Total(StatusPairs(rs)) == |rs|
    ensures TotalFor(StatusPairs(rs), k) == Count(rs, (r: Referral) => StatusName(r.status) == k)
  {
    if |rs| > 0 {
      StatusPairsTotals(rs[1..], k);
      assert StatusPairs(rs)[1..] == StatusPairs(rs[1..]);
    }
  }

  lemma {:induction false} MonthPairsTotal(rs: seq<Referral>)
    ensures Total(MonthPairs(rs)) == CommissionSum(Filter(rs, CompletedName))
  {
    if |rs| > 0 {
      MonthPairsTotal(rs[1..]);
      var head := if CompletedName(rs[0]) then [rs[0]] else [];
      assert Filter(rs, CompletedName) == head + Filter(rs[1..], CompletedName);
      CommissionSumAppend(head, Filter(rs[1..], CompletedName));
      if CompletedName(rs[0]) {
        assert MonthPairs(rs)[1..] == MonthPairs(rs[1..]);
      }
    }
  }

  /** The analytics an admin sees for one affiliate; the float rates and averages are left out. */
  datatype Details = Details(
    total: nat,
    completed: nat,
    statusCounts: Assoc<string>,
    commissionByMonth: Assoc<(int, int)>)

  datatype DetailsPage = Shown(details: Details) | DetailsNotFound | DetailsFailed

  /** The affiliate's referrals, in table order. */
  function ReferralsOf(db: Db, aid: nat): seq<Referral>
  {
    Filter(db.referrals, (r: Referral) => r.affiliateId == aid)
  }

  /** Every status that appears in the histogram counts at least one referral. */
  lemma {:induction false} StatusKeysCounted(rs: seq<Referral>, k: string)
    requires k in KeysOf(StatusPairs(rs))
    ensures Count(rs, (r: Referral) => StatusName(r.status) == k) > 0
  {
    assert StatusPairs(rs)[1..] == StatusPairs(rs[1..]);
    if StatusName(rs[0].status) != k {
      StatusKeysCounted(rs[1..], k);
    }
  }

  /** The status histogram: one entry per status present, counting the referrals in it. */
  function StatusCounts(rs: seq<Referral>): (counts: Assoc<string>)
    ensures DistinctKeys(counts)
    ensures Total(counts) == |rs|
    ensures forall k :: Get(counts, k) == Count(rs, (r: Referral) => StatusName(r.status) == k)
    ensures forall k :: k in KeysOf(counts) ==> Get(counts, k) > 0
  {
    var counts := FromPairs(StatusPairs(rs));
    StatusPairsTotals(rs, "");
    forall k ensures Get(counts, k) == Count(rs, (r: Referral) => StatusName(r.status) == k) {
      StatusPairsTotals(rs, k);
    }
    forall k | k in KeysOf(counts) ensures Get(counts, k) > 0 {
      StatusKeysCounted(rs, k);
    }
    counts
  }

  /** The analytics computed from the affiliate's referrals. */
  function DetailsOf(rs: seq<Referral>): (d: Details)
    ensures d.total == |rs| && d.completed == Count(rs, CompletedName)
    ensures d.completed <= d.total
    ensures DistinctKeys(d.statusCounts)
    ensures Total(d.statusCounts) == d.total
    ensures Get(d.statusCounts, "completed") == d.completed
    ensures forall k :: Get(d.statusCounts, k) == Count(rs, (r: Referral) => StatusName(r.status) == k)
    ensures forall k :: k in KeysOf(d.statusCounts) ==> Get(d.statusCounts, k) > 0
    ensures Total(d.commissionByMonth) == CommissionSum(Filter(rs, CompletedName))
  {
    var counts := StatusCounts(rs);
    assert Get(counts, "completed") == Count(rs, (r: Referral) => StatusName(r.status) == "completed");
    CountSamePredicate(rs, (r: Referral) => StatusName(r.status) == "completed", CompletedName);
    MonthPairsTotal(rs);
    Details(|rs|, Count(rs, CompletedName), counts, FromPairs(MonthPairs(rs)))
  }

  /**
    `affiliate_details`: 404 for an unknown affiliate; `float(None)` on a
    completed referral without a commission raises, which is a 500.
   */
  function AffiliateDetails(db: Db, aid: nat): (p: DetailsPage)
    ensures aid >= |db.affiliates| <==> p.DetailsNotFound?
    ensures p.DetailsFailed? <==>
              aid < |db.affiliates| && exists r :: r in ReferralsOf(db, aid) && CompletedName(r) && r.commissionAmount.None?
    ensures p.Shown? ==> p.details == DetailsOf(ReferralsOf(db, aid))
  {
    if aid >= |db.affiliates| then DetailsNotFound
    else
      var rs := ReferralsOf(db, aid);
      if exists r :: r in rs && CompletedName(r) && r.commissionAmount.None? then DetailsFailed
      else Shown(DetailsOf(rs))
  }

  /** The histogram does not depend on the order the referrals are listed in (the page lists newest first). */
  lemma StatusCountsOrderIndependent(rs: seq<Referral>, ts: seq<Referral>, k: string)
    requires multiset(rs) == multiset(ts)
    ensures Get(FromPairs(StatusPairs(rs)), k) == Get(FromPairs(StatusPairs(ts)), k)
  {
    StatusPairsTotals(rs, k);
    StatusPairsTotals(ts, k);
    CountOrderIndependent(rs, ts, (r: Referral) => StatusName(r.status) == k);
  }
}
