/**
  api.py: the in-memory sliding-window rate limiter, the referral status
  endpoint and the CRM "treatment completed" webhook.

  HTTP is reduced to a status code and an error message; the CORS and
  timing headers, API-key lookup and JSON serialisation are left out.
 */
module Api {
  import opened Basics
  import opened Text
  import opened Models
  import WebhookService

  // ---------------------------------------------------------------------
  // check_rate_limit
  // ---------------------------------------------------------------------

  /** Requests admitted per window. */
  const RateLimit := 100

  /** Window length in seconds. */
  const RateWindow := 3600

  /** How many timestamps at the front of `w` are older than `cutoff`: what the eviction loop pops. */
  function StaleCount(w: seq<int>, cutoff: int): (k: nat)
    ensures k <= |w|
    ensures forall j :: 0 <= j < k ==> w[j] < cutoff
    ensures k < |w| ==> w[k] >= cutoff
  {
    if |w| > 0 && w[0] < cutoff then 1 + StaleCount(w[1..], cutoff) else 0
  }

  ghost predicate Sorted(w: seq<int>)
  {
    forall i, j :: 0 <= i <= j < |w| ==> w[i] <= w[j]
  }

  /**
    In a sorted window, popping stale entries off the front removes every
    stale entry: the survivors are exactly the timestamps at or after the cutoff.
   */
  lemma {:induction false} FrontEvictionIsFilter(w: seq<int>, cutoff: int)
    requires Sorted(w)
    ensures w[StaleCount(w, cutoff)..] == Filter(w, (t: int) => t >= cutoff)
  {
    if |w| > 0 {
      assert Sorted(w[1..]);
      FrontEvictionIsFilter(w[1..], cutoff);
      if w[0] >= cutoff {
        AllKeptWhenFirstFresh(w, cutoff);
      }
    }
  }

  lemma {:induction false} AllKeptWhenFirstFresh(w: seq<int>, cutoff: int)
    requires Sorted(w) && |w| > 0 && w[0] >= cutoff
    ensures Filter(w, (t: int) => t >= cutoff) == w
  {
    if |w| > 1 {
      assert Sorted(w[1..]);
      AllKeptWhenFirstFresh(w[1..], cutoff);
    }
  }

  /** What survives eviction, with `now` appended or not, is sorted and lies in [cutoff, now] when the window was sorted and not in the future. */
  lemma KeptWindowInBounds(w: seq<int>, cutoff: int, now: int)
    requires cutoff <= now
    ensures var kept := w[StaleCount(w, cutoff)..];
            Sorted(w) && (forall j :: 0 <= j < |w| ==> w[j] <= now) ==>
              && Sorted(kept) && Sorted(kept + [now])
              && (forall j :: 0 <= j < |kept| ==> cutoff <= kept[j] <= now)
              && (forall j :: 0 <= j < |kept + [now]| ==> cutoff <= (kept + [now])[j] <= now)
  {
    var k := StaleCount(w, cutoff);
    var kept := w[k..];
    if Sorted(w) && (forall j :: 0 <= j < |w| ==> w[j] <= now) {
      forall j | 0 <= j < |kept|
        ensures cutoff <= kept[j] <= now
      {
        assert kept[j] == w[k + j];
        assert w[k] <= w[k + j];
      }
    }
  }

  /**
    `check_rate_limit(api_key)` against the per-key request log `counts`
    (a `defaultdict(list)`, so the key is present afterwards in any case).
   */
  method CheckRateLimit(counts: map<string, seq<int>>, apiKey: string, now: int)
    returns (allowed: bool, counts': map<string, seq<int>>)
    ensures counts'.Keys == counts.Keys + {apiKey}
    ensures forall key :: key in counts && key != apiKey ==> counts'[key] == counts[key]
    ensures var w := if apiKey in counts then counts[apiKey] else [];
            var kept := w[StaleCount(w, now - RateWindow)..];
            && (allowed <==> |kept| < RateLimit)
            && counts'[apiKey] == (if allowed then kept + [now] else kept)
    ensures var w := if apiKey in counts then counts[apiKey] else [];
            |w| <= RateLimit ==> |counts'[apiKey]| <= RateLimit
    ensures var w := if apiKey in counts then counts[apiKey] else [];
            Sorted(w) && (forall j :: 0 <= j < |w| ==> w[j] <= now) ==>
              && Sorted(counts'[apiKey])
              && forall j :: 0 <= j < |counts'[apiKey]| ==> now - RateWindow <= counts'[apiKey][j] <= now
  {
    var w := if apiKey in counts then counts[apiKey] else [];
    var cutoff := now - RateWindow;
    var k := 0;
    while k < |w| && w[k] < cutoff
      invariant k <= StaleCount(w, cutoff)
    {
      k := k + 1;
    }
    assert k == StaleCount(w, cutoff);
    var kept := w[k..];
    KeptWindowInBounds(w, cutoff, now);
    if |kept| >= RateLimit {
      allowed := false;
      counts' := counts[apiKey := kept];
    } else {
      allowed := true;
      counts' := counts[apiKey := kept + [now]];
    }
  }

  // ---------------------------------------------------------------------
  // update_referral_status
  // ---------------------------------------------------------------------

  /** An HTTP answer: the serialised referral, or a status code with the `error` text and optional `details`. */
  datatype ApiResponse = Ok(referral: Referral) | Error(code: int, error: string, details: Option<string>)

  const RoleDenied := "Access denied. User must have affiliate role"
  const NoAffiliateRecord := "No affiliate record found. Please contact support"
  const ReferralNotFound := "Referral not found"
  const NotOwner := "Access denied. Not authorized to update this referral"
  const StatusRequired := "Status field is required"
  const InvalidStatus := "Invalid status value"
  const CommissionFailed := "Failed to calculate commission"

  /** The access and input checks of the endpoint, in source order; `None` when all pass. */
  function StatusRequestError(db: Db, uid: nat, id: nat, statusField: Option<string>): (e: Option<ApiResponse>)
    requires uid < |db.users|
    ensures e.None? <==>
              && db.users[uid].role == "affiliate"
              && AffiliateOf(db, uid).Some?
              && id < |db.referrals|
              && db.referrals[id].affiliateId == AffiliateOf(db, uid).value
              && statusField.Some? && IsKnownStatusName(statusField.value)
    ensures e.Some? ==> e.value.Error? && e.value.code in {400, 403, 404}
    // each check answers only when every earlier one passed
    ensures db.users[uid].role != "affiliate" ==> e == Some(Error(403, RoleDenied, None))
    ensures db.users[uid].role == "affiliate" && AffiliateOf(db, uid).None? ==>
              e == Some(Error(403, NoAffiliateRecord, None))
    ensures db.users[uid].role == "affiliate" && AffiliateOf(db, uid).Some? && id >= |db.referrals| ==>
              e == Some(Error(404, ReferralNotFound, None))
    ensures db.users[uid].role == "affiliate" && AffiliateOf(db, uid).Some? && id < |db.referrals|
            && db.referrals[id].affiliateId != AffiliateOf(db, uid).value ==>
              e == Some(Error(403, NotOwner, None))
    ensures db.users[uid].role == "affiliate" && AffiliateOf(db, uid).Some? && id < |db.referrals|
            && db.referrals[id].affiliateId == AffiliateOf(db, uid).value && statusField.None? ==>
              e == Some(Error(400, StatusRequired, None))
    ensures db.users[uid].role == "affiliate" && AffiliateOf(db, uid).Some? && id < |db.referrals|
            && db.referrals[id].affiliateId == AffiliateOf(db, uid).value
            && statusField.Some? && !IsKnownStatusName(statusField.value) ==>
              e == Some(Error(400, InvalidStatus, None))
  {
    if db.users[uid].role != "affiliate" then Some(Error(403, RoleDenied, None))
    else if AffiliateOf(db, uid).None? then Some(Error(403, NoAffiliateRecord, None))
    else if id >= |db.referrals| then Some(Error(404, ReferralNotFound, None))
    else if db.referrals[id].affiliateId != AffiliateOf(db, uid).value then Some(Error(403, NotOwner, None))
    else if statusField.None? then Some(Error(400, StatusRequired, None))
    else if !IsKnownStatusName(statusField.value) then Some(Error(400, InvalidStatus, None))
    else None
  }

  /**
    PUT /referrals/<id>/status by the API user `uid`. Every rejection, and a
    commission failure (which rolls the status change back), leaves the
    snapshot unchanged.
   */
  function UpdateReferralStatus(db: Db, uid: nat, id: nat, statusField: Option<string>): (r: (Db, ApiResponse))
    requires uid < |db.users|
    ensures r.1.Error? ==> r.0 == db
    ensures StatusRequestError(db, uid, id, statusField).Some? ==> r.1 == StatusRequestError(db, uid, id, statusField).value
    ensures r.1.Ok? ==> StatusRequestError(db, uid, id, statusField).None?
    ensures r.1.Ok? ==> SameRows(db, r.0) && id < |db.referrals|
    ensures r.1.Ok? ==> r.0.referrals[id].status == ParseStatus(statusField.value) && r.1.referral == r.0.referrals[id]
    // a transition into `completed` pays the commission, or fails as a whole
    ensures StatusRequestError(db, uid, id, statusField).None?
            && statusField.value == "completed" && db.referrals[id].status != Completed ==>
              if ReadyForCompletion(db, db.referrals[id]) then
                && r.1.Ok?
                && r.0.referrals == db.referrals[id := db.referrals[id].(
                     status := Completed,
                     commissionAmount := Some(ReferralGroup(db, db.referrals[id]).value.commissionAmount))]
                && EarningsConsistent(r.0, db.referrals[id].affiliateId)
                && (forall j :: 0 <= j < |db.affiliates| && j != db.referrals[id].affiliateId ==>
                      r.0.affiliates[j] == db.affiliates[j])
                && (forall j :: 0 <= j < |db.affiliates| ==>
                      r.0.affiliates[j].(totalEarnings := 0) == db.affiliates[j].(totalEarnings := 0))
              else
                r.1.Error? && r.1.code == 500 && r.1.details == Some(ValidateForCompletion(db, db.referrals[id]).reason)
    // any other accepted change touches the status and nothing else
    ensures StatusRequestError(db, uid, id, statusField).None?
            && !(statusField.value == "completed" && db.referrals[id].status != Completed) ==>
              && r.1.Ok?
              && r.0 == db.(referrals := db.referrals[id := db.referrals[id].(status := ParseStatus(statusField.value))])
  {
    var err := StatusRequestError(db, uid, id, statusField);
    if err.Some? then (db, err.value)
    else
      var before := db.referrals[id].status;
      var next := ParseStatus(statusField.value);
      var db1 := db.(referrals := db.referrals[id := db.referrals[id].(status := next)]);
      if next == Completed && before != Completed then
        var a := CalculateAndUpdateCommission(db1, id);
        if a.outcome.Fail? then (db, Error(500, CommissionFailed, Some(a.outcome.reason)))
        else (a.db, Ok(a.db.referrals[id]))
      else
        (db1, Ok(db1.referrals[id]))
  }

  /** Re-sending `completed` for a completed referral changes nothing: no second commission. */
  lemma RecompletionChangesNothing(db: Db, uid: nat, id: nat)
    requires uid < |db.users| && id < |db.referrals| && db.referrals[id].status == Completed
    ensures UpdateReferralStatus(db, uid, id, Some("completed")).0 == db
  {
    assert db.referrals[id := db.referrals[id].(status := Completed)] == db.referrals;
  }

  // ---------------------------------------------------------------------
  // treatment_completed_webhook
  // ---------------------------------------------------------------------

  /** The JSON body of the CRM notification; only string fields are modelled. */
  type Payload = map<string, string>

  const CompletedEvent := "referral.completed"

  /** The three lookups of the handler succeeded. */
  datatype CrmLookup = Found(referral: nat, treatment: nat, groupId: nat) | Rejected(code: int, error: string)

  const MissingFields := "Missing required fields"
  const NoMatchingReferral := "No matching referral found"
  const NoMatchingMapping := "No matching treatment mapping found"
  const NoActiveTreatment := "No active treatment found in mapped group"
  const InternalError := "Internal server error"

  predicate HasRequiredFields(data: Payload)
  {
    "email" in data && "full_name" in data && "treatment_name" in data
  }

  /** Referral whose e-mail equals the lower-cased, stripped e-mail of the request. */
  predicate EmailMatches(r: Referral, data: Payload)
    requires "email" in data
  {
    r.email == Strip(LowerString(data["email"]))
  }

  /** Mapping whose external name matches the stripped treatment name, ignoring case. */
  predicate NameMatches(m: NameMapping, data: Payload)
    requires "treatment_name" in data
  {
    EqualsIgnoringCase(m.externalName, Strip(data["treatment_name"]))
  }

  predicate SomeReferralMatches(db: Db, data: Payload)
    requires "email" in data
  {
    exists j :: 0 <= j < |db.referrals| && EmailMatches(db.referrals[j], data)
  }

  predicate SomeMappingMatches(db: Db, data: Payload)
    requires "treatment_name" in data
  {
    exists k :: 0 <= k < |db.mappings| && NameMatches(db.mappings[k], data)
  }

  /** `mi` is the first mapping, in table order, whose name matches. */
  predicate IsFirstMatchingMapping(db: Db, data: Payload, mi: nat)
    requires "treatment_name" in data
  {
    && mi < |db.mappings| && NameMatches(db.mappings[mi], data)
    && forall k :: 0 <= k < mi ==> !NameMatches(db.mappings[k], data)
  }

  predicate ActiveIn(t: Treatment, gid: nat)
  {
    t.groupId == Some(gid) && t.active
  }

  predicate SomeActiveIn(db: Db, gid: nat)
  {
    exists t :: 0 <= t < |db.treatments| && ActiveIn(db.treatments[t], gid)
  }

  /** `Referral.query.filter_by(email=...).first()`: the first referral, in table order, whose e-mail matches. */
  function FindReferral(db: Db, data: Payload): (r: Option<nat>)
    requires "email" in data
    ensures r.None? <==> !SomeReferralMatches(db, data)
    ensures r.Some? ==> r.value < |db.referrals| && EmailMatches(db.referrals[r.value], data)
    ensures r.Some? ==> forall j :: 0 <= j < r.value ==> !EmailMatches(db.referrals[j], data)
  {
    var f := FirstIndex(db.referrals, (r: Referral) => EmailMatches(r, data));
    if f.Some? then
      assert EmailMatches(db.referrals[f.value], data);
      f
    else f
  }

  /** The first mapping whose external name matches. */
  function FindMapping(db: Db, data: Payload): (r: Option<nat>)
    requires "treatment_name" in data
    ensures r.None? <==> !SomeMappingMatches(db, data)
    ensures r.None? ==> forall mi: nat :: !IsFirstMatchingMapping(db, data, mi)
    ensures r.Some? ==> IsFirstMatchingMapping(db, data, r.value)
    ensures r.Some? ==> forall mi: nat :: IsFirstMatchingMapping(db, data, mi) ==> mi == r.value
  {
    var f := FirstIndex(db.mappings, (m: NameMapping) => NameMatches(m, data));
    if f.Some? then
      assert NameMatches(db.mappings[f.value], data);
      FirstMappingIsUnique(db, data, f.value);
      f
    else f
  }

  /** The first active treatment of group `gid`. */
  function FindActiveTreatment(db: Db, gid: nat): (r: Option<nat>)
    ensures r.None? <==> !SomeActiveIn(db, gid)
    ensures r.Some? ==> r.value < |db.treatments| && ActiveIn(db.treatments[r.value], gid)
    ensures r.Some? ==> forall t :: 0 <= t < r.value ==> !ActiveIn(db.treatments[t], gid)
  {
    var f := FirstIndex(db.treatments, (t: Treatment) => ActiveIn(t, gid));
    if f.Some? then
      assert ActiveIn(db.treatments[f.value], gid);
      f
    else f
  }

  /**
    The validation and lookups at api.py:363-407, in order: each lookup takes
    the first row in table order, and each rejection answers only when the
    earlier steps succeeded.
   */
  function LookupCompletion(db: Db, data: Payload): (l: CrmLookup)
    ensures l.Rejected? ==> l.code in {400, 404}
    ensures l == Rejected(400, MissingFields) <==> !HasRequiredFields(data)
    ensures l == Rejected(404, NoMatchingReferral) <==>
              HasRequiredFields(data) && !SomeReferralMatches(db, data)
    ensures l == Rejected(404, NoMatchingMapping) <==>
              HasRequiredFields(data) && SomeReferralMatches(db, data) && !SomeMappingMatches(db, data)
    ensures l == Rejected(400, NoActiveTreatment) <==>
              && HasRequiredFields(data) && SomeReferralMatches(db, data)
              && exists mi: nat :: IsFirstMatchingMapping(db, data, mi) && !SomeActiveIn(db, db.mappings[mi].groupId)
    ensures l.Found? <==>
              && HasRequiredFields(data) && SomeReferralMatches(db, data)
              && exists mi: nat :: IsFirstMatchingMapping(db, data, mi) && SomeActiveIn(db, db.mappings[mi].groupId)
    ensures l.Found? ==>
              && HasRequiredFields(data)
              && l.referral < |db.referrals| && EmailMatches(db.referrals[l.referral], data)
              && (forall j :: 0 <= j < l.referral ==> !EmailMatches(db.referrals[j], data))
              && (exists mi: nat :: IsFirstMatchingMapping(db, data, mi) && db.mappings[mi].groupId == l.groupId)
              && l.treatment < |db.treatments| && ActiveIn(db.treatments[l.treatment], l.groupId)
              && (forall t :: 0 <= t < l.treatment ==> !ActiveIn(db.treatments[t], l.groupId))
  {
    if !HasRequiredFields(data) then Rejected(400, MissingFields)
    else
      match FindReferral(db, data)
      case None => Rejected(404, NoMatchingReferral)
      case Some(ri) =>
        match FindMapping(db, data)
        case None => Rejected(404, NoMatchingMapping)
        case Some(mi) =>
          var gid := db.mappings[mi].groupId;
          match FindActiveTreatment(db, gid)
          case None => Rejected(400, NoActiveTreatment)
          case Some(ti) => Found(ri, ti, gid)
  }

  lemma FirstMappingIsUnique(db: Db, data: Payload, mi: nat)
    requires "treatment_name" in data && IsFirstMatchingMapping(db, data, mi)
    ensures forall mj: nat :: IsFirstMatchingMapping(db, data, mj) ==> mj == mi
  {
    var p := (m: NameMapping) => NameMatches(m, data);
    forall mj | IsFirstMatchingMapping(db, data, mj)
      ensures mj == mi
    {
      FirstIsUnique(db.mappings, p, mi, mj);
    }
  }
  /** The handler's answer: the referral, its commission and the webhooks notified; or an error. */
  datatype CrmResponse =
    | Updated(referralId: nat, commission: Cents, notified: seq<nat>)
    | CrmError(code: int, error: string)

  /**
    The handler body as written: `Treatment_Status` and
    `trigger_webhook_event` are used but never imported, so once the lookups
    succeed one of the two raises NameError inside the `try`, the session is
    rolled back and the answer is a 500.
   */
  function TreatmentCompletedWebhookAsWritten(db: Db, data: Payload): (r: (Db, CrmResponse))
    ensures r.0 == db
    ensures r.1.CrmError?
    ensures LookupCompletion(db, data).Found? <==> r.1 == CrmError(500, InternalError)
  {
    match LookupCompletion(db, data)
    case Rejected(code, error) => (db, CrmError(code, error))
    case Found(_, _, _) => (db, CrmError(500, InternalError))
  }

  /** The treatment-status row after the CRM reports completion: created if missing, then closed with outcome "success". */
  function CloseTreatmentStatus(ts: Option<TreatmentStatus>, treatmentName: string, now: DateTime): (t: TreatmentStatus)
    ensures t.endDate == Some(now) && t.outcome == Some("success")
    ensures ts.Some? ==> t.startDate == ts.value.startDate && t.notes == ts.value.notes
    ensures ts.None? ==> t.startDate.None? && t.notes == "Treatment completed: " + treatmentName
  {
    match ts
    case Some(s) => s.(endDate := Some(now), outcome := Some("success"))
    case None => TreatmentStatus(None, Some(now), "Treatment completed: " + treatmentName, Some("success"))
  }

  /** The referral row after a CRM completion. */
  function CompletedByCrm(r: Referral, treatment: nat, commission: Cents, treatmentName: string, now: DateTime): Referral
  {
    r.(treatmentId := treatment, status := Completed, commissionAmount := Some(commission),
       treatmentStatus := Some(CloseTreatmentStatus(r.treatmentStatus, treatmentName, now)))
  }

  /**
    The body of the `try` once the lookups found referral `ri`, active
    treatment `ti` and group `gid`: the referral is completed with the
    group's amount, that amount is ADDED to the affiliate's stored balance
    (api.py:418), and the owner's webhooks for `referral.completed` are
    picked. A dangling group or affiliate raises, which rolls back.
   */
  function CompleteFromCrm(db: Db, ri: nat, ti: nat, gid: nat, treatmentName: string, now: DateTime): (r: (Db, CrmResponse))
    requires ri < |db.referrals|
    ensures r.1.CrmError? ==> r.0 == db && r.1 == CrmError(500, InternalError)
    ensures r.1.Updated? <==> gid < |db.groups| && db.referrals[ri].affiliateId < |db.affiliates|
    ensures r.1.Updated? ==>
              var before := db.referrals[ri];
              var a := db.affiliates[before.affiliateId];
              var c := db.groups[gid].commissionAmount;
              && r.1.referralId == ri && r.1.commission == c
              && r.0.referrals == db.referrals[ri := CompletedByCrm(before, ti, c, treatmentName, now)]
              && r.0.affiliates == db.affiliates[before.affiliateId := a.(totalEarnings := a.totalEarnings + c)]
              && r.1.notified == WebhookService.TriggerWebhookEvent(db.webhooks, CompletedEvent, Some(a.userId))
              && SameRows(db, r.0)
  {
    var before := db.referrals[ri];
    if gid >= |db.groups| || before.affiliateId >= |db.affiliates| then (db, CrmError(500, InternalError))
    else
      var c := db.groups[gid].commissionAmount;
      var a := db.affiliates[before.affiliateId];
      var db1 := db.(referrals := db.referrals[ri := CompletedByCrm(before, ti, c, treatmentName, now)],
                     affiliates := db.affiliates[before.affiliateId := a.(totalEarnings := a.totalEarnings + c)]);
      (db1, Updated(ri, c, WebhookService.TriggerWebhookEvent(db.webhooks, CompletedEvent, Some(a.userId))))
  }

  /**
    The handler as evidently intended: a rejected request changes nothing, a
    found one is completed by `CompleteFromCrm`. Besides the two missing
    names this needs the new status row linked to the referral
    (`referral.treatment_status = treatment_status`), since api.py:428 reads
    it through the relationship (`TreatmentCompletedWebhookNamesResolved`).
   */
  function TreatmentCompletedWebhook(db: Db, data: Payload, now: DateTime): (r: (Db, CrmResponse))
    ensures r.1.CrmError? ==> r.0 == db
    ensures r.1.Updated? ==> LookupCompletion(db, data).Found? && r.1.referralId < |db.referrals|
    ensures LookupCompletion(db, data).Rejected? ==>
              r.1 == CrmError(LookupCompletion(db, data).code, LookupCompletion(db, data).error)
    ensures LookupCompletion(db, data).Found? ==>
              var l := LookupCompletion(db, data);
              r == CompleteFromCrm(db, l.referral, l.treatment, l.groupId, data["treatment_name"], now)
  {
    match LookupCompletion(db, data)
    case Rejected(code, error) => (db, CrmError(code, error))
    case Found(ri, ti, gid) => CompleteFromCrm(db, ri, ti, gid, data["treatment_name"], now)
  }

  /**
    The handler with only the two missing names imported. A referral without
    a status row still fails: api.py:421 has loaded the relationship as
    `None`, the row added at api.py:422-426 is tied to it only through
    `referral_id`, so api.py:428 raises AttributeError and the request
    rolls back with a 500.
   */
  function TreatmentCompletedWebhookNamesResolved(db: Db, data: Payload, now: DateTime): (r: (Db, CrmResponse))
    ensures r.1.CrmError? ==> r.0 == db
    ensures LookupCompletion(db, data).Rejected? ==> r == TreatmentCompletedWebhook(db, data, now)
    ensures LookupCompletion(db, data).Found? ==>
              var l := LookupCompletion(db, data);
              if db.referrals[l.referral].treatmentStatus.None? then r == (db, CrmError(500, InternalError))
              else r == TreatmentCompletedWebhook(db, data, now)
  {
    match LookupCompletion(db, data)
    case Rejected(code, error) => (db, CrmError(code, error))
    case Found(ri, ti, gid) =>
      if db.referrals[ri].treatmentStatus.None? then (db, CrmError(500, InternalError))
      else CompleteFromCrm(db, ri, ti, gid, data["treatment_name"], now)
  }

  /**
    For a referral with no status row yet, where the intended handler
    completes it and creates the row, the handler with only the names
    imported answers 500 and changes nothing.
   */
  lemma NamesAloneMissNewStatusRows(db: Db, data: Payload, now: DateTime)
    requires LookupCompletion(db, data).Found?
    requires var l := LookupCompletion(db, data);
             && db.referrals[l.referral].treatmentStatus.None?
             && l.groupId < |db.groups| && db.referrals[l.referral].affiliateId < |db.affiliates|
    ensures TreatmentCompletedWebhook(db, data, now).1.Updated?
    ensures TreatmentCompletedWebhook(db, data, now).0.referrals[LookupCompletion(db, data).referral].treatmentStatus.Some?
    ensures TreatmentCompletedWebhookNamesResolved(db, data, now) == (db, CrmError(500, InternalError))
  {
  }

  /**
    The same handler with the balance recomputed by `update_earnings`
    instead of incremented: it keeps the stored balance equal to the sum
    over the affiliate's completed referrals.
   */
  function TreatmentCompletedWebhookRecomputed(db: Db, data: Payload, now: DateTime): (r: (Db, CrmResponse))
    ensures r.1.CrmError? ==> r.0 == db
    ensures r.1.Updated? <==> TreatmentCompletedWebhook(db, data, now).1.Updated?
    ensures r.1.Updated? ==> r.1 == TreatmentCompletedWebhook(db, data, now).1 && r.1.referralId < |db.referrals|
    ensures r.1.Updated? ==>
              && r.0.referrals == TreatmentCompletedWebhook(db, data, now).0.referrals
              && EarningsConsistent(r.0, db.referrals[r.1.referralId].affiliateId)
              && SameRows(db, r.0)
  {
    match TreatmentCompletedWebhook(db, data, now)
    case (_, CrmError(code, error)) => (db, CrmError(code, error))
    case (db1, Updated(ri, c, notified)) =>
      (UpdateEarnings(db1, db.referrals[ri].affiliateId), Updated(ri, c, notified))
  }

  /**
    The increment of api.py:418 and the recomputation of models.py:149
    agree, for a balance that was consistent and a non-negative group amount,
    exactly when the referral was not already earning a commission.
   */
  lemma IncrementAgreesWithRecomputeIff(db: Db, data: Payload, now: DateTime)
    requires TreatmentCompletedWebhook(db, data, now).1.Updated?
    requires var ri := TreatmentCompletedWebhook(db, data, now).1.referralId;
             EarningsConsistent(db, db.referrals[ri].affiliateId)
    requires TreatmentCompletedWebhook(db, data, now).1.commission >= 0
    ensures var r := TreatmentCompletedWebhook(db, data, now);
            var before := db.referrals[r.1.referralId];
            EarningsConsistent(r.0, before.affiliateId) <==> Earned(before) == 0
  {
    var r := TreatmentCompletedWebhook(db, data, now);
    var l := LookupCompletion(db, data);
    var before := db.referrals[l.referral];
    var c := db.groups[l.groupId].commissionAmount;
    EarningsTotalUpdate(db.referrals, l.referral, CompletedByCrm(before, l.treatment, c, data["treatment_name"], now), before.affiliateId);
  }

  /**
    A CRM notification replayed for a referral that is already completed and
    paid doubles its commission in the stored balance: 100 becomes 200 while
    the referrals still sum to 100.
   */
  lemma CrmReplayDoubleCounts()
    ensures var db := ReplayExample();
            var r := TreatmentCompletedWebhook(db, ReplayPayload(), DateTime(Date(2024, 1, 1), 0));
            && r.1.Updated?
            && r.0.affiliates[0].totalEarnings == 20000
            && EarningsTotal(r.0.referrals, 0) == 10000
            && EarningsConsistent(db, 0) && !EarningsConsistent(r.0, 0)
  {
    var db := ReplayExample();
    var now := DateTime(Date(2024, 1, 1), 0);
    ReplayIsCompletion(now);
    var r := CompleteFromCrm(db, 0, 0, 0, "i", now);
    var done := CompletedByCrm(db.referrals[0], 0, 10000, "i", now);
    assert r.0.referrals == [done];
    assert EarningsTotal([done], 0) == 10000 + EarningsTotal([], 0);
    assert EarningsTotal(db.referrals, 0) == 10000 + EarningsTotal([], 0);
  }

  lemma ReplayIsCompletion(now: DateTime)
    ensures TreatmentCompletedWebhook(ReplayExample(), ReplayPayload(), now) == CompleteFromCrm(ReplayExample(), 0, 0, 0, "i", now)
  {
    ReplayLookupFinds();
    assert ReplayPayload()["treatment_name"] == "i";
  }

  lemma ReplayLookupFinds()
    ensures LookupCompletion(ReplayExample(), ReplayPayload()) == Found(0, 0, 0)
  {
    var db := ReplayExample();
    var data := ReplayPayload();
    ReplayPayloadMatches();
    FirstIndexHead(db.referrals, (r: Referral) => EmailMatches(r, data));
    FirstIndexHead(db.mappings, (m: NameMapping) => NameMatches(m, data));
    FirstIndexHead(db.treatments, (t: Treatment) => ActiveIn(t, 0));
  }

  /** The example's only referral and only mapping match the payload. */
  lemma ReplayPayloadMatches()
    ensures HasRequiredFields(ReplayPayload())
    ensures EmailMatches(ReplayExample().referrals[0], ReplayPayload())
    ensures NameMatches(ReplayExample().mappings[0], ReplayPayload())
  {
    var data := ReplayPayload();
    assert data["email"] == "a" && data["treatment_name"] == "i";
    SingleLetterNormalised('a');
    SingleLetterNormalised('i');
  }

  lemma SingleLetterNormalised(c: char)
    requires IsLower(c)
    ensures Strip(LowerString([c])) == [c] && LowerString([c]) == [c]
  {
    var l := LowerString([c]);
    assert |l| == 1 && l[0] == Lower(c) == c;
    assert l == [c];
    assert !IsSpace(c);
    assert StripLeft([c]) == [c];
    assert StripRight([c]) == [c];
  }

  /** One affiliate with one completed referral paid 100.00 out of a group worth 100.00. */
  function ReplayExample(): Db
  {
    var now := DateTime(Date(2024, 1, 1), 0);
    Db(
      users := [User("u", "u@x", "h", "affiliate", true, None, None)],
      affiliates := [Affiliate(0, "s", true, 10000)],
      groups := [TreatmentGroup("g", "", 10000)],
      treatments := [Treatment("t", true, Some(0))],
      referrals := [Referral(0, 0, "n", "s", "a", "p", Completed, Some(10000), now,
                             Some(TreatmentStatus(None, Some(now), "", Some("success"))))],
      mappings := [NameMapping("i", 0)],
      webhooks := [])
  }

  function ReplayPayload(): Payload
  {
    map["email" := "a", "full_name" := "f", "treatment_name" := "i"]
  }
}
