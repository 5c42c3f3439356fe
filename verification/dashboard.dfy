/**
  affiliate.py: the affiliate's dashboard (the table rows with their group
  and commission labels, the completed/pending split, the per-day earnings
  chart, this month's and last month's counts) and the public referral
  form behind an affiliate's slug.

  The float rates (success rate, growth, average commission) and the page
  rendering are left out. Referrals are visited in table order; the page
  lists them newest first, which changes only the order of rows and of
  the chart's keys.
 */
module AffiliateViews {
  import opened Basics
  import opened Tally
  import opened Text
  import opened Models

  // ---------------------------------------------------------------------
  // Labels
  // ---------------------------------------------------------------------

  const NoGroup := "No Group"

  /** `r.treatment.group.name if r.treatment and r.treatment.group else 'No Group'`. */
  function GroupLabel(db: Db, r: Referral): (shown: string)
    ensures ReferralGroup(db, r).None? ==> shown == NoGroup
    ensures ReferralGroup(db, r).Some? ==> shown == ReferralGroup(db, r).value.name
  {
    match TreatmentOf(db, r)
    case None => NoGroup
    case Some(t) =>
      match GroupOf(db, t)
      case None => NoGroup
      case Some(g) => g.name
  }

  /** The two-decimal text of a non-negative amount of cents, as `str` prints a `Numeric(10, 2)` value. */
  function UnsignedCents(n: nat): (s: string)
    ensures |s| >= 4 && s[|s| - 3] == '.'
  {
    NatToString(n / 100) + "." + [DigitChar(n % 100 / 10), DigitChar(n % 100 % 10)]
  }

  function FormatCents(c: Cents): string
  {
    if c < 0 then "-" + UnsignedCents(-c) else UnsignedCents(c)
  }

  /** Reads an amount printed by `FormatCents` back into cents. */
  function ParseCents(s: string): Cents
  {
    if |s| > 0 && s[0] == '-' then -ParseUnsigned(s[1..]) else ParseUnsigned(s)
  }

  function ParseUnsigned(s: string): int
  {
    if |s| < 3 then 0
    else ParseNat(s[..|s| - 3]) * 100 + DigitValue(s[|s| - 2]) * 10 + DigitValue(s[|s| - 1])
  }

  /** The digits of `n` split at the hundreds put back together. */
  lemma HundredsSplit(n: nat)
    ensures (n / 100) * 100 + (n % 100 / 10) * 10 + n % 100 % 10 == n
  {
    var r := n % 100;
    assert n == (n / 100) * 100 + r;
    assert r == (r / 10) * 10 + r % 10;
  }

  lemma UnsignedCentsRoundTrip(n: nat)
    ensures ParseUnsigned(UnsignedCents(n)) == n
  {
    var h := NatToString(n / 100);
    var u := UnsignedCents(n);
    assert u == h + ['.', DigitChar(n % 100 / 10), DigitChar(n % 100 % 10)];
    assert u[..|u| - 3] == h;
    assert DigitValue(u[|u| - 2]) == n % 100 / 10;
    assert DigitValue(u[|u| - 1]) == n % 100 % 10;
    ParseNatToString(n / 100);
    HundredsSplit(n);
  }

  /** Printing an amount loses nothing: reading it back gives the same cents. */
  lemma FormatCentsRoundTrip(c: Cents)
    ensures ParseCents(FormatCents(c)) == c
  {
    if c < 0 {
      UnsignedCentsRoundTrip(-c);
      assert FormatCents(c)[1..] == UnsignedCents(-c);
    } else {
      UnsignedCentsRoundTrip(c);
      assert IsDigit(NatToString(c / 100)[0]);
      assert FormatCents(c)[0] == NatToString(c / 100)[0];
    }
  }

  /** `str(r.commission_amount) if r.commission_amount else '0.00'`. */
  function CommissionLabel(r: Referral): (shown: string)
    ensures shown == "0.00" <==> r.commissionAmount.None? || r.commissionAmount.value == 0
    ensures r.commissionAmount.Some? ==> ParseCents(shown) == r.commissionAmount.value
  {
    match r.commissionAmount
    case None => "0.00"
    case Some(c) =>
      FormatCentsRoundTrip(c);
      assert ParseCents("0.00") == 0;
      if c != 0 then FormatCents(c) else "0.00"
  }

  // ---------------------------------------------------------------------
  // Earnings chart
  // ---------------------------------------------------------------------

  /** `float(c) if c else 0.0` for a commission. */
  function CommissionOrZero(r: Referral): Cents
  {
    if r.commissionAmount.Some? then r.commissionAmount.value else 0
  }

  /** One `(created date, commission)` per completed referral: what the chart loop adds. */
  function EarningPairs(rs: seq<Referral>): (ps: seq<(Date, int)>)
    ensures |ps| == Count(rs, CompletedName)
  {
    if |rs| == 0 then []
    else
      var rest := EarningPairs(rs[1..]);
      if CompletedName(rs[0]) then [(rs[0].createdAt.date, CommissionOrZero(rs[0]))] + rest else rest
  }

  predicate CompletedOn(r: Referral, d: Date)
  {
    CompletedName(r) && r.createdAt.date == d
  }

  /** The chart's values sum to the commissions of the completed referrals, and each day's to that day's. */
  lemma {:induction false} EarningPairsTotals(rs: seq<Referral>, d: Date)
    ensures Total(EarningPairs(rs)) == CommissionSum(Filter(rs, CompletedName))
    ensures TotalFor(EarningPairs(rs), d) == CommissionSum(Filter(rs, (r: Referral) => CompletedOn(r, d)))
  {
    if |rs| > 0 {
      EarningPairsTotals(rs[1..], d);
      var p := (r: Referral) => CompletedOn(r, d);
      var h := if CompletedName(rs[0]) then [rs[0]] else [];
      var hd := if p(rs[0]) then [rs[0]] else [];
      assert Filter(rs, CompletedName) == h + Filter(rs[1..], CompletedName);
      assert Filter(rs, p) == hd + Filter(rs[1..], p);
      CommissionSumAppend(h, Filter(rs[1..], CompletedName));
      CommissionSumAppend(hd, Filter(rs[1..], p));
      if CompletedName(rs[0]) {
        assert EarningPairs(rs)[1..] == EarningPairs(rs[1..]);
      }
    }
  }

  /** A completed referral whose commission is never negative; the admin forms refuse negative amounts. */
  ghost predicate NoNegativeCompleted(rs: seq<Referral>)
  {
    forall j :: 0 <= j < |rs| ==> WellFormedStatus(rs[j].status) && (CompletedName(rs[j]) ==> CommissionOrZero(rs[j]) >= 0)
  }

  /**
    When no completed commission is negative, the chart's total is the
    affiliate's balance as `update_earnings` computes it.
   */
  lemma {:induction false} ChartMatchesBalance(rs: seq<Referral>, aid: nat)
    requires NoNegativeCompleted(rs)
    ensures CommissionSum(Filter(Filter(rs, (r: Referral) => r.affiliateId == aid), CompletedName)) == EarningsTotal(rs, aid)
  {
    var mine := (r: Referral) => r.affiliateId == aid;
    if |rs| > 0 {
      assert NoNegativeCompleted(rs[1..]);
      ChartMatchesBalance(rs[1..], aid);
      var h := if mine(rs[0]) then [rs[0]] else [];
      assert Filter(rs, mine) == h + Filter(rs[1..], mine);
      FilterAppend(h, Filter(rs[1..], mine), CompletedName);
      CommissionSumAppend(Filter(h, CompletedName), Filter(Filter(rs[1..], mine), CompletedName));
      assert WellFormedStatus(rs[0].status);
      if mine(rs[0]) && CompletedName(rs[0]) {
        assert Filter(h, CompletedName) == [rs[0]];
        assert CommissionSum([rs[0]]) == CommissionOrZero(rs[0]) + CommissionSum([]);
      }
    }
  }

  // ---------------------------------------------------------------------
  // Month counts
  // ---------------------------------------------------------------------

  /** Months are numbered 1..12, as in `datetime`. */
  ghost predicate ValidMonths(rs: seq<Referral>)
  {
    forall j :: 0 <= j < |rs| ==> 1 <= rs[j].createdAt.date.month <= 12
  }

  /**
    Referrals created in month `m` of any year: only the month number is
    compared, as affiliate.py:54-55 does, so the same month of an earlier
    year counts as well.
   */
  function MonthCount(rs: seq<Referral>, m: int): (n: nat)
    ensures n <= |rs|
  {
    Count(rs, (r: Referral) => r.createdAt.date.month == m)
  }

  /** Last month's count as affiliate.py:55 writes it: the month number minus one. */
  function LastMonthCountAsWritten(rs: seq<Referral>, current: int): (n: nat)
    ensures n <= |rs|
    ensures 2 <= current <= 12 ==> n == MonthCount(rs, PreviousMonth(current))
  {
    MonthCount(rs, current - 1)
  }

  /** In January the source looks for month 0, which no date has. */
  lemma {:induction false} JanuaryLastMonthAlwaysZero(rs: seq<Referral>)
    requires ValidMonths(rs)
    ensures LastMonthCountAsWritten(rs, 1) == 0
  {
    if |rs| > 0 {
      assert ValidMonths(rs[1..]);
      JanuaryLastMonthAlwaysZero(rs[1..]);
    }
  }

  /** The month before `m`, wrapping from January to December. */
  function PreviousMonth(m: int): (p: int)
    requires 1 <= m <= 12
    ensures 1 <= p <= 12
    ensures p % 12 == (m + 11) % 12
  {
    if m == 1 then 12 else m - 1
  }

  /** Last month's count with the month wrapping from January to December. */
  function LastMonthCount(rs: seq<Referral>, current: int): (n: nat)
    requires 1 <= current <= 12
    ensures n <= |rs|
    ensures current == 1 ==> n == MonthCount(rs, 12)
    ensures 2 <= current ==> n == LastMonthCountAsWritten(rs, current)
  {
    MonthCount(rs, PreviousMonth(current))
  }

  /** A referral from December: the corrected count sees it in January, the source's does not. */
  lemma DecemberReferralCountsInJanuary(r: Referral)
    requires r.createdAt.date.month == 12
    ensures LastMonthCount([r], 1) == 1
    ensures LastMonthCountAsWritten([r], 1) == 0
  {
  }

  /** Off January the two counts agree. */
  lemma LastMonthCountsAgreeOffJanuary(rs: seq<Referral>, current: int)
    requires 2 <= current <= 12
    ensures LastMonthCount(rs, current) == LastMonthCountAsWritten(rs, current)
  {
  }

  // ---------------------------------------------------------------------
  // dashboard
  // ---------------------------------------------------------------------

  /** One row of the referral table. */
  datatype Row = Row(
    createdOn: Date,
    name: string,
    surname: string,
    group: string,
    email: string,
    phone: string,
    status: string,
    commission: string)

  function RowOf(db: Db, r: Referral): Row
  {
    Row(r.createdAt.date, r.name, r.surname, GroupLabel(db, r), r.email, r.phone, StatusName(r.status), CommissionLabel(r))
  }

  datatype DashboardView = DashboardView(
    rows: seq<Row>,
    completed: seq<Referral>,
    pending: seq<Referral>,
    earnings: Assoc<Date>,
    thisMonth: nat,
    lastMonth: nat)

  /** The user's affiliate row, created with `freshSlug` when the user has none yet. */
  function EnsureAffiliate(db: Db, uid: nat, freshSlug: string): (r: (Db, nat))
    ensures AffiliateOf(db, uid).Some? ==> r == (db, AffiliateOf(db, uid).value)
    ensures AffiliateOf(db, uid).None? ==>
              r == (db.(affiliates := db.affiliates + [Affiliate(uid, freshSlug, false, 0)]), |db.affiliates|)
    ensures r.1 < |r.0.affiliates| && r.0.affiliates[r.1].userId == uid
  {
    match AffiliateOf(db, uid)
    case Some(a) => (db, a)
    case None => (db.(affiliates := db.affiliates + [Affiliate(uid, freshSlug, false, 0)]), |db.affiliates|)
  }

  /** The table: one row per referral, in the same order. */
  function Rows(db: Db, rs: seq<Referral>): (rows: seq<Row>)
    ensures |rows| == |rs|
    ensures forall j :: 0 <= j < |rs| ==> rows[j] == RowOf(db, rs[j])
  {
    seq(|rs|, j requires 0 <= j < |rs| => RowOf(db, rs[j]))
  }

  predicate Pending(r: Referral)
  {
    !CompletedName(r)
  }

  /** The completed and the pending lists: every referral lands in exactly one of them. */
  lemma SplitPartitions(rs: seq<Referral>)
    ensures |Filter(rs, CompletedName)| + |Filter(rs, Pending)| == |rs|
    ensures multiset(Filter(rs, CompletedName)) + multiset(Filter(rs, Pending)) == multiset(rs)
  {
    FilterPartition(rs, CompletedName, Pending);
  }

  /** The per-day chart: its keys are distinct, and it adds up to the completed commissions, per day and overall. */
  function Chart(rs: seq<Referral>): (e: Assoc<Date>)
    ensures DistinctKeys(e)
    ensures Total(e) == CommissionSum(Filter(rs, CompletedName))
    ensures forall d :: Get(e, d) == CommissionSum(Filter(rs, (x: Referral) => CompletedOn(x, d)))
  {
    var pairs := EarningPairs(rs);
    forall d ensures TotalFor(pairs, d) == CommissionSum(Filter(rs, (x: Referral) => CompletedOn(x, d))) {
      EarningPairsTotals(rs, d);
    }
    EarningPairsTotals(rs, Date(0, 0, 0));
    FromPairs(pairs)
  }

  /** The referrals of affiliate `aid`. */
  function Mine(db: Db, aid: nat): seq<Referral>
  {
    Filter(db.referrals, (x: Referral) => x.affiliateId == aid)
  }

  /** GET /affiliate/dashboard for user `uid` in month `today.month`. */
  function Dashboard(db: Db, uid: nat, today: Date, freshSlug: string): (r: (Db, DashboardView))
    requires 1 <= today.month <= 12
    ensures r.0 == EnsureAffiliate(db, uid, freshSlug).0
    ensures var rs := Mine(db, EnsureAffiliate(db, uid, freshSlug).1);
            var v := r.1;
            && |v.rows| == |rs|
            && (forall j :: 0 <= j < |rs| ==> v.rows[j] == RowOf(db, rs[j]))
            // the two lists split the referrals
            && |v.completed| + |v.pending| == |rs|
            && multiset(v.completed) + multiset(v.pending) == multiset(rs)
            && (forall j :: 0 <= j < |v.completed| ==> CompletedName(v.completed[j]))
            && (forall j :: 0 <= j < |v.pending| ==> !CompletedName(v.pending[j]))
            // the chart adds up to the completed commissions, per day and overall
            && DistinctKeys(v.earnings)
            && Total(v.earnings) == CommissionSum(v.completed)
            && (forall d :: Get(v.earnings, d) == CommissionSum(Filter(rs, (x: Referral) => CompletedOn(x, d))))
            && v.thisMonth == MonthCount(rs, today.month)
            && v.lastMonth == MonthCount(rs, PreviousMonth(today.month))
  {
    var ensured := EnsureAffiliate(db, uid, freshSlug);
    var rs := Mine(db, ensured.1);
    SplitPartitions(rs);
    (ensured.0, DashboardView(
                  Rows(db, rs),
                  Filter(rs, CompletedName),
                  Filter(rs, Pending),
                  Chart(rs),
                  MonthCount(rs, today.month),
                  LastMonthCount(rs, today.month)))
  }

  // ---------------------------------------------------------------------
  // create_referral
  // ---------------------------------------------------------------------

  datatype CreateOutcome = Created | SlugNotFound | TreatmentNotFound | CreateFailed

  function FindSlug(db: Db, slug: string): Option<nat>
  {
    FirstIndex(db.affiliates, (a: Affiliate) => a.slug == slug)
  }

  /**
    POST /affiliate/<slug>/referral. Unknown slug or treatment id is a 404;
    a missing contact field violates NOT NULL at commit (a 500, nothing
    stored). The new referral starts as "new" with commission 0.
   */
  function CreateReferral(db: Db, slug: string, treatmentId: Option<nat>,
                          name: Option<string>, surname: Option<string>, email: Option<string>, phone: Option<string>,
                          now: DateTime): (r: (Db, CreateOutcome))
    ensures FindSlug(db, slug).None? ==> r == (db, SlugNotFound)
    ensures FindSlug(db, slug).Some? && (treatmentId.None? || treatmentId.value >= |db.treatments|) ==> r == (db, TreatmentNotFound)
    ensures !r.1.Created? ==> r.0 == db
    ensures r.1.Created? <==>
              FindSlug(db, slug).Some? && treatmentId.Some? && treatmentId.value < |db.treatments|
              && name.Some? && surname.Some? && email.Some? && phone.Some?
    ensures r.1.Created? ==>
              var aid := FindSlug(db, slug).value;
              && r.0 == db.(referrals := db.referrals +
                   [Referral(aid, treatmentId.value, name.value, surname.value, email.value, phone.value, New, Some(0), now, None)])
              && db.affiliates[aid].slug == slug
  {
    match FindSlug(db, slug)
    case None => (db, SlugNotFound)
    case Some(aid) =>
      if treatmentId.None? || treatmentId.value >= |db.treatments| then (db, TreatmentNotFound)
      else if name.None? || surname.None? || email.None? || phone.None? then (db, CreateFailed)
      else
        var r := Referral(aid, treatmentId.value, name.value, surname.value, email.value, phone.value, New, Some(0), now, None);
        (db.(referrals := db.referrals + [r]), Created)
  }

  lemma {:induction false} EarningsTotalSnoc(rs: seq<Referral>, x: Referral, aid: nat)
    ensures EarningsTotal(rs + [x], aid) == EarningsTotal(rs, aid) + Contribution(x, aid)
  {
    if |rs| > 0 {
      assert (rs + [x])[1..] == rs[1..] + [x];
      EarningsTotalSnoc(rs[1..], x, aid);
    } else {
      assert [x][1..] == [];
    }
  }

  /** A new referral earns nothing, so every balance that was right stays right. */
  lemma CreateKeepsEarningsConsistent(db: Db, slug: string, treatmentId: Option<nat>,
                                      name: Option<string>, surname: Option<string>, email: Option<string>, phone: Option<string>,
                                      now: DateTime, aid: nat)
    requires EarningsConsistent(db, aid)
    ensures EarningsConsistent(CreateReferral(db, slug, treatmentId, name, surname, email, phone, now).0, aid)
  {
    var r := CreateReferral(db, slug, treatmentId, name, surname, email, phone, now);
    if r.1.Created? {
      EarningsTotalSnoc(db.referrals, r.0.referrals[|db.referrals|], aid);
      assert r.0.referrals == db.referrals + [r.0.referrals[|db.referrals|]];
    }
  }
}
