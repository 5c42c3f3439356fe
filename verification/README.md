# Affiliate referral system: a Dafny model of its bookkeeping core

The application is a Flask site for a clinic's affiliate programme.
Affiliates register and verify their e-mail. They get a public referral
link (a random slug) and collect referrals. When a referral's treatment is
completed, the affiliate is paid the fixed commission of the treatment's
group. This project models the logic behind that:

- **models.dfy** (`Models`): the records (users, affiliates, treatment
  groups, treatments, referrals, treatment statuses, name mappings,
  webhooks) in one immutable `Db` snapshot. It also holds the commission
  engine: `calculate_commission`, `update_earnings`,
  `validate_for_completion`, `calculate_and_update_commission` and
  `User.verify_email`.
- **webhooks.dfy** (`WebhookService`): the per-webhook failure counter,
  which disables a webhook after 5 failures, and the subscriber filter of
  `trigger_webhook_event`.
- **api.dfy** (`Api`): the sliding-window rate limiter, the
  referral-status endpoint, and the CRM "treatment completed" webhook.
- **admin.dfy** (`Admin`): the treatment-group forms and their commission
  recalculation loops, the commission-rate form, the treatment-status form,
  affiliate approval and the per-affiliate details page.
- **auth.dfy** (`Auth`): register, login, verify-by-token and resend. This
  is the account lifecycle.
- **dashboard.dfy** (`AffiliateViews`): the affiliate dashboard (labels,
  completed/pending split, per-day earnings chart, month counts) and the
  public referral form.
- **utils.dfy** (`Utils`) and **filters.dfy** (`Filters`): slug
  generation, phone normalisation, and the `nl2br` and `flag` template
  filters.
- **basics.dfy**, **tally.dfy**, **text.dfy**: shared vocabulary. These
  are optional values, sequence counting and filtering, insertion-ordered
  dictionaries, and ASCII character helpers.

Conventions:

- Money is whole cents.
- A row's id is its position in its table.
- A failed operation returns the snapshot it was given, as the session
  rollback does. The exception is a loop that commits as it goes and then
  raises: what it committed stays (`Admin.PartialEdit`).
- Everything random or external is an input: the clock, the random token
  and slug draws, the outcome of an HTTP POST or an e-mail send, and the
  password-hash check.

## Model

| member | source | states |
|---|---|---|
| Models.ParseStatus | models.py:210 | A stored status string reads as one of the three known statuses, or as an "other" value exactly when it is not one of them. It prints back to the same text. |
| Models.ParseStatusName | models.py:210 | Every well-formed status survives printing and re-reading. |
| Models.AffiliateOf | models.py:97-98 | `user.affiliate` is the row whose user id is the user. When there is none, no affiliate row points at the user. |
| Models.CalculateCommission | models.py:100-130 | The commission is never negative. It is positive exactly when the treatment and its group exist and the group amount is positive. It is then exactly that amount; in every other case it is 0. |
| Models.ValidateForCompletion | models.py:222-244 | Passes exactly when treatment, group, a set amount, a positive amount and the affiliate all exist. Each of the five messages is returned exactly when its check is the first to fail. |
| Models.ValidateIsFirstFailure | models.py:222-244 | The validator equals an independent definition: the first failure in the ordered list of the five checks. |
| Models.ValidationAgreesWithCommission | models.py:266-272 | When validation passes, the calculated commission is the group's positive amount, so the "zero commission calculated" branch cannot be reached. The commission is 0 exactly when one of the first four checks fails. |
| Models.Earned | models.py:139-143 | A referral contributes a positive amount exactly when it is completed with a positive commission; otherwise it contributes 0. |
| Models.EarningsTotal | models.py:137-149 | The recomputed balance is never negative. |
| Models.EarningsTotalIsSumOverEarning | models.py:137-149 | The balance equals the commission sum over the affiliate's completed referrals with a positive commission. |
| Models.EarningsTotalIsSumOf | models.py:137-149 | The balance equals the sum of every referral's contribution. Referrals of other affiliates and non-earning ones contribute 0. |
| Models.EarningsTotalOrderIndependent | models.py:138-143 | The balance does not depend on the order in which referrals are visited. |
| Models.EarningsTotalUpdate | models.py:137-149 | Replacing one referral changes the balance by exactly the difference of the two contributions. |
| Models.UpdateEarnings | models.py:132-151 | Afterwards the affiliate's stored balance is the recomputed sum. Nothing else changes: no other affiliate, no other field, no referral. |
| Models.CalculateAndUpdateCommission | models.py:246-285 | A validation failure is reported first. A valid but non-completed referral gives "Referral is not completed". Both failures leave the state untouched. Success happens exactly when the referral is ready and completed; it then stores the group amount as the commission and makes the affiliate's balance the recomputed sum. |
| Models.CommissionSuccessDelta | models.py:274-285 | From a consistent balance, a successful calculation moves the balance by the new commission minus what the referral earned before. |
| Models.VerifyEmail | models.py:52-60 | Marks the user verified and clears the token and its expiry. Approves the user's affiliate if there is one. Changes nothing else. |
| WebhookService.CountFailure | webhook_service.py:52-56 | A failure adds exactly 1 to the counter. The webhook stays active only while the count is below 5. |
| WebhookService.RecordDelivery | webhook_service.py:50-66 | Any response stamps `last_triggered`; an exception does not. A status below 400 resets the counter and keeps the active flag. A status of 400 or more, or an exception, counts one failure with the same threshold. URL, secret, owner and events are unchanged. |
| WebhookService.SendWebhook | webhook_service.py:23-67 | A missing, inactive or unsubscribed webhook is left alone. Otherwise only that webhook is updated, as the attempt dictates. |
| WebhookService.SendKeepsCountersBounded | webhook_service.py:28-29 | One delivery keeps every counter within 0..5, with active webhooks below 5. |
| WebhookService.CountersNeverExceedThreshold | webhook_service.py:52-56 | From bounded counters (e.g. all 0), no history of attempts pushes any counter above 5, because disabled webhooks are skipped. |
| WebhookService.FiveFailuresDisable | webhook_service.py:52-56 | Five failed responses in a row take a clean, active, subscribed webhook to count 5 and disable it. |
| WebhookService.TriggerWebhookEvent | webhook_service.py:69-79 | Dispatches to exactly the active webhooks that are subscribed to the event and, when a user is given, owned by that user. Each is dispatched once, in table order. |
| WebhookService.DispatchedAreDeliverable | webhook_service.py:77-79 | Every dispatched webhook passes the delivery guard of `_send_webhook`. |
| WebhookService.SendWebhookAsWritten | webhook_service.py:19-25 | As written, a delivery changes no webhook: the new thread has no application context, so `current_app.app_context()` raises before the lookup (Findings). |
| WebhookService.ThreadedSendNeverCounts | webhook_service.py:21-25 | For a failed response from a deliverable webhook, the intended delivery counts the failure and stamps the time, and the delivery as written leaves the webhook as it was. |
| Api.StaleCount | api.py:33-34 | The eviction loop removes a prefix: every removed timestamp is older than the cutoff, and the first kept one is not. |
| Api.FrontEvictionIsFilter | api.py:32-34 | On a sorted window, evicting from the front is the same as dropping every timestamp older than the cutoff. |
| Api.AllKeptWhenFirstFresh | api.py:33 | On a sorted window whose first entry is fresh, nothing is stale. |
| Api.CheckRateLimit | api.py:27-42 | Stale entries are evicted. The request is allowed exactly when fewer than 100 remain; `now` is then appended, and otherwise nothing is recorded. Other keys are untouched. The window never grows past 100. A sorted window stays sorted and within the hour when `now` does not go backwards. |
| Api.StatusRequestError | api.py:129-154 | Every check before any change: role 403, no affiliate 403, unknown referral 404, someone else's referral 403, missing status 400, unknown status 400, in that order. None fails exactly when the request is allowed. |
| Api.UpdateReferralStatus | api.py:123-181 | An error changes nothing. An accepted request sets only the status. A move into `completed` from another status either pays or fails. When it pays, the referral becomes completed with the group amount and no other referral changes. Only that referral's affiliate changes, and only in its balance, which is then the recomputed sum. When it fails, the answer is a 500 whose details are the validation message, and the status change is rolled back. |
| Api.RecompletionChangesNothing | api.py:162 | Setting `completed` on an already completed referral recalculates nothing. |
| Api.FindReferral | api.py:372-374 | The first referral whose e-mail equals the stripped, lower-cased address, or none exactly when no referral matches. |
| Api.FindMapping | api.py:385-387 | The first mapping whose name matches case-insensitively. It is the only first match. None is returned exactly when no mapping matches. |
| Api.FindActiveTreatment | api.py:397-400 | The first active treatment of the group, or none exactly when the group has no active treatment. |
| Api.LookupCompletion | api.py:362-407 | Each answer holds exactly under its condition, in order. A missing field is a 400. Otherwise: no matching referral is a 404. A referral but no matching mapping is a 404. A first matching mapping whose group has no active treatment is a 400. Otherwise the lookup is found. The result is the first matching referral, the group of the first matching mapping, and that group's first active treatment. |
| Api.TreatmentCompletedWebhookAsWritten | api.py:358-457 | As written, every request is an error and changes nothing. Every request that passes the lookups ends in a 500 (Findings, row 1). |
| Api.CloseTreatmentStatus | api.py:420-429 | Sets the end date to now and the outcome to "success". Creates the record with the "Treatment completed: …" note when there is none. |
| Api.CompleteFromCrm | api.py:409-448 | Moves the referral to the mapped treatment, marks it completed with the group amount, and adds that amount to the affiliate's stored balance. Notifies the affiliate's subscribed webhooks. It succeeds exactly when the group and the affiliate exist. |
| Api.TreatmentCompletedWebhook | api.py:358-457 | The handler as intended, with the names imported and a new status row linked to the referral. Lookup errors pass through unchanged, and a found referral is completed by `CompleteFromCrm`. |
| Api.TreatmentCompletedWebhookNamesResolved | api.py:420-428 | With only the names imported, a found referral that has no status row yet still ends in a 500 with nothing changed. Every other request is answered as the intended handler answers it. |
| Api.NamesAloneMissNewStatusRows | api.py:420-428 | For a found referral with no status row, whose group and affiliate exist, the intended handler completes it and creates the row. The handler with only the names imported answers 500 and changes nothing. |
| Api.TreatmentCompletedWebhookRecomputed | api.py:414-418 | The corrected handler changes the same referral and the same responses as the intended handler. It makes the balance the recomputed sum instead of adding to it. |
| Api.IncrementAgreesWithRecomputeIff | api.py:418 | From a consistent balance, adding the commission leaves the balance right exactly when the referral earned nothing before. |
| Api.CrmReplayDoubleCounts | api.py:418 | A replayed notification for an already paid 100.00 referral leaves the balance at 200.00, while the referrals add up to 100.00. |
| Admin.AddTreatmentGroup | admin.py:52-76 | A blank amount is 0. A malformed or negative amount is refused and nothing is created. A missing name rolls back. Otherwise exactly one group is appended. No group ever has a negative amount. |
| Admin.RecalcStep | admin.py:93-97 | One pass of the recalculation loop over a referral. It fails exactly when a revisited referral has no affiliate. Otherwise it changes only that referral's commission and balances, and keeps every consistent balance consistent. |
| Admin.RecalcFrom | admin.py:93-97 | The loop over a range of referrals changes only affiliates and referrals, and no referral outside the range. |
| Admin.RecalcFails | admin.py:93-97 | The loop fails exactly when some remaining revisited referral has no affiliate. |
| Admin.RecalcRows | admin.py:93-97 | After the loop, every remaining referral holds its recalculated value and the others are as before. |
| Admin.RecalcKeepsConsistency | admin.py:93-97 | The loop keeps every consistent balance consistent. |
| Admin.RecalcSettles | admin.py:93-97 | After the loop, the balance of every affiliate whose referral was revisited equals the recomputed sum. |
| Admin.RecalcOnlyBalances | admin.py:93-97 | The loop changes no affiliate field other than the balance. |
| Admin.RecalcUntouched | admin.py:93-97 | Affiliates the loop never reaches keep their rows. |
| Admin.FirstDangling | admin.py:93-97 | The first referral of the group's loop whose affiliate is missing, or none exactly when there is no such referral. |
| Admin.RewriteAndRecalc | admin.py:89-97 | The group is rewritten and the loop runs over a prefix free of dangling affiliates. Each completed referral of the group in the prefix gets a positive new amount, or keeps its own. Every referral outside the prefix is unchanged, and the balances of the prefix's affiliates are recomputed. No other table changes. |
| Admin.PartialEdit | admin.py:93-105 | When the loop raises at the first dangling affiliate, the earlier iterations' commits stay. With no earlier iteration, nothing changes. Otherwise the group rewrite and the recalculations before that referral persist, with their balances recomputed, and nothing after it changes. |
| Admin.EditTreatmentGroup | admin.py:81-107 | An unknown group is a 404. A malformed or negative amount is refused before any field changes. A missing name rolls everything back. Success happens exactly for valid inputs with no dangling affiliate. On success the group is rewritten, each completed referral of its treatments gets the new amount (positive) or keeps its own, and the touched balances are recomputed. A dangling affiliate leaves what `PartialEdit` describes. |
| Admin.UpdateCommissionRate | admin.py:112-138 | An unknown affiliate is a 404. A rate outside 0..100 is refused with no change. Otherwise the affiliate's ready, completed referrals get their group amount and the balance is recomputed. No other affiliate or group changes. |
| Admin.RateIsDiscarded | admin.py:120 | Two accepted rates leave the same state: the rate itself is never stored. |
| Admin.StampStatus | admin.py:209-222 | A new record gets a start date only for "in-progress". An existing record gets a start or end date only when that date is unset, and a set date is never overwritten. Notes are always replaced. |
| Admin.RestampKeepsDates | admin.py:219-222 | Submitting the same status again later changes no date. |
| Admin.UpdateTreatmentStatus | admin.py:201-245 | The status and stamped dates are always kept. On "completed" the commission is attempted every time. Success flashes success and recomputes the owner's balance; no other affiliate changes, and no field but that balance. Failure flashes the validation reason, with the money unchanged. Other statuses leave the commission alone. |
| Admin.ApproveAffiliate | admin.py:268-281 | An unknown affiliate is a 404. Otherwise both `approved` and the user's `email_verified` are set; a failed notification mail only changes the flash. |
| Admin.ApproveIsIdempotent | admin.py:270-272 | Approving twice gives the same state as approving once. |
| Admin.StatusPairs | admin.py:313-315 | One `(status, 1)` pair per referral, in order. |
| Admin.MonthPairs | admin.py:318-322 | One pair per completed referral. |
| Admin.StatusPairsTotals | admin.py:313-315 | The histogram's counts add up to the number of referrals. The count for a status is the number of referrals with it. |
| Admin.StatusKeysCounted | admin.py:313-315 | Every status in the histogram belongs to at least one referral. |
| Admin.MonthPairsTotal | admin.py:318-322 | The monthly commission distribution adds up to the commissions of the completed referrals. |
| Admin.StatusCounts | admin.py:313-315 | The status histogram has distinct keys and sums to the number of referrals. Each status maps to the number of referrals in it, and no listed status has a zero count. |
| Admin.DetailsOf | admin.py:304-322 | Total is the number of referrals and the completed count is at most that. Status counts have distinct keys, sum to the total, count each status exactly, and their "completed" entry is the completed count. The monthly distribution sums to the completed commissions. |
| Admin.AffiliateDetails | admin.py:296-335 | An unknown affiliate is a 404. The page fails exactly when a completed referral has no commission (`float(None)`). Otherwise it shows the details of the affiliate's referrals. |
| Admin.StatusCountsOrderIndependent | admin.py:300-315 | The status counts do not depend on the order in which the referrals are listed. |
| Auth.Register | auth.py:12-49 | An existing username is rejected first, then an existing e-mail, with nothing created. Otherwise one unverified user with the token and one unapproved affiliate with the slug are appended; a failed mail only changes the message. |
| Auth.RegisterKeepsAccountsWellFormed | auth.py:18-40 | Unique usernames, e-mails, tokens and slugs, and affiliates pointing at users, all survive registration. The new user's affiliate is the new row. |
| Auth.Login | auth.py:54-71 | Succeeds exactly when the e-mail is known, the password matches and the e-mail is verified. A matching password on an unverified account is told to verify. Admins land on the admin dashboard, everyone else on the affiliate dashboard. |
| Auth.VerifyEmailByToken | auth.py:80-94 | An unknown token changes nothing. A known one verifies its user, clears the token (not the expiry) and approves the affiliate. |
| Auth.TokenIsSingleUse | auth.py:81-84 | A token that has been used once is unknown the second time, and nothing changes. |
| Auth.ResendVerification | auth.py:98-113 | A verified user changes nothing. Otherwise only the user's token is replaced. |
| Auth.ResendRetiresOldToken | auth.py:104 | After a resend the old token no longer verifies anything and the new one belongs to the user. |
| Auth.AccountLifecycle | auth.py:12-94 | After registering, login is refused as unverified. After one use of the token, the affiliate is approved and login succeeds. |
| AffiliateViews.GroupLabel | affiliate.py:32 | The label is "No Group" when the treatment or its group is missing, and the group's name otherwise. |
| AffiliateViews.FormatCentsRoundTrip | affiliate.py:36 | The printed two-decimal amount reads back as the same number of cents. |
| AffiliateViews.CommissionLabel | affiliate.py:36 | The label is "0.00" exactly when the commission is missing or zero; otherwise it reads back as the commission. |
| AffiliateViews.EarningPairs | affiliate.py:41-46 | One chart entry per completed referral. |
| AffiliateViews.EarningPairsTotals | affiliate.py:41-46 | The chart's values add up to the completed commissions (missing as 0), overall and for every day. |
| AffiliateViews.ChartMatchesBalance | affiliate.py:41-46 | With no negative completed commission, the chart's total equals the balance `update_earnings` computes. |
| AffiliateViews.LastMonthCountAsWritten | affiliate.py:55 | The written count is at most the number of referrals. From February to December it is the count for the corrected previous month. |
| AffiliateViews.JanuaryLastMonthAlwaysZero | affiliate.py:55 | As written, the last-month count in January is always 0. |
| AffiliateViews.LastMonthCount | affiliate.py:55 | The corrected count: in January it is the count for December, in other months it equals the written count. |
| AffiliateViews.PreviousMonth | affiliate.py:55 | The corrected previous month stays in 1..12 and is one before the current month modulo 12. |
| AffiliateViews.DecemberReferralCountsInJanuary | affiliate.py:55 | A December referral counts as last month in January under the correction, but not as written. |
| AffiliateViews.LastMonthCountsAgreeOffJanuary | affiliate.py:55 | From February to December the corrected and the written counts agree. |
| AffiliateViews.EnsureAffiliate | affiliate.py:13-21 | Uses the user's affiliate, or appends one with the fresh slug; either way the result belongs to the user. |
| AffiliateViews.Rows | affiliate.py:26-38 | One table row per referral, in the same order. |
| AffiliateViews.SplitPartitions | affiliate.py:49-50 | The completed and pending lists together are a permutation of the affiliate's referrals. |
| AffiliateViews.Chart | affiliate.py:40-46 | The chart has distinct days. Each day's value is the sum of that day's completed commissions, and the overall total is the completed commissions. |
| AffiliateViews.Dashboard | affiliate.py:12-56 | Rows match referrals. Completed and pending partition them. The chart adds up per day and overall. This month counts the current month number, and last month the corrected previous month. |
| AffiliateViews.CreateReferral | affiliate.py:85-101 | An unknown slug or treatment is a 404 and a missing contact field fails. Otherwise exactly one referral is appended: linked to the slug's affiliate, status "new", commission 0. |
| AffiliateViews.CreateKeepsEarningsConsistent | affiliate.py:89-98 | A new referral earns nothing, so every consistent balance stays consistent. |
| Utils.AlphabetChar | utils.py:6 | Positions 0..61 are a..z, A..Z, 0..9. |
| Utils.AlphabetIsLettersAndDigits | utils.py:6 | Every ASCII letter and digit appears in the alphabet, at exactly one position, and nothing else does. |
| Utils.SlugOf | utils.py:8 | A draw spells a slug of its own length, one alphabet character per pick. |
| Utils.GenerateUniqueSlug | utils.py:5-10 | Returns the first drawn slug no affiliate holds: the requested length, letters and digits only. It returns none only when every draw was taken. |
| Utils.FormatPhoneNumber | utils.py:12-17 | The output starts with "+" and has one more character than the input has digits. Every later character is a digit of the input, and every digit of the input appears in it. |
| Utils.PlusTestNeverHolds | utils.py:15-16 | The `startswith('+')` test never holds on the cleaned number, so "+" is always added. |
| Utils.FormatDigitsOnly | utils.py:12-17 | A digits-only number just gets its "+". |
| Utils.FormatPhoneIdempotent | utils.py:12-17 | Formatting a formatted number changes nothing. |
| Utils.FormatIgnoresSeparator | utils.py:14 | Removing any non-digit from the input does not change the result. |
| Filters.Nl2br | filters.py:4-8 | The filter as intended. A missing or empty value renders as the empty string. Otherwise the output decodes back to the input and holds exactly one `<` per line break. |
| Filters.Nl2brRoundTrip | filters.py:8 | Escaping and then inserting real `<br>` tags loses nothing: the result decodes back to the input. |
| Filters.TagsMatchLineBreaks | filters.py:8 | With real tags inserted, the output holds exactly as many `<` as the input has line breaks: every one opens a `<br>`. |
| Filters.EscapedTagIsEscape | filters.py:8 | What `Markup.replace` inserts for `'<br>\n'` is that string escaped. |
| Filters.Nl2brAsWritten | filters.py:4-8 | The filter as written. A missing or empty value renders as "". Otherwise the output is the escape of the intended output, holds no `<` at all, and still decodes back to the input. |
| Filters.AsWrittenEscapesIntended | filters.py:8 | Escaping, then replacing with an escaped tag, equals replacing with the tag, then escaping. |
| Filters.EscapeHasNoOpenAngle | filters.py:8 | Escaped text contains no `<`. |
| Filters.UnescapeRoundTrip | filters.py:8 | Reading the five entities back recovers the escaped text. |
| Filters.UnbreakRoundTrip | filters.py:8 | Dropping the `<br>` before each line break recovers the text the tags were inserted into. |
| Filters.AsWrittenShowsTagsAsText | filters.py:8 | Whenever the input has a line break, the written and the intended outputs differ. |
| Filters.AsWrittenOnTwoLines | filters.py:8 | "a", a line break, "b" renders as `a&lt;br&gt;` plus a line break plus "b" as written, and as `a<br>` plus a line break plus "b" as intended. |
| Filters.FlagChar | filters.py:16 | A character maps to the code point of its upper case plus 127397, or to the `chr` error above U+10FFFF. |
| Filters.FlagText | filters.py:16 | One code point per input character, in order. It fails exactly when some character is out of range. |
| Filters.Flag | filters.py:10-16 | A missing code gives the empty string. Otherwise each output code point is the upper-cased character plus 127397, and it fails exactly when one exceeds U+10FFFF. |
| Filters.FlagOfLetters | filters.py:14-16 | A letters-only code always converts, into regional indicator symbols U+1F1E6..U+1F1FF. |
| Filters.FlagIgnoresCase | filters.py:16 | Lower- or upper-casing the code gives the same flag. |
| Filters.FlagRoundTrip | filters.py:14-16 | A letters-only code reads back from its flag as the code in capitals. |

## Left out

- HTTP, Flask routing, templates, flash rendering, CORS and timing headers, and API-key lookup. A handler's answer is reduced to its status code or flash message and the snapshot it commits.
- Database sessions and nested transactions are not modelled as such. A rollback returns the snapshot of the last commit. That is the prior snapshot, except in the group-edit loop, whose `update_earnings` calls commit as the loop goes (`Admin.PartialEdit`).
- The ORM's identity-map caching is ignored. Within a request, every read sees the latest write.
- The HTTP POST, the HMAC signature and the JSON payload. A delivery's outcome is an input. The background thread of `send_webhook` appears only through its effect, which is nothing (`WebhookService.SendWebhookAsWritten`, Findings). The rest of the model uses the intended delivery.
- E-mail sending: whether it succeeded is an input that only chooses the flash message.
- Password hashing: `check_password` is a caller-supplied predicate.
- `secrets.token_urlsafe` and `random.choices`: tokens and slug draws are inputs.
- Floating-point money and Decimal/float round trips: amounts are exact cents. A form decimal is given already parsed, in hundredths, or as blank or malformed.
- The float rates: success rate, conversion rate, growth and average commission.
- analytics.py, populate_db.py, email_service.py, the migrations and the JavaScript are not part of this model. So are the API key, profile, stats, treatment CRUD and reject endpoints of api.py and admin.py.
- Api.CheckRateLimit: the limiter map is process-local and its timestamps are integer seconds. Concurrent requests are not modelled.
- Utils.GenerateUniqueSlug: the source draws until it succeeds. The model scans a finite list of draws and returns none when all are taken.
- Utils.FormatPhoneNumber: only the ASCII digits of Python's Unicode-aware `str.isdigit` are kept.
- Filters.FlagChar: only ASCII letters are upper-cased, where Python's `str.upper` is Unicode-aware.
- Filters.Nl2br and Filters.Nl2brAsWritten: an input that is already `Markup` (and so left unescaped) is not modelled, and neither is a non-string value.
- Admin.EditTreatmentGroup: the loop visits the group's completed referrals in table order rather than treatment by treatment. On success the final state is the same whatever the order. When a dangling affiliate raises, which recalculations were already committed (`PartialEdit`) is decided by table order in the model, and by treatment order in the source.
- Admin.EditTreatmentGroup: a missing name is taken to fail at the first flush, before any commit. The lazy load of `group.treatments` autoflushes the dirty group, and the NOT NULL constraint rejects it.
- Api: api.py:10 imports `get_client_ip` and `get_ip_location` from utils.py, which defines neither, so `from api import bp` at app.py:39 raises ImportError and none of the api.py routes is registered. The model assumes the module loads and describes the route bodies.
- Api.LookupCompletion: `ilike` treats `%` and `_` in the treatment name as wildcards. The model compares names by plain case-insensitive equality. `lower()` and `strip()` are ASCII-only in the model and Unicode-aware in Python.
- Admin.UpdateCommissionRate: `affiliate.commission_rate` is not a column of `Affiliate`, so the accepted rate is never stored (`RateIsDiscarded`).
- Admin.UpdateTreatmentStatus: the `status` form field is taken as present. A new status record created with status "completed" gets no end date, as in the source.
- Admin.AffiliateDetails and AffiliateViews.Dashboard: referrals are visited in table order, not newest first. Only the order of rows and of dictionary keys differs (`StatusCountsOrderIndependent`, `EarningsTotalOrderIndependent`).
- AffiliateViews.Dashboard: the month comparison uses the corrected previous month. The written form is kept as `LastMonthCountAsWritten`.
- Api.TreatmentCompletedWebhook: the webhook data and the `debug` details of the 500 body are not modelled. The dispatched webhook ids are part of the response.

## Findings

| source | as written | input that shows it | evidently intended | confidence | as-written member | corrected member |
|---|---|---|---|---|---|---|
| api.py:4-10 | `treatment_completed_webhook` uses `Treatment_Status` and `trigger_webhook_event`, which api.py never imports. The `NameError` is caught and the request becomes a rollback and a 500. This assumes the module loads at all: api.py:10 also imports two names utils.py does not define (see "## Left out"). | Any payload whose e-mail, mapping and active treatment are all found. | Complete the referral, close its treatment status and notify the webhooks. A newly created status row must also be linked to the referral (row api.py:420-428). | not executed | Api.TreatmentCompletedWebhookAsWritten | Api.TreatmentCompletedWebhook |
| api.py:418 | The commission is added onto the stored balance instead of recomputing the balance. A repeated CRM notification for the same referral pays twice. | The same notification replayed for a referral already completed at 100.00. The balance becomes 200.00, while the referrals sum to 100.00. | The balance equals the sum of the completed commissions, as `update_earnings` computes it. | not executed | Api.CrmReplayDoubleCounts | Api.TreatmentCompletedWebhookRecomputed |
| affiliate.py:55 | Last month is `current_month - 1`, which is 0 in January, a month no date has. Both counts, this month's and last month's, compare only the month number (affiliate.py:54-55), so referrals from the same month of an earlier year are counted too; that part is modelled as written in both members. | Today in January and one referral created in December. The written count is 0; the intended count is 1 (`DecemberReferralCountsInJanuary`). | The month before, wrapping from January to December. | not executed | AffiliateViews.LastMonthCountAsWritten | AffiliateViews.LastMonthCount |
| api.py:420-428 | With the names imported, a referral that has no status row gets one through `referral_id` only. The relationship loaded at api.py:421 stays `None`, so api.py:428 raises AttributeError, and the request rolls back with a 500. | A found referral with no status row, whose group and affiliate exist (`NamesAloneMissNewStatusRows`). | Link the new row to the referral, then close it. | not executed | Api.TreatmentCompletedWebhookNamesResolved | Api.TreatmentCompletedWebhook |
| filters.py:8 | `escape(value)` returns `Markup`, and `Markup.replace` escapes its `str` arguments. Every line break therefore gets `&lt;br&gt;` in front, and the page shows the text "<br>". | "a", a line break, "b" renders as `a&lt;br&gt;` plus a line break plus "b" (`AsWrittenOnTwoLines`). Any input with a line break differs (`AsWrittenShowsTagsAsText`). | Pass the replacement as `Markup('<br>\n')` so that a real tag is inserted. | not executed | Filters.Nl2brAsWritten | Filters.Nl2br |
| webhook_service.py:21-25 | `send_webhook` runs `_send_webhook` in a new thread. Its first statement `current_app.app_context()` needs an application context that the thread does not have. The RuntimeError is raised outside the `try`, so nothing is posted and no counter or timestamp moves. | Any event dispatched to an active, subscribed webhook whose endpoint answers 500 (`ThreadedSendNeverCounts`). | Hand the application object to the thread and open its context there, so the delivery runs and is recorded. | not executed | WebhookService.SendWebhookAsWritten | WebhookService.SendWebhook |
