# Stripe subscriber role: a verified model

The program gives Discord roles to people according to their Stripe history. It mirrors
one Stripe account's customers and subscriptions, keeps one denormalised facts row per
member, decides rules over those rows in two different ways, and pushes the result to a
remote role service through a durable job queue. This project models those four parts and
proves the properties that span them.

- **Rules** (`Rules`, `RuleValidator`, `ConditionEval`, `RuleSql`, `Sql`, `SqlParsing`, `Like`,
  `RuleEquivalence`, `RuleReading`, `BulkQuery`, `RuleRoundTrip`, `Acceptance`,
  `PostedRules`). A saved rule is decided in process for one member, and compiled to a WHERE clause
  for everybody. The clause is modelled as PostgreSQL tokens with numbered binds; a parser with the
  server's precedence and an evaluator in three-valued logic (PostgreSQL manual, sections 4.1.6,
  9.1, 9.2, 9.7 and 9.24) say what it means.
- **Mirror and facts** (`Ingest`, `IngestProperties`, `MemberFacts`, `FactsProperties`, `FactColumns`,
  `FactValues`, `Webhooks`, `SyncRequests`, `ViewMaintenance`, `EventLinks`, `StaleView`, `Redelivery`,
  `Reconcile`, `ImportProperties`, `ImportColumns`, `ImportIdempotence`, `Charges`, `MemberSpend`,
  `ImportSpend`). Webhooks and the full import upsert rows, spread Discord links between them and
  recompute facts rows.
- **Sync** (`Sync`, `SyncProperties`, `SyncOutcomes`, `RoleLogic`). The per-member and the per-link path
  against the remote user sets, and the chunked upload.
- **Queue** (`Jobs`, `QueueSafety`, `QueueRuns`, `QueueTiming`). Concurrent claim, dispatch, retry, release,
  crash and reap.

What the environment decides is a parameter: the row an unordered `LIMIT 1` returns, the
order rows are fetched in, the answer to a remote call, the interleaving of workers, the
clock, and the regex engine. Lemmas hold for all of them. Classes hold the tables that the
program updates; each method is tied to a function of the old contents, and the lemmas are
about those functions.

## Where the code does not meet its documentation

- The clause and the in-process evaluator are documented as deciding alike
  (src/services/rule_sql.rs:10-12). They differ on day counts of a negative interval, which
  SQL floors and the program truncates, and on a string `not_in` whose list holds no string,
  over an unset column. `ConditionMeaning` gives the exact cases, and `DivergenceIsSyntactic`
  reads off a saved condition whether any row can ever be decided differently.
- The comment at src/services/ingest.rs:144-145 announces a last fallback to the stored
  subscription row; lines 146-172 do not make it. `UnresolvedActivity` says exactly when the
  linked member's facts stay right, and `CancellationAfterDeletionGoesStale` is a run of three
  deliveries after which a former subscriber's facts still say "active".
- Only the returned member is recomputed (src/routes/webhooks.rs:111-116), and a failed recompute
  is only logged. `PresenceExactly` and `ActivityExactly` say, for every event and fault and from
  what is stored before, exactly when old facts are left behind.
- A failed apply is re-opened for redelivery. Redelivery catches up, except for a customer
  deletion whose metadata lacks the id: once the row is gone the member is forgotten
  (`Redelivery.RetryReturns`, `Redelivery.ForgottenMember`).
- Redelivery is not always once-only: an apply that aborts after its increment counts the charge
  twice (`SpendCountedOnce`, `RetryAfterWriteCountsTwice`). A delivery whose key does not decrypt,
  or whose failed apply cannot be re-opened (src/routes/webhooks.rs:134-137 ignores that failure),
  is logged and never applied (`LostExactly`, `StrandedIsFinal`, `KeyFaultLosesEvent`).
- The import resets every customer's totals but recomputes only the members it touched
  (`UntouchedExactly`).
- The mirror of a role link drifts when a reply is lost or a local write fails
  (src/services/sync.rs:472-480 ignores the latter), and the "already equal" shortcut then skips a
  needed upload: `MirrorEqualsExactly` and `SkippedUploadExactly`.
- Finishing a job matches on its id alone, so a reap that takes a job from a worker which is
  still running it can lose a request (`GuardIsExact`, `FinishLosesExactly`,
  `ReapingALiveJobLosesARequest`), or run it twice (`ReapedJobRunsTwice`).

## Model

| member | source | states |
|---|---|---|
| RuleEquivalence.CompilerCorrect | src/services/rule_sql.rs:3-52 | For every accepted payload, bind offset, surrounding parameters, facts row and clock reading: the emitted clause parses completely, evaluates without a type error, and keeps exactly the rows of the stated verdict; where no condition diverges those are the rows the in-process evaluator grants |
| RuleEquivalence.ConditionMeaning | src/services/condition_eval.rs:33-141 | For every valid condition and row, the clause is TRUE exactly when the evaluator says yes, flipped exactly on the diverging cases; NULL columns included |
| RuleEquivalence.DayCounts | src/services/condition_eval.rs:161-167 | FLOOR and truncation agree if and only if the interval is non-negative or whole days; otherwise the evaluator's count is one larger |
| RuleEquivalence.DivergenceIsSyntactic | src/services/rule_sql.rs:68-74 | Some row that a recompute can store is decided differently if and only if the condition is a day count with a literal at or below the step at zero, or a string not_in without any string |
| RuleEquivalence.SafeTreesAgree | src/services/rule_sql.rs:10-12 | A tree without such conditions is decided alike on every row at every moment |
| RuleEquivalence.SingleConditionTrees | src/services/condition_eval.rs:21-31 | A one-condition tree is decided alike on all storable rows if and only if its condition cannot diverge |
| RuleEquivalence.AcceptedPayloadsCanDiverge | src/services/rule_validator.rs:182-202 | The validator accepts a payload of each diverging family |
| RuleEquivalence.RuleMeaning | src/services/rule_sql.rs:28-52 | The OR of ANDs, under any parameters before and after the rule's binds, decides the verdict in three-valued logic |
| RuleReading.SetConditions | src/services/condition_eval.rs:127-152 | A product or price condition asks for the one listed id, for any of the listed ids, or for none of them, read off the literal's entries and the column alone |
| RuleReading.TextConditions | src/services/condition_eval.rs:98-159 | The same for each operator on a text column, where an unset column satisfies neq only |
| RuleReading.AmountConditions | src/services/condition_eval.rs:74-96 | The same for counts and amounts |
| RuleReading.DayConditions | src/services/condition_eval.rs:161-167 | Day counts compare the whole days of 24 hours since the date, or until it, with the fraction dropped |
| RuleReading.SavedRules | src/services/condition_eval.rs:21-31 | A saved rule grants when it is the all-relations rule or some group has all its conditions satisfied |
| SqlParsing.ConditionParsesBack | src/services/rule_sql.rs:84-216 | Every condition's tokens, validated or not, parse to the intended expression wherever they are embedded, nested ANDs included |
| SqlParsing.ClauseParsesBack | src/services/rule_sql.rs:39-51 | For any number of groups and conditions the clause parses to exactly the OR of ANDs, with AND binding tighter than OR |
| SqlParsing.RuleParsesBack | src/services/rule_sql.rs:48-51 | The clause is one operand in any context that follows it with AND, OR, a parenthesis or the end |
| BulkQuery.QueryParsesBack | src/services/sync.rs:575-585 | In the bulk query the rule stays one conjunct beside the account and opt-out tests |
| BulkQuery.QuerySelects | src/services/sync.rs:573-598 | The bulk query keeps a row if and only if it is the account's, its member has not opted out and the rule's verdict is positive |
| BulkQuery.RulePlaceholders | src/services/rule_sql.rs:84-216 | Read left to right the placeholders are offset+1 to offset+number of binds, each once |
| BulkQuery.QueryPlaceholders | src/services/sync.rs:573-597 | Every parameter of the whole query is used once, in order, and the limit takes the one index left |
| BulkQuery.BuildQuery | src/services/sync.rs:575-597 | The query text, limit index and bound values are those the lemmas speak of |
| RuleSql.BuildRuleWhere | src/services/rule_sql.rs:28-52 | The nested loops produce the specified tokens and bind list for every tree and offset |
| RuleSql.BuildCondition | src/services/rule_sql.rs:84-177 | Appends exactly the condition's binds and numbers its placeholders after those already there |
| RuleSql.BuildStringListCondition | src/services/rule_sql.rs:180-216 | Appends and numbers in the same way for the array-valued targets |
| Like.ContainsPattern | src/services/rule_sql.rs:146-151 | For all strings, LIKE on the escaped pattern holds if and only if the literal is a substring |
| Like.EscapeIsOnePass | src/services/rule_sql.rs:229-233 | The three successive replacements equal one pass that escapes backslash, percent and underscore |
| RuleValidator.ParseRuleTree | src/services/rule_validator.rs:46-89 | The validating loops return the specified tree or the first rejection |
| RuleValidator.AcceptedTreeIsValid | src/services/rule_validator.rs:91-224 | Every accepted tree respects the size caps and gives each condition an operator and literal its target can use |
| Acceptance.AcceptedExactly | src/services/rule_validator.rs:46-89 | A payload is accepted if and only if it grants on any relation, or has 1 to 8 groups of 1 to 12 conditions that are acceptable by their keys and literals; saved are those groups and conditions in order |
| Acceptance.RefusedFor | src/services/rule_validator.rs:46-147 | A refusal names the first group, the first condition in it and the first thing wrong with it |
| Acceptance.ConditionAccepted | src/services/rule_validator.rs:91-147 | One condition is accepted if and only if its operator is offered for its target and its literals are of the kind the two call for; otherwise the reason is the first failing test |
| PostedRules.PostedCondition | src/models/condition.rs:93-197 | Every acceptable condition is saved under the operator its key names and compares the column its target's key names |
| Acceptance.FlagValues | src/services/rule_validator.rs:156-169 | Flags are booleans or the words true, 1, yes and false, 0, no in any case, trimmed |
| Acceptance.NumberValues | src/services/rule_validator.rs:170-180 | Numbers in the i64 range are kept, others saturate, fractions are dropped toward zero |
| Acceptance.NumberTexts | src/services/rule_validator.rs:174-174 | Texts with leading zeros or a sign are their number, out of range they are none |
| Acceptance.TextValues | src/services/rule_validator.rs:204-223 | Text literals are kept unless blank, other scalars become their text |
| Acceptance.ListValues | src/services/rule_validator.rs:182-203 | List literals keep exactly the entries that are neither null nor empty, or the non-blank parts of a text, and need one |
| RuleRoundTrip.ResavingChangesNothing | src/services/rule_validator.rs:46-147 | Posting any saved rule again is accepted and saves the same rule |
| RuleRoundTrip.NumberAsText | src/services/rule_validator.rs:170-179 | The decimal text of any i64 normalises to that integer |
| RuleRoundTrip.ListAsText | src/services/rule_validator.rs:181-203 | A comma-separated text normalises to the list of its entries |
| RuleRoundTrip.TargetKeyRoundTrip | src/models/condition.rs:93-146 | Every target's key names that target |
| RuleRoundTrip.OperatorKeyRoundTrip | src/models/condition.rs:166-197 | Every operator's key names that operator |
| FactsProperties.RowOrderIndependence | src/services/sync.rs:129-186 | Fetching the same rows in another order changes only the first-non-null columns; the status only when all ranks are 0; the interval only when two share the largest charge |
| FactsProperties.ActiveRulesAgree | src/services/sync.rs:139-153 | The three ways to ask for an active subscription decide alike on every recomputed row, and mean that some subscription is active |
| FactsProperties.ProductRule | src/services/sync.rs:178-183 | "Subscribed to product p" holds if and only if some active subscription has product p, through sort and dedup |
| FactsProperties.PriceRule | src/services/sync.rs:178-183 | "Subscribed to price p" holds if and only if some active subscription has price p |
| FactColumns.StatusRules | src/services/sync.rs:139-149 | On an exact facts row the four status rules hold if and only if some linked subscription is active or trialing, is trialing, is past due, or is active and set to cancel |
| FactColumns.CustomerRules | src/services/sync.rs:129-132 | A member with a facts row is a customer, and is delinquent if and only if some linked customer is |
| FactColumns.CountRule | src/services/sync.rs:140-145 | The active count is the number of linked active subscriptions, each counted once |
| FactColumns.HeadlineStatus | src/services/sync.rs:58-70 | The headline status is the first of active, trialing, past_due, unpaid, paused, incomplete, canceled that some linked subscription has |
| FactColumns.ProductListRule | src/services/sync.rs:178-180 | "Any of these products" holds if and only if some linked active subscription has a listed one, and not_in is its negation |
| FactColumns.PriceListRule | src/services/sync.rs:181-183 | The same for prices |
| FactValues.CustomerAgeRule | src/services/sync.rs:137-137 | "Customer for at least n days" holds if and only if some linked customer was created n times 24 hours ago |
| FactValues.SubscriptionAgeRule | src/services/sync.rs:173-173 | "Subscribed for at least n days" likewise for the linked active subscriptions |
| FactValues.RenewalRule | src/services/sync.rs:174-174 | "Renews within n days" holds if and only if the period of some linked active subscription ends before n+1 times 24 hours |
| FactValues.TrialEndColumn | src/services/sync.rs:175-175 | The trial end shown is the earliest of the linked active subscriptions |
| FactValues.PlanAmountRule | src/services/sync.rs:155-161 | "Pays at least n" holds if and only if the unit amount times the quantity, at least once, of some linked active subscription is n or more |
| FactValues.CurrencyRule | src/services/sync.rs:185-186 | The currency is that of a linked customer, and of an active subscription only when no linked customer has one |
| FactValues.SpendRules | src/services/sync.rs:130-131 | The spend and payment rules compare the sums over the linked customers |
| FactValues.TextColumns | src/services/sync.rs:133-136 | Email, country and currency are what the first fetched row that has one says |
| FactValues.DomainIsLast | src/services/sync.rs:85-89 | The domain is the lower-cased part after the last @, and none without one |
| FactValues.BillingIntervalColumn | src/services/sync.rs:155-162 | The interval is that of the last fetched of the active subscriptions with the largest charge |
| FactValues.MonthlyShare | src/services/sync.rs:72-83 | Twelve months a year, 52 weeks a year, 30 days a month; an unknown interval is a month and a count below one is one |
| FactsProperties.PlanColumns | src/services/sync.rs:155-162 | The plan amount is the largest active charge, and the interval belongs to a subscription charging it |
| FactsProperties.StatusColumn | src/services/sync.rs:150-153 | The headline status is one of the member's statuses and none is more favorable |
| FactsProperties.DateColumns | src/services/sync.rs:137-175 | Each date column is the earliest among the rows that have one, and null when none has |
| FactsProperties.TotalMrrError | src/services/sync.rs:163-172 | The stored recurring total differs from the exact sum by at most half a cent per active subscription |
| FactsProperties.MonthlyMonotone | src/services/sync.rs:73-83 | A larger amount never has a smaller monthly value |
| FactsProperties.YearlyIsTwelveMonths | src/services/sync.rs:76-83 | Twelve times the amount per year is the amount per month |
| Seqs.SortDedup | src/services/sync.rs:178-183 | Sorting and then removing adjacent repeats gives the strictly ascending list of the same elements |
| Ingest.ResolvedIdsAreStable | src/services/ingest.rs:17-31 | A resolved id is 5 to 25 decimal digits and resolves to itself |
| IngestProperties.ResolvedExactly | src/services/ingest.rs:17-31 | An id is the trimmed text when that is 5 to 25 ASCII digits, and else the leftmost run of 15 to 25 decimal digits, taken as far as it goes |
| IngestProperties.MentionResolves | src/services/ingest.rs:17-31 | The id is found inside any mention around it |
| IngestProperties.KeyOrder | src/services/ingest.rs:33-46 | The account's metadata key is tried first, then the four common ones in order |
| IngestProperties.CustomerSources | src/services/ingest.rs:67-80 | A customer is linked by its own metadata, then by a linked subscription |
| IngestProperties.SubscriptionSources | src/services/ingest.rs:144-172 | The member of a subscription event is the first that its five sources give, in the coded order |
| IngestProperties.DeletionSources | src/routes/webhooks.rs:172-204 | The member of a deletion is the stored row's, looked up before it goes, then the metadata's |
| IngestProperties.CustomerColumns | src/services/ingest.rs:82-120 | The row takes the object's columns, keeps its totals and, where the object has none, its creation time; other rows gain at most an unset link |
| IngestProperties.SubscriptionColumns | src/services/ingest.rs:174-229 | The same for the subscription row of any event that carries one |
| IngestProperties.ChargeColumns | src/routes/webhooks.rs:205-214 | A charge counts if and only if it is paid and succeeded, and changes the two totals of its customer alone |
| Ingest.Mirror.UpsertCustomerRow | src/services/ingest.rs:52-123 | Deletes, or merges the row and spreads a known link to unlinked subscriptions, and returns the resolved or inherited id |
| Ingest.Mirror.UpsertSubscriptionRow | src/services/ingest.rs:131-232 | Upserts the expanded customer, resolves in the coded order, merges the row and back-fills the customer |
| Ingest.Mirror.ApplySuccessfulCharge | src/services/ingest.rs:264-295 | Adds to the row, creating it if needed, and returns its link |
| Ingest.Mirror.SetCustomerSpend | src/services/ingest.rs:238-259 | Sets the totals of an existing row only, and returns its link |
| Webhooks.Ingestor.Handle | src/routes/webhooks.rs:78-141 | De-duplicates, applies, recomputes the returned member and queues a sync; for every fault (an undecryptable key, an apply that stops after any of its statements and is re-opened or stays logged, a failed recompute, a failed enqueue) the log, the tables, the facts and the syncs are those of one specified delivery |
| SyncRequests.DeliveryQueues | src/routes/webhooks.rs:111-116 | A delivery appends the event's member to the sync requests if and only if the event is new, names one, and nothing fails or the recompute alone |
| SyncRequests.QueuedExactly | src/routes/webhooks.rs:78-141 | Over every sequence of deliveries a member is queued at the end if and only if it was at the start or a delivery that found its event new or re-opened, and reached its enqueue, named it |
| SyncRequests.DeliveryWrites | src/routes/webhooks.rs:78-141 | What each fault leaves in the tables and the log |
| SyncRequests.DeliveryRecomputes | src/routes/webhooks.rs:111-116 | The named member's facts become exact where the recompute succeeds, and no other facts change |
| Webhooks.Ingestor.ApplyPartly | src/services/ingest.rs:52-232 | An event that aborts after n writes leaves the tables of exactly those writes |
| Webhooks.Ingestor.Apply | src/routes/webhooks.rs:146-258 | Applies each event type to the mirror and returns the affected member |
| Webhooks.Ingestor.RecomputeMember | src/services/sync.rs:94-253 | Writes the aggregate of the member's rows, or deletes the facts row when there are none |
| ViewMaintenance.RunKeepsMember | src/routes/webhooks.rs:78-141 | Over every run with duplicates, retries and every fault, whose events pass the guard when they are delivered to effect, each member is exact unless one of its events wrote and none of its events has been delivered in full since |
| ViewMaintenance.RunKeepsView | src/routes/webhooks.rs:101-131 | Hence where applies fail only before writing and recomputes succeed, every member's facts row equals the aggregate of the rows linked to that member, and is absent exactly when there are none |
| ViewMaintenance.EventStep | src/routes/webhooks.rs:146-258 | A guarded event leaves alone every row linked to a member other than the returned one |
| ViewMaintenance.PartialStep | src/routes/webhooks.rs:131-140 | The same wherever the event's statements stop |
| EventLinks.ReturnsEventMember | src/services/ingest.rs:144-172 | The member to recompute, read off the stored rows and the event, is the one returned |
| EventLinks.RowsAfter | src/services/ingest.rs:52-232 | For every event, member and number of statements made: some row is linked to the member afterwards if and only if those statements give it a link or leave one of its rows neither relinked nor removed, read off beforehand |
| EventLinks.ActiveAfter | src/services/ingest.rs:52-232 | The same for having an active subscription |
| StaleView.PresenceExactly | src/routes/webhooks.rs:96-140 | For every event, member and fault: the member has a facts row exactly when rows are linked to it, if and only if it is recomputed or the statements made, read off beforehand, leave it with rows exactly when it had some |
| StaleView.ActivityExactly | src/routes/webhooks.rs:96-140 | For every event, member and fault: the facts row says "active" exactly when a linked subscription is, if and only if the member is recomputed or the statements made leave it with an active subscription exactly when it had one |
| StaleView.BareSubscriptionPresence | src/services/ingest.rs:131-232 | A subscription update breaks presence for a member if and only if it resolves another id and the subscription was the member's only row |
| StaleView.CustomerPresence | src/services/ingest.rs:52-123 | A customer upsert does so if and only if it resolves another id and the customer was the member's only row |
| StaleView.DeletionPresence | src/routes/webhooks.rs:172-204 | A customer deletion does so if and only if it names another member or none and the customer was the member's only row |
| StaleView.UnresolvedActivity | src/services/ingest.rs:144-172 | After an update that resolves no id the linked member's "active" fact is right if and only if the status is as active as before or another linked subscription is active |
| StaleView.UnresolvedEndGoesStale | src/services/ingest.rs:144-172 | So when a member's last active subscription ends by such an event the facts row is no longer exact |
| StaleView.ChargeWithoutRecompute | src/routes/webhooks.rs:111-140 | A charge written without a recompute, because it fails or the apply stops after the increment, leaves a member exact if and only if the customer is not linked to that member |
| StaleView.OthersStayExact | src/routes/webhooks.rs:111-140 | A guarded delivery that writes without a recompute leaves exact every member but the one the event names |
| StaleView.CancellationAfterDeletionGoesStale | src/services/ingest.rs:144-172 | Checkout, customer deletion and cancellation, from empty tables, reach such a state |
| Redelivery.RetryReturns | src/routes/webhooks.rs:131-140 | A guarded event that aborted after a write returns the same member when delivered again, if and only if it is not a deletion whose metadata lacks the id the removed row carried |
| Redelivery.RetryRestoresMember | src/routes/webhooks.rs:131-140 | An abort after any write and a full redelivery leave every member exact but the forgotten one |
| Redelivery.ForgottenMember | src/routes/webhooks.rs:172-204 | The forgotten member keeps its old facts, and has no rows left if and only if the deleted customer was its only one |
| Reconcile.ImportAccount | src/tasks/reconcile.rs:92-150 | The import's loops give the specified tables and touched set; every touched member whose recompute does not fail is exact afterwards and all other facts are unchanged |
| Reconcile.UpsertAll | src/tasks/reconcile.rs:94-114 | The two listing loops equal one walk, with every returned member touched |
| Reconcile.SpendAll | src/tasks/reconcile.rs:119-138 | Reset and set gives each customer its listed totals, and zero to the others |
| ImportProperties.ImportReachesClosure | src/tasks/reconcile.rs:94-114 | After one import, a listed customer resolvable by itself or by a listed subscription is linked together with all its subscriptions, whether links agree or not |
| ImportIdempotence.ImportLinksToOwner | src/tasks/reconcile.rs:94-114 | Where links agree per customer, that customer and all its subscriptions carry the one id of the customer |
| ImportProperties.ImportKeepsView | src/tasks/reconcile.rs:92-150 | A guarded import keeps exact every member except those it touched and whose recompute failed |
| ImportSpend.UntouchedExactly | src/tasks/reconcile.rs:121-138 | When the charges could be read, a member that the import does not touch stays exact if and only if none of its customers had a total for the reset to clear |
| ImportIdempotence.ImportIsIdempotent | src/tasks/reconcile.rs:73-142 | Importing the same coherent listing again changes neither table, whatever rows the lookups return and however many subscriptions expand to deleted customers |
| ImportColumns.TouchedExactly | src/tasks/reconcile.rs:92-138 | The members whose facts are rebuilt are those an upsert returned or, when the charges could be read, those linked to a customer with a listed total |
| ImportColumns.ImportShowsCustomer | src/tasks/reconcile.rs:105-114 | After an import a listed customer's row shows the customer listing, also where a subscription expanded to another version |
| ImportColumns.ImportShowsSub | src/tasks/reconcile.rs:94-103 | And a listed subscription's row what was listed |
| ImportSpend.ImportSetsTotals | src/tasks/reconcile.rs:119-138 | After an import every stored customer carries the total and the count of its listed charges |
| ImportSpend.ImportedMemberSpend | src/tasks/reconcile.rs:119-150 | And every exact member the sums of those over its customers |
| ImportSpend.ImportCharges | src/tasks/reconcile.rs:119-138 | The charge step, from the paged listing to the rows, sets those totals and no link |
| Charges.SpendDecomposition | src/routes/webhooks.rs:78-140 | Over every delivery sequence and every fault spend and payment count grow by the sums over distinct applied charges plus what applies that stopped had already written |
| Charges.AppliedExactly | src/routes/webhooks.rs:78-140 | An event is applied if and only if it was not logged at the start and some delivery of it, after re-opened ones only, makes all its statements |
| Charges.SpendCountedOnce | src/routes/webhooks.rs:205-214 | For non-negative amounts, each applied charge of a customer counts once and no other does if and only if no delivery of one, unlogged and after re-opened ones only, stops after its increment; for any amounts, if |
| Charges.CleanRuns | src/routes/webhooks.rs:78-140 | When applies fail only before writing and are re-opened, the applied events are the distinct ones that got through |
| Charges.RetryAfterWriteCountsTwice | src/services/ingest.rs:272-293 | An apply that aborts after its increment doubles the charge on retry |
| Charges.StrandedIsFinal | src/routes/webhooks.rs:86-140 | Once a new event stops and stays logged, any later deliveries leave the tables, facts and syncs that they would leave without it on top of the writes it made |
| Charges.KeyFaultLosesEvent | src/routes/webhooks.rs:96-99 | So an event whose key failed to decrypt is as good as never delivered |
| Charges.LostExactly | src/routes/webhooks.rs:78-140 | A new event ends up logged and never applied if and only if its first delivery that is not re-opened meets an undecryptable key, or stops with its log entry kept |
| Charges.AggregateCharges | src/services/stripe.rs:545-583 | The paging loop totals exactly the first 2,000 pages of 100, each charge once |
| Charges.IncrementsAgainstListing | src/tasks/reconcile.rs:119-138 | Over the same charges the increments are the listing's total plus what was refunded, so equal when nothing was |
| MemberSpend.MemberSpendOverRun | src/routes/webhooks.rs:78-140 | Over every guarded run that deletes no customer, with every fault, the spend and payment columns of a member that does not lag are, summed over the linked customers, what was there before plus the distinct applied charges plus what applies that stopped wrote |
| MemberSpend.MemberSpendCountedOnce | src/routes/webhooks.rs:205-214 | Without a charge that stops after its increment the last part is nothing |
| MemberSpend.ExactSpend | src/services/sync.rs:130-131 | An exact facts row carries the spend and payment totals of exactly the linked customers |
| RoleLogic.ChunksPartition | src/services/rolelogic.rs:277-277 | The chunks are non-empty, within the cap, all but the last full, and concatenate to the list |
| RoleLogic.UploadUsers | src/services/rolelogic.rs:255-317 | Success leaves the list's set; a failure leaves the old set unless the reply to the writing request was lost; a failed chunk is followed by a cancel and no commit; the result is success exactly when every request was acknowledged, and otherwise the error that the first failing reply is taken for |
| Sync.Engine.SyncForPlayer | src/services/sync.rs:382-510 | Decides every link on the tables as they were and performs the calls in any order with one result, lost replies and failed local writes included |
| Sync.PlayerStepExtends | src/services/sync.rs:448-507 | Actions on different links commute, so completion order does not matter |
| SyncOutcomes.PlayerPlaces | src/services/sync.rs:407-507 | Where the calls are accepted the member is assigned if and only if the link's account has a facts row of the member that the rule grants; everybody else stays, and a link without drift stays without |
| SyncOutcomes.KeptLink | src/services/sync.rs:456-493 | A member's sync deletes a link if and only if a call it needed found no such link |
| SyncOutcomes.PlayerLeaves | src/services/sync.rs:428-507 | No call is needed where the member is placed right; a refused call changes nothing and an unacknowledged one the remote set only |
| SyncOutcomes.SecondSyncIsIdle | src/services/sync.rs:428-446 | After a sync whose calls were accepted the same sync makes no call |
| Sync.Engine.SyncForRoleLink | src/services/sync.rs:516-647 | Drains, skips, or replaces the set with the ordered and cut query result, treats each remote error as coded, and on a held write enqueues the re-check |
| Sync.Engine.DrainToEmpty | src/services/sync.rs:649-686 | Empties a non-empty link, treating each remote error as coded, the re-check of a held write included |
| SyncOutcomes.BulkPlaces | src/services/sync.rs:546-647 | After a bulk sync that succeeds only granted members are assigned, and a granted one is left out only for the limit, which lower ids then fill; without an account or a rule nobody is |
| SyncOutcomes.BulkRefused | src/services/sync.rs:614-626 | Each refusal of the write: a missing link is deleted, a disabled or held one is no failure, and nothing else changes |
| SyncOutcomes.LimitRefused | src/services/sync.rs:546-572 | The same when the link's limit cannot be read |
| SyncOutcomes.OnlyHeldIsRechecked | src/services/sync.rs:705-723 | A held write, and no other end of a bulk job, enqueues the link's own job in 1200 seconds unless one is pending |
| Sync.ReplaceByUpload | src/services/sync.rs:613-647 | Replacing a set is one upload: for every fate of every request the server holds what the engine's state says, and the outcome is the upload's |
| SyncProperties.HeldWriteIsRechecked | src/services/sync.rs:715-727 | A held write leaves a pending re-check of the link, due in 20 minutes, or the one already waiting and no second |
| Sync.CollectGuilds | src/services/sync.rs:328-376 | The guilds are the gateway's and the subscriber guilds not opted out of |
| SyncProperties.StepDrift | src/services/sync.rs:448-686 | The members on whom a live link's assignments and remote set differ change, at every step, as the local tables and the fate of the step's writes alone say |
| SyncProperties.MirrorEqualsExactly | src/services/sync.rs:448-686 | Over every run, with lost replies, failed local writes and re-created remote lists, assignments equal the remote set if and only if the drift so followed is empty |
| SyncProperties.ReplaceSettles | src/services/sync.rs:613-647 | After an acknowledged write of the whole set they are equal for as long as nothing is lost again |
| SyncProperties.RunKeepsMirror | src/services/sync.rs:448-686 | Over every run that loses no write, each live link's assignments equal the remote user set |
| SyncProperties.SkippedUploadExactly | src/services/sync.rs:600-612 | When the upload is skipped for equal lists, the remote set is the computed set if and only if the drift is empty |
| SyncProperties.SkippedUploadIsRedundant | src/services/sync.rs:600-612 | Where nothing was lost, a skipped upload would have changed nothing |
| SyncProperties.SelectedMembers | src/services/sync.rs:546-598 | On a valid rule the executed query selects exactly the account's members not opted out with a positive verdict |
| SyncProperties.OnlyTruncatedAdds | src/services/sync.rs:353-646 | After a bulk job that succeeds a single-member sync makes no call for the link, except an add when the limit cut the member off |
| SyncProperties.SingleMemberSyncAgrees | src/services/sync.rs:353-646 | On a link without drift, with a remote that refuses adds once full, the link, its assignments and its remote set stay as that bulk job left them |
| Jobs.JobQueue.EnqueueJob | src/services/jobs.rs:65-89 | Inserts a pending job, or nothing when de-duplicating against a pending one |
| Jobs.JobQueue.ClaimBatch | src/services/jobs.rs:91-115 | Claims the lowest due pending ids up to the batch size and raises their attempts |
| Jobs.WorkBatch | src/tasks/job_worker.rs:62-104 | Each claimed job gets exactly the statement its outcome calls for, and no other row changes |
| Jobs.BaseWaitClosed | src/services/jobs.rs:170-178 | The total base backoff is 2^(n+1) - 2 seconds while the delay doubles, and linear after the cap |
| QueueSafety.NoRequestIsLost | src/services/jobs.rs:211-275 | In every reachable state a request not covered by a later dispatch still has a job that will be dispatched |
| QueueSafety.ClaimsAreExclusive | src/services/jobs.rs:91-168 | In every reachable state lock columns match the status, no job has two live claims, and concurrent claims are disjoint |
| QueueSafety.FailuresNeverExceedMaximum | src/tasks/job_worker.rs:72-102 | Over any interleaving with releases and crash reaps a job suffers at most its maximum of failed dispatches |
| QueueSafety.TerminalIsAbsorbing | src/services/jobs.rs:117-168 | Completed and dead jobs are never touched again |
| QueueRuns.WaitBeforeDead | src/services/jobs.rs:170-178 | Without releases and reaps claims stay within the maximum m, and the total backoff before dead lies between 2^m - 2 and 2^m - 2 + (m - 1) seconds |
| QueueTiming.ClockBeforeDead | src/services/jobs.rs:128-178 | From its first claim on, with no reap, a job that is claimed for the n-th time has seen the clock advance by 2^n - 2 seconds, and one that used up its eight attempts by 254 seconds |
| QueueTiming.FinishedRow | src/services/jobs.rs:117-155 | A finished row is completed, dead, or pending and put off by 2^attempts seconds, 256 at most, and less than one more |
| QueueTiming.RetryWaits | src/services/jobs.rs:91-142 | In no run can a retried job be claimed before that |
| QueueTiming.WaitsUntilDue | src/services/jobs.rs:91-115 | A pending row stays as it is in every run until it is due |
| QueueTiming.ClaimTakesLowestDue | src/services/jobs.rs:91-115 | A claim takes due pending rows nobody has locked, and leaves one out only for eight lower ids |
| QueueTiming.RequestedRow | src/services/jobs.rs:65-89 | A request adds one untried pending row with eight attempts, due after its delay, unless de-duplicated against a pending one |
| QueueTiming.ReapedRow | src/services/jobs.rs:156-168 | The reaper takes back, due at once, exactly the rows locked for more than 45 minutes |
| QueueRuns.GuardIsExact | src/services/jobs.rs:156-168 | From a state of ownership a step keeps it if and only if it is not a reap of a job that a live worker holds |
| QueueRuns.FinishLosesExactly | src/services/jobs.rs:117-155 | Finishing a job by its id loses a request if and only if the row does not go back to the queue and some owed key has no other waiting job |
| QueueRuns.ReapedJobRunsTwice | src/tasks/job_worker.rs:62-76 | A worker whose claimed job was reaped before its dispatch still dispatches it, and so does whoever claims it next |
| QueueRuns.ReapingALiveJobLosesARequest | src/services/jobs.rs:117-168 | A reap of a job that a live worker is running can leave a request with no job |
| QueueRuns.StaleLockIsReachable | src/tasks/job_worker.rs:18-40 | A guarded run from the empty queue reaches a live worker with a stale lock |

## Left out

- Sql: the target expressions are single tokens, because a column or a function call stands in every context as one operand; rounding of `numeric` division below a microsecond is not modelled.
- RuleEquivalence: Rust's and PostgreSQL's regular expressions are one shared match predicate, and both sides read one clock.
- RuleValidator: error texts are a reason with the group and condition number.
- Numbers: integers are unbounded except where a literal is read as an i64; amounts and averages are exact rationals instead of f64.
- ViewMaintenance.RunKeepsMember: one direction only: a row that lags, or whose event fails the guard, may still agree with the aggregate in all columns by coincidence; for the presence of a row, its "active" column and a charge the conditions are exact (`StaleView.PresenceExactly`, `StaleView.ActivityExactly`, `StaleView.ChargeWithoutRecompute`).
- ImportIdempotence.ImportIsIdempotent: a coherent listing is one state of Stripe, in which a subscription's customer is listed, or deleted and listed no more; listings that straddle a change of that customer are not covered; `last_synced_at` is not a column here.
- Webhooks: signature checks and the parsing of event bodies; an event carries the object already parsed, and log garbage collection and concurrent duplicates of one event are not steps.
- Accounts: the mirror is that of one account; statements on another account touch none of its rows.
- Sync: a job is one atomic step; interleavings of the remote calls of two jobs are not steps, and a removal of an orphaned link that fails leaves the state that any other refusal leaves.
- RoleLogic.UploadUsers: the mapping from HTTP statuses and bodies to errors is an input.
- Reconcile.ImportAccount: an import whose listing or database call fails midway stops there and is retried as a whole; such a stop is not a step.
- QueueSafety: each statement is atomic, except that a claim locks its rows before it commits; graceful shutdown is a release step that any worker may take.
- Sessions, cryptography, HTTP routing, templates, rate limits and the admin handlers would only add easy members.
