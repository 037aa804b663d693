# A verified model of the CRM backend's algorithms and state machines

The backend of the CRM is mostly I/O, but several of its parts make strong promises in their comments.
This project models those parts in Dafny and proves what they promise over all inputs, all runs and all
interleavings. `dafny verify dfyconfig.toml` checks everything.

| files | part of the system |
|---|---|
| `MergeChains`, `StripeTables`, `StripeRepair`, `StripeGuarantees` | the migration that repairs Stripe customers along chains of merged companies |
| `TextMatching`, `FilterModel`, `FilterCompiler`, `FilterMeaning`, `TokenSearch` | the compiler from JSON filters to SQL conditions, and the token search |
| `WorkSessions`, `WorkSessionRuns`, `AdminSummary` | heartbeats merged into work sessions, and the admin roll-up |
| `StageNames`, `StageCleanup`, `StageGuarantees` | the clean-up of duplicate pipeline stages |
| `ContractSigning`, `ContractAlerts` | the e-sign workflow, and the expiring-soon alerts of the daily job |
| `CampaignSteps`, `CampaignRuns` | reordering of campaign steps, and the run of a campaign |
| `LeadAssignment`, `AssignmentFairness` | auto-assignment of leads, its fairness and its default rule |
| `TtlCache`, `ExistenceCache` | the in-memory caches |
| `Wrappers` | options, results and a few facts about sequences, sets and maps |

Database tables are fields of classes that hold maps or sequences; the SQL statements and loops that
change them are methods, each proved against a function or relation on the table values, and the promises
are lemmas about those. A SELECT without ORDER BY, and any loop over a dictionary or a set, takes its rows
in an arbitrary order, so what is proved holds for every order. Primary keys are natural numbers.

## What the proofs found

- Order does not matter to the Stripe repair, and it never moves a payment or an active subscription: the
  reason is that a plan with at most one live row keeps that row, so only idle customers ever give way.
- `contains` is containment only for values without `%`, `_` and `\`; this condition is exact
  (`TextMatching.ContainsIffPlain`).
- A heartbeat that read an open session, be it in the retry after a refused INSERT, can edit it after a
  competitor has closed it; a close can miss a competitor's extension, so that the session ends before it
  was last seen; and an extension within the second it was read in can leave a duration that belongs to
  a later stamp, because the ORM writes only columns whose value has changed. All three conditions are
  exact (`WorkSessions.ClosedRowsAreFrozen`, `WorkSessions.EndsStayWhereSeen`,
  `WorkSessions.TearingSpoilsDurations`) and reached; with nothing committed in between none occurs.
- With a user filter the admin totals leave out activities that another user owns and the filtered user is
  only assigned (`AdminSummary.FilteredCallsAreComplete`).
- The stage clean-up matches canonical names with their case, although a comment speaks of trying title
  case: a stage named `won` is mapped to Discovery (`StageNames.SpellingMatters`).
- The clean-up remaps only opportunities for opportunity stages and only leads for lead stages. Because of
  the foreign keys, an opportunity in a duplicate lead stage makes the whole script roll back, and a lead
  in a duplicate opportunity stage ends without a stage. Both conditions are exact
  (`StageCleanup.PipelineDatabase.CleanUp`, `StageGuarantees.LeadLosesStageIff`).
- A request that looked a contract up before a re-send can sign by the old link after it, because the UPDATE
  is guarded by status and not by token. The comment on re-minting says that an old link stops working; it
  does for everyone who opens it after the re-send, and for nobody else
  (`ContractSigning.SupersededLinkSignsIff`).
- The daily alerts share one session, so a database error in one visit undoes the stamps and notifications
  of the whole run, but not the e-mails that have left: those are sent again. The in-app cooldown holds
  regardless, the e-mail cooldown exactly for deliveries whose run commits
  (`ContractAlerts.CooldownStartsIffKept`). Neither needs an assumption on the clock.
- Apart from database errors the in-app alert is independent of the e-mail alert; the e-mail alert depends
  on the in-app one exactly when creating the notification raises.
- Editing the steps of a running campaign can lose or repeat some: deleting a step that was sent makes the
  cursor skip the next one. `CampaignRuns.EditIsSafeIff` says exactly when. A step goes out again after an
  exception that follows its mails, or a tick that rolls back, and only then.
- An invalidation that arrives while a cached function is running is lost, and the old result is served
  until it expires (`TtlCache.StoredValueIsServedIff`).

## Assumptions

- `SELECT ... FOR UPDATE` in a send is a fresh read, and the send is atomic while it holds the lock, as the
  comment at `backend/src/contracts/service.py:190-199` intends. Whether a request's transaction survives
  is left open: a send whose e-mail is refused raises, and the row either keeps the revert to draft or
  rolls back to what it was.
- The contract workflow consists of sends, signers and the daily flip; a PATCH that sets `status` directly
  is not a workflow step, for contracts and for campaigns alike.
- SQLAlchemy renders a comparison with `None` as IS NULL or IS NOT NULL, and refuses to order by NULL or by
  a boolean; a list or object where a single value is expected is refused by the driver. The model reports
  both refusals as a compile error.
- An ORM flush writes only the columns whose value differs from the one loaded, UPDATEs before INSERTs, as
  SQLAlchemy 2.0 does; a SELECT sees only committed rows, and a flush holds the rows it writes until it
  commits or rolls back.
- The daily job commits once, after all contracts, as jobs do in `backend/src/core/scheduler.py:18-31`.
- Each cache method is atomic.

## Model

| member | source | states |
|---|---|---|
| `MergeChains.FindLiveRoot` | backend/alembic/versions/060_stripe_customer_live_root.py:23-38 | stops on every pointer graph and returns the live root that reachability along the pointers defines, or none if no live company is reachable |
| `MergeChains.RootIsUnique` | backend/alembic/versions/060_stripe_customer_live_root.py:23-38 | a chain reaches at most one live, pointer-free company |
| `MergeChains.NoRootIffDeadEndOrCycle` | backend/alembic/versions/060_stripe_customer_live_root.py:29-38 | a company has no root if and only if its chain ends at a missing row or a merged row without pointer, or comes back to a company it has visited |
| `MergeChains.ChainSharesRoot` | backend/alembic/versions/060_stripe_customer_live_root.py:23-38 | all companies along a chain have the same root, or none of them has one |
| `MergeChains.RootOfRoot` | backend/alembic/versions/060_stripe_customer_live_root.py:33-34 | a root is live and is its own root, so the groups of different roots are disjoint |
| `StripeTables.Where` | backend/alembic/versions/060_stripe_customer_live_root.py:57-68 | a list comprehension keeps exactly the rows that pass its test, each once |
| `StripeTables.Newest` | backend/alembic/versions/060_stripe_customer_live_root.py:41-46 | the row chosen by the recency key: every other row is older, a row without date older than any with one, ties broken by id |
| `StripeTables.CountsTellLiveBilling` | backend/alembic/versions/060_stripe_customer_live_root.py:20-108 | the two counts of the SELECT are positive exactly for a customer with a payment or an active, trialing or past due subscription |
| `StripeTables.PlanIsSafe` | backend/alembic/versions/060_stripe_customer_live_root.py:41-76 | the plan gives up if and only if two rows have live billing; otherwise no loser has any, every other row is a loser, and the kept row is the live one or the newest: dated where another is not, later, or of the same date and a higher id |
| `StripeRepair.PlanSettlesGroup` | backend/alembic/versions/060_stripe_customer_live_root.py:95-116 | the plan made from the selected rows, in whatever order they come, is the one the customers' payments and subscriptions call for |
| `StripeRepair.KeeperExists` | backend/alembic/versions/060_stripe_customer_live_root.py:57-75 | every uncontested group has a customer to keep: the live one or the newest |
| `StripeRepair.StripeDatabase.SelectCandidates` | backend/alembic/versions/060_stripe_customer_live_root.py:95-115 | the SELECT returns each company-owned customer of the companies once, and its two counts say whether it has live billing |
| `StripeRepair.StripeDatabase.Coalesce` | backend/alembic/versions/060_stripe_customer_live_root.py:86-162 | the bulk UPDATEs, run in order, leave the tables in the state of a coalesced group: nothing but the target company if several are live, else one keeper, detached losers, no payment moved |
| `StripeRepair.LosersHaveNoPayments` | backend/alembic/versions/060_stripe_customer_live_root.py:136-143 | the UPDATE of payments changes no row |
| `StripeRepair.StripeDatabase.CollectGroups` | backend/alembic/versions/060_stripe_customer_live_root.py:178-189 | the groups collect, under every live root, exactly the companies in use with that root and the root itself |
| `StripeRepair.StripeDatabase.Upgrade` | backend/alembic/versions/060_stripe_customer_live_root.py:165-205 | a whole upgrade ends in a state defined customer by customer, without any order in it: the order of rows and of root groups makes no difference |
| `StripeRepair.ActiveSubscriptionsStay` | backend/alembic/versions/060_stripe_customer_live_root.py:144-150 | a subscription that is active, trialing or past due is never moved |
| `StripeRepair.LiveBillingStays` | backend/alembic/versions/060_stripe_customer_live_root.py:191-205 | repairing some groups changes no customer's live billing, so the plans of the groups still to come stay the same |
| `StripeRepair.GroupIsOwned` | backend/alembic/versions/060_stripe_customer_live_root.py:95-103 | when a group comes up, the candidates are exactly the company-owned customers that resolved to its root at the start |
| `StripeRepair.NextGroup` | backend/alembic/versions/060_stripe_customer_live_root.py:191-205 | repairing one more group takes the state for the groups done so far to the state with that group added |
| `StripeGuarantees.RootAfterwards` | backend/alembic/versions/060_stripe_customer_live_root.py:151-162 | after the upgrade a customer resolves to the same root as before, unless it gave way and is detached |
| `StripeGuarantees.BillingKeepsItsRoot` | backend/alembic/versions/060_stripe_customer_live_root.py:137-150 | every payment keeps its customer, and every payment and subscription goes on resolving to the company root it had |
| `StripeGuarantees.NoBillingOnDetached` | backend/alembic/versions/060_stripe_customer_live_root.py:136-157 | no payment and no subscription is left on a customer that gave way, and no active subscription was moved to get there |
| `StripeGuarantees.CustomersEndOnLiveRoots` | backend/alembic/versions/060_stripe_customer_live_root.py:184-205 | every customer whose company resolved ends on its live root, or detached if it gave way |
| `StripeGuarantees.OneOwnerPerRoot` | backend/alembic/versions/060_stripe_customer_live_root.py:159-162 | two company-owned customers remain under one root only if several of the group had live billing |
| `StripeGuarantees.WhoStays` | backend/alembic/versions/060_stripe_customer_live_root.py:41-76 | of the company-owned customers of a root, the one with live billing stays, or without any the newest by date and id, and all of them if several have live billing |
| `StripeGuarantees.UpgradeIsIdempotent` | backend/alembic/versions/060_stripe_customer_live_root.py:165-205 | a second upgrade changes nothing |
| `TextMatching.PlainContains` | backend/src/core/filtering.py:38 | between two percent signs, a value without wildcards matches exactly the texts that contain it, ignoring case |
| `TextMatching.ContainsIffPlain` | backend/src/core/filtering.py:37-40 | `contains` means containment for every text if and only if the value has no percent sign, underscore or backslash |
| `TextMatching.FiftyPercentMatchesFiftyX` | backend/src/core/filtering.py:38 | the value `50%` matches the text `50x`, which does not contain it |
| `FilterModel.AllKept` | backend/src/core/filtering.py:161 | under three-valued logic a conjunction keeps a row exactly when each part does |
| `FilterModel.AnyKept` | backend/src/core/filtering.py:160 | a disjunction keeps a row exactly when some part does |
| `FilterModel.InDecides` | backend/src/core/filtering.py:49-56 | IN is true on a match, false on a certain miss or an empty list, and unknown when a NULL leaves it open |
| `FilterModel.KleeneTables` | backend/src/core/filtering.py:160-161 | the three connectives on true, false and unknown |
| `FilterCompiler.DocumentedShapes` | backend/src/core/filtering.py:109-161 | the documented ways to write a condition and a group are read as such, and a group without operator means and |
| `FilterCompiler.LegacyIffNoFieldColumn` | backend/src/core/filtering.py:121-133 | an old mapping of columns to operators is read as one if and only if none of its columns is called field |
| `FilterCompiler.GroupsAreRecognized` | backend/src/core/filtering.py:135-144 | any other object is a group if and only if it has a list of conditions and no operator but and or or |
| `FilterCompiler.LegacyCondition` | backend/src/core/filtering.py:95-102 | an old condition names its operator as operator or as op |
| `FilterCompiler.LegacyOpWins` | backend/src/core/filtering.py:99 | if it has both, op wins unless it is empty |
| `FilterCompiler.FalseFiltersNothing` | backend/src/core/filtering.py:175-176 | of the values that are not objects, Python's false ones filter nothing and all others are refused |
| `FilterCompiler.ParseLegacyFilterMapping` | backend/src/core/filtering.py:85-106 | the loop over a legacy mapping returns the conjunction of its conditions, or its first error |
| `FilterCompiler.ParseFilterGroup` | backend/src/core/filtering.py:109-161 | the recursive parser with its loops returns the condition the specification `Parsed` defines, or the first error |
| `FilterCompiler.FirstErrorWins` | backend/src/core/filtering.py:150-154 | a group fails with the error of the first of its items that fails |
| `FilterCompiler.ApplyFiltersToQuery` | backend/src/core/filtering.py:164-181 | a missing or empty definition, or one without conditions, leaves the query alone; any other adds one WHERE condition |
| `FilterMeaning.LeafMeans` | backend/src/core/filtering.py:27-66 | each of the thirteen operators keeps exactly the rows its plain two-valued reading keeps, NULLs included |
| `FilterCompiler.WhyLeavesFail` | backend/src/core/filtering.py:27-66 | why a condition is refused: its field, else its operator, else its value |
| `FilterMeaning.EqualityMeans` | backend/src/core/filtering.py:33-36 | eq and neq with a number, flag, text or null keep exactly the rows whose cell is that value, or is another one and not NULL |
| `FilterMeaning.OrderMeans` | backend/src/core/filtering.py:41-48 | the four orderings keep exactly the rows whose cell stands so to that number or text |
| `FilterMeaning.RangeMeans` | backend/src/core/filtering.py:61-63 | between keeps exactly the cells from the low to the high value, both included |
| `FilterMeaning.MembershipMeans` | backend/src/core/filtering.py:49-56 | in keeps exactly the cells that are listed, not_in all others that are not NULL unless NULL is listed, and everything for an empty list |
| `FilterMeaning.SingleMembershipMeans` | backend/src/core/filtering.py:50-55 | a single value is a list of one |
| `FilterMeaning.ContainsPrintsValues` | backend/src/core/filtering.py:38-40 | contains searches for a value that is not a text as Python prints it |
| `FilterMeaning.EmptinessIsTwoValued` | backend/src/core/filtering.py:57-60 | `is_empty` and `is_not_empty` are never unknown and always opposite |
| `FilterMeaning.NegationDropsNulls` | backend/src/core/filtering.py:33-40 | for every value, `neq` and `not_contains` are the opposite of their positive form exactly on rows where the column is not NULL, and comparisons with null everywhere |
| `FilterMeaning.ListNegationDropsNulls` | backend/src/core/filtering.py:49-56 | `not_in` is the opposite of `in` exactly on an empty list, or where the column is not NULL and the list has no null or the row's value is in it |
| `FilterMeaning.PlainContainsLeaf` | backend/src/core/filtering.py:37-38 | a `contains` without wildcards keeps exactly the rows whose text contains the value |
| `FilterMeaning.ContainsLeafIffPlain` | backend/src/core/filtering.py:37-38 | and only such a `contains` does so on every row |
| `FilterMeaning.CompilesIffWellFormed` | backend/src/core/filtering.py:109-161 | a definition compiles if and only if it is well formed at every level |
| `FilterMeaning.CompilationPreservesMeaning` | backend/src/core/filtering.py:109-161 | for every definition of any depth and every row, the compiled condition is true exactly when the direct reading keeps the row, and there is a condition exactly when the definition has a leaf |
| `FilterMeaning.FilteredQueryReturns` | backend/src/core/filtering.py:164-181 | the filtered query returns the rows it returned before that the definition keeps |
| `TokenSearch.TokensKeepTheText` | backend/src/core/filtering.py:201 | splitting a search loses nothing but its spaces |
| `TokenSearch.TokensAreWords` | backend/src/core/filtering.py:201 | the tokens are exactly the maximal runs without a space |
| `TokenSearch.BuildTokenSearch` | backend/src/core/filtering.py:184-211 | no condition exactly for a blank search, else the conjunction over tokens of the disjunction over columns |
| `TokenSearch.SearchMatchesEveryToken` | backend/src/core/filtering.py:187-189 | a search keeps exactly the rows in which the pattern of every word matches some column |
| `TokenSearch.SearchFindsEveryToken` | backend/src/core/filtering.py:187-189 | without wildcards these are the rows in which every word occurs in some column |
| `TokenSearch.WordIsFoundIffPlain` | backend/src/core/filtering.py:206-208 | a word means that it occurs in the column, on every row, if and only if it has no wildcard |
| `WorkSessions.WorkSessionTable.Heartbeat` | backend/src/audit/service.py:793-877 | a heartbeat nothing competes with leaves the table the specification says |
| `WorkSessions.WorkSessionTable.Read` | backend/src/audit/service.py:807-834 | the decision made from the open row: extend within 300 seconds, else close and reopen, else insert |
| `WorkSessions.OpenRowIsLatest` | backend/src/audit/service.py:807-819 | of several open rows of a key the SELECT takes the one last seen, and the newest of those |
| `WorkSessions.WorkSessionTable.Flush` | backend/src/audit/service.py:824-853 | the flush, whatever was committed since the read: only columns whose value differs from the one read are written, and a refused INSERT takes everything back |
| `WorkSessions.FlushKeepsOneOpen` | backend/src/audit/service.py:847-853 | no flush, however stale what it read, leaves two open rows of a key |
| `WorkSessions.FlushOnlyTouches` | backend/src/audit/service.py:821-853 | rows of other keys are untouched and no row's key or start ever changes |
| `WorkSessions.RefusalMeetsOpenRow` | backend/src/audit/service.py:848-866 | a refused INSERT has met an open row of its key, so the second SELECT has one to find |
| `WorkSessions.FlushAbandonsNone` | backend/src/audit/service.py:833-853 | every flush leaves an open row for its key and takes none from another key |
| `WorkSessions.EveryInterleavingIsSound` | backend/alembic/versions/044_admin_audit_work_sessions.py:52-62 | after any interleaving of any number of clients' reads, flushes, second reads and second flushes, every key that was ever seen has exactly one open row and no IntegrityError has escaped |
| `WorkSessions.ReopenNeedsOpenRow` | backend/src/audit/service.py:833-853 | a close and reopen goes through if and only if the session is still open |
| `WorkSessions.ClosedRowsAreFrozen` | backend/src/audit/service.py:824-831 | a flush edits a closed row if and only if it extends a session that a competitor closed after it was read, and has something new to write |
| `WorkSessions.OvertakenIsReachable` | backend/src/audit/service.py:821-834 | three clients get there with a plain extension |
| `WorkSessions.OvertakenRetryIsReachable` | backend/src/audit/service.py:854-875 | and with the update that follows a refused INSERT |
| `WorkSessions.DurationsStayConsistent` | backend/src/audit/service.py:825-834 | the durations match their stamps after a flush if and only if it is not an extension within the second it was read in while the duration has moved on since |
| `WorkSessions.TearingSpoilsDurations` | backend/src/audit/service.py:824-875 | over whole runs: such an extension is the only step that spoils the durations, and always does |
| `WorkSessions.TornIsReachable` | backend/src/audit/service.py:825-826 | three clients get there: the row ends last seen at 100.4 s with a duration of 200 s |
| `WorkSessions.EndsStayWhereSeen` | backend/src/audit/service.py:833-834 | closed rows end where they were last seen after a flush if and only if it neither closes a session over an extension it has not seen nor extends one that was closed |
| `WorkSessions.EndsElsewhereIsReachable` | backend/src/audit/service.py:821-834 | two clients get there |
| `WorkSessionRuns.BeatenCases` | backend/src/audit/service.py:821-846 | an uncontended heartbeat does one of three things to the table |
| `WorkSessionRuns.BeatenColumns` | backend/src/audit/service.py:821-846 | and what it writes, column by column: stamps, whole seconds, metadata, the idle limit of 300 seconds |
| `WorkSessionRuns.ExtendingBeat` | backend/src/audit/service.py:824-831 | a beat within the timeout lengthens the active time of its key by the gap |
| `WorkSessionRuns.ReopeningBeat` | backend/src/audit/service.py:833-846 | a later beat adds nothing to the active time and starts a session more than the timeout after the last one |
| `WorkSessionRuns.DurationsAreWholeSeconds` | backend/src/audit/service.py:895-896 | every row of a run counts the whole seconds between its stamps, rounded down |
| `WorkSessionRuns.ActiveTimeIsShortGaps` | backend/src/audit/service.py:821-847 | for every key of any run in time order: sessions are disjoint, ordered and more than 300 seconds apart, their durations sum to the gaps of at most 300 seconds, exactly so for whole seconds and else short by less than a second a session, and never to more than last minus first beat |
| `AdminSummary.CollectUserStats` | backend/src/audit/service.py:281-339 | the three loops leave, for every user, the statistics of exactly that user's audit rows, sessions and activities |
| `AdminSummary.SharesAreCredited` | backend/src/audit/service.py:356-397 | adding up user by user counts every contribution once, if no user is missing or listed twice |
| `AdminSummary.FiguresAreShares` | backend/src/audit/service.py:309-339 | a user's seconds, calls and emails are what that user's sessions and activities contribute |
| `AdminSummary.UserColumns` | backend/src/audit/service.py:281-339 | a user's audit count, call minutes, and proposals and opportunities touched, from the rows alone |
| `AdminSummary.LastActiveIsLatest` | backend/src/audit/service.py:899-904 | a user was last active at the latest time of the user's audit rows, sessions and activities |
| `AdminSummary.ActiveIffSeen` | backend/src/audit/service.py:934-941 | a user counts as active if and only if there is any row of the user's |
| `AdminSummary.WhoActed` | backend/src/audit/service.py:331 | an activity is its owner's, or the assignee's if it has no owner |
| `AdminSummary.OneMoreUser` | backend/src/audit/service.py:363-364 | leaving out a user who is not wanted, or who is inactive and did nothing, loses no contribution |
| `AdminSummary.Summarize` | backend/src/audit/service.py:355-446 | the totals of seconds, calls and emails are the sums over all sessions and activities whose actor the filter wants; every summary row has its user's own statistics, and each wanted user has exactly one, except inactive or deleted ones who did nothing |
| `AdminSummary.FilteredCallsAreComplete` | backend/src/audit/service.py:560-561 | with a user filter the call total is the number of calls found if and only if none of them belongs to another owner |
| `AdminSummary.AssignedCallIsNotCounted` | backend/src/audit/service.py:560-561 | a call that user 1 owns and user 2 is assigned is found for user 2 and not counted |
| `AdminSummary.EntitySeconds` | backend/src/audit/service.py:309-319 | the active seconds per entity sum, before truncation, to all session time |
| `AdminSummary.EntityShareIsItsSeconds` | backend/src/audit/service.py:907-908 | an entity is credited with the seconds of the sessions on it, by plural name and id |
| `StageNames.CanonicalNamesStay` | backend/scripts/cleanup_pipeline_stages.py:27-46 | a canonical name is mapped to itself |
| `StageNames.WhatNamesMean` | backend/scripts/cleanup_pipeline_stages.py:30-46 | exactly which names stand for Won, Lost, Proposal, Negotiation, Scoping and Stalling; all others stand for Discovery |
| `StageNames.WhatDiscoveryMeans` | backend/scripts/cleanup_pipeline_stages.py:30-46 | the names listed for Discovery stand for it |
| `StageNames.LowerLetters` | backend/scripts/cleanup_pipeline_stages.py:84 | lowering changes the capital letters and nothing else |
| `StageNames.SpellingMatters` | backend/scripts/cleanup_pipeline_stages.py:83-89 | a spelling of a canonical name that differs in case at most stands for it if and only if it is the canonical spelling or the name is Discovery |
| `StageNames.LowerCaseWonIsDiscovery` | backend/scripts/cleanup_pipeline_stages.py:83-89 | a stage named won is filed under Discovery |
| `StageCleanup.SelectByType` | backend/scripts/cleanup_pipeline_stages.py:64-67 | the stages of one type by ascending id |
| `StageCleanup.PlanRemap` | backend/scripts/cleanup_pipeline_stages.py:76-95 | the loop keeps the lowest id of every meaning and remaps each other stage to it |
| `StageCleanup.UpdateReferences` | backend/scripts/cleanup_pipeline_stages.py:103-108 | the UPDATEs, in whatever order, equal one simultaneous substitution, because no target is itself remapped |
| `StageCleanup.InsertMissing` | backend/scripts/cleanup_pipeline_stages.py:134-142 | every canonical stage that is missing is made once, with an id not used before |
| `StageCleanup.Normalize` | backend/scripts/cleanup_pipeline_stages.py:144-153 | every kept stage gets its canonical name, order, colour, probability and flags, and no other stage changes |
| `StageCleanup.StandardStages` | backend/scripts/cleanup_pipeline_stages.py:48-56 | the name, order, colour, probability and flags of the seven standard stages |
| `StageCleanup.RemapsDuplicates` | backend/scripts/cleanup_pipeline_stages.py:76-95 | the stages that are remapped and deleted are those with an older stage of the same type and meaning |
| `StageCleanup.OwnReferencesAreFree` | backend/scripts/cleanup_pipeline_stages.py:101-132 | after its own table's UPDATEs no reference of a type is left on a stage that is deleted |
| `StageCleanup.Refill` | backend/scripts/cleanup_pipeline_stages.py:134-153 | with the duplicates gone, the type has exactly the standard stages, and other types are as before |
| `StageCleanup.LeadTurnRefusesIff` | backend/src/opportunities/models.py:44-49 | the first turn neither brings an opportunity onto a lead stage that will be deleted nor takes one away |
| `StageCleanup.TurnKeepsReferences` | backend/src/leads/models.py:87-92 | a turn leaves every reference to a stage that exists |
| `StageCleanup.CleanType` | backend/scripts/cleanup_pipeline_stages.py:72-153 | one turn of the loop: it fails exactly when its DELETE would hit a stage an opportunity is in, else the type is clean, its own table remapped, and leads of deleted stages are set to NULL |
| `StageCleanup.CleanBoth` | backend/scripts/cleanup_pipeline_stages.py:62-153 | the two turns in one transaction, with what a failure takes back |
| `StageCleanup.PipelineDatabase.CleanUp` | backend/scripts/cleanup_pipeline_stages.py:59-153 | the whole script: it goes through if and only if no opportunity is in a lead stage that has an older one of the same meaning, and otherwise rolls back; if it goes through both types are clean, each table is remapped for its own type, and leads lose deleted opportunity stages |
| `StageGuarantees.OneStagePerNameAndType` | backend/scripts/cleanup_pipeline_stages.py:134-153 | afterwards each of the two types has exactly the standard stage of each canonical name and no other |
| `StageGuarantees.NamesAreUnique` | backend/scripts/cleanup_pipeline_stages.py:145-153 | a canonical name finds exactly one stage of the type, and it is active |
| `StageGuarantees.ReferencesLandOnMeaning` | backend/scripts/cleanup_pipeline_stages.py:101-108 | a reference to a stage of its own type ends on the standard stage its old name stands for |
| `StageGuarantees.ReferencesLandByName` | backend/scripts/cleanup_pipeline_stages.py:83-108 | by name: an opportunity or lead in a stage of its own type ends on the active standard stage that the list of old names gives |
| `StageGuarantees.LeadLosesStageIff` | backend/src/leads/models.py:87-92 | a lead ends without its stage if and only if that is an opportunity stage with an older one of the same meaning |
| `StageGuarantees.OtherReferencesStay` | backend/scripts/cleanup_pipeline_stages.py:101-132 | a reference to a stage of the other type stays as it is, unless it is a lead's and the stage is deleted |
| `StageGuarantees.OpportunityInLeadTwinAborts` | backend/src/opportunities/models.py:44-49 | with two lead stages of one meaning, an opportunity in the younger refuses the DELETE |
| `StageGuarantees.LeadInOpportunityTwinLosesIt` | backend/src/leads/models.py:87-92 | with two opportunity stages of one meaning, a lead in the younger is set to NULL |
| `StageGuarantees.SecondRunChangesNothing` | backend/scripts/cleanup_pipeline_stages.py:59-153 | a second run goes through and changes no stage, no reference and no id |
| `ContractSigning.ContractRow.SendForSignature` | backend/src/contracts/service.py:237-315 | what a send leaves in the row for every way its e-mail can go |
| `ContractSigning.ContractRow.Sign` | backend/src/contracts/service.py:382-402 | the guarded UPDATE signs exactly when the row is still out for signature |
| `ContractSigning.CheckPassesIff` | backend/src/contracts/service.py:366-380 | the checks pass if and only if the contract is out, the link has not expired and the e-mail is the designated signer's, or without one the contact's, or there is neither |
| `ContractSigning.DesignatedSignerWins` | backend/src/contracts/service.py:56-61 | the designated signer passes and the contact does not |
| `ContractSigning.AtMostOneSignature` | backend/src/contracts/service.py:356-402 | in every interleaving of sends, signers and flips at most one signature is accepted, with the e-mail of the designated signer, or without one the contact's; a token is live exactly while the status is sent, a signature is set exactly when it is signed or active |
| `ContractSigning.ChecksPassWithinAWeek` | backend/src/contracts/service.py:367-373 | a request passes its checks only within seven days of the send it answers |
| `ContractSigning.LookUpFindsIff` | backend/src/contracts/service.py:157-170 | a look-up finds the contract by its own live token of at least 16 characters, and by no other |
| `ContractSigning.FlipsWhenDue` | backend/src/contracts/scheduler.py:64-73 | the daily flip activates exactly the signed contract whose start date has come, and changes nothing else |
| `ContractSigning.SignaturesAreFinal` | backend/src/contracts/service.py:382-405 | no later step changes an accepted signature or reopens the contract |
| `ContractSigning.OldLinksAreDead` | backend/src/contracts/service.py:242-247 | after a re-send nobody who opens the old link gets anywhere, whatever happens in between |
| `ContractSigning.SupersededLinkSignsIff` | backend/src/contracts/service.py:242-247 | after a re-send, a signature can be accepted by the old link if and only if its request had looked the contract up before and the row it loaded passes the checks |
| `ContractSigning.SupersededLinkIsUsed` | backend/src/contracts/service.py:384-402 | every contract gets there: send, look up, re-send, sign by the old link |
| `ContractAlerts.LifecycleJob.AlertExpiringSoon` | backend/src/contracts/scheduler.py:75-126 | a run commits if and only if the database fails in no visit; then every contract is as its own visit says and those notified are counted, else every stamp is back and only e-mails that had left remain |
| `ContractAlerts.VisitDelivers` | backend/src/contracts/scheduler.py:88-215 | when each channel fires: an owned active contract that ends within 30 days, the channel allowed and more than 30 days past its stamp, and nothing before it raised; and exactly what fires is stamped |
| `ContractAlerts.RunsAreRounds` | backend/src/contracts/scheduler.py:78-85 | each contract's part in such a run is one of the rounds the theorems on channels range over |
| `ContractAlerts.CooldownHolds` | backend/src/contracts/scheduler.py:145-146 | two deliveries on one channel are more than 30 days apart, whatever else happens to the contract and the other channel, if the runs of the earlier ones committed |
| `ContractAlerts.InAppCooldownHolds` | backend/src/contracts/scheduler.py:145-146 | for the in-app channel they are, also when runs roll back |
| `ContractAlerts.CooldownStartsIffKept` | backend/src/contracts/scheduler.py:174-214 | a delivery is followed by 30 days without another one, whatever happens, if and only if its run commits |
| `ContractAlerts.EmailIsRepeatedAfterRollback` | backend/src/contracts/scheduler.py:78-85 | an e-mail leaves, the run rolls back, and the next day's run sends it again |
| `ContractAlerts.StampIsLastDelivery` | backend/src/contracts/scheduler.py:174-214 | a channel's stamp is the time of its last delivery, if the runs of its deliveries committed |
| `ContractAlerts.AtMostTwicePerEndDate` | backend/src/contracts/scheduler.py:98-105 | while the end date stays, a channel delivers at most twice; for e-mail if the runs of the earlier deliveries committed |
| `ContractAlerts.InAppIgnoresEmail` | backend/src/contracts/scheduler.py:162-175 | the in-app channel delivers and stamps the same however the e-mail channel fares, also when that raises, as long as the database fails in the same visits |
| `ContractAlerts.InAppIsLostIff` | backend/src/contracts/scheduler.py:78-85 | a notification that was created is lost if and only if the database fails in the run |
| `ContractAlerts.EmailErrorLosesNotification` | backend/src/contracts/scheduler.py:204-213 | a database error while the e-mail is queued takes the notification with it |
| `ContractAlerts.EmailIgnoresInApp` | backend/src/contracts/scheduler.py:106-111 | the e-mail channel delivers and stamps the same however the in-app channel fares, if creating notifications does not raise |
| `ContractAlerts.InAppFailureBlocksEmail` | backend/src/contracts/scheduler.py:162-178 | if it raises, a due e-mail is lost if and only if the in-app alert was due and allowed |
| `ContractAlerts.FailedNotificationLosesEmail` | backend/src/contracts/scheduler.py:162-178 | a concrete visit in which it does, and one in which it does not |
| `CampaignSteps.NeverCollidesIff` | backend/src/campaigns/service.py:534-537 | writing new orders never makes two steps share one, in any order of writes, if and only if both tables are free of duplicates and no row's new order is another row's old one |
| `CampaignSteps.BothPhasesAreSafe` | backend/src/campaigns/service.py:554-561 | neither phase collides if the orders start distinct and none is negative |
| `CampaignSteps.PlacedReadsBack` | backend/src/campaigns/service.py:493-500 | the final orders are read back as the submitted list and no other |
| `CampaignSteps.CampaignStepTable.ReorderSteps` | backend/src/campaigns/service.py:522-562 | accepts exactly the permutations of the step ids, writes orders 1 to n, returns the submitted list, and shares no order after any single write |
| `CampaignRuns.CampaignTable.Execute` | backend/src/campaigns/router.py:549-593 | a start sends the first step and schedules the second; a provider error leaves the campaign paused, any other exception active, and neither executing; without the commit nothing changes |
| `CampaignRuns.StartSchedulesTheSecondStep` | backend/src/campaigns/router.py:549-593 | a start of one step completes the campaign, of more schedules the second after its delay |
| `CampaignRuns.FailedStartCanBeRepeated` | backend/src/campaigns/router.py:567-590 | what a failed start leaves, and that a second start is then as good as a first one |
| `CampaignRuns.TickSendsWhatIsDue` | backend/src/campaigns/service.py:195-224 | a tick sends the step at the cursor exactly when its time has come, and schedules the next from then or completes the campaign |
| `CampaignRuns.CampaignTable.ProcessDue` | backend/src/campaigns/service.py:80-108 | one tick runs each due campaign once, and one whose send raises stops no other |
| `CampaignRuns.StepsGoOutInOrder` | backend/src/campaigns/service.py:195-224 | whatever is done to the steps meanwhile, the indices 0, 1, 2 and so on go out in order, each within the list it is taken from, and one is repeated exactly after a send whose progress was not kept |
| `CampaignRuns.EditIsSafeIff` | backend/src/campaigns/service.py:126-134 | after an edit in mid-run every step goes out if and only if the edit leaves only sent steps before the cursor, and none goes out twice if and only if it leaves no sent step behind it |
| `CampaignRuns.DeletingASentStepLosesTheNext` | backend/src/campaigns/service.py:200-213 | of three steps the first is sent and deleted: the third goes out and the second never does |
| `CampaignRuns.FixedStepsAreDelayed` | backend/src/campaigns/service.py:195-224 | each step goes out no earlier than its delay after the one before, and the next is scheduled accordingly |
| `CampaignRuns.CompletedAfterAllSteps` | backend/src/campaigns/service.py:126-134 | a started campaign of n steps is completed exactly after n - 1 successful ticks |
| `LeadAssignment.FirstOfTheLeastLoaded` | backend/src/assignment/service.py:152-169 | the user picked has no more active leads than any other of the rule, and everybody listed before has more |
| `LeadAssignment.LoadBalanceUser` | backend/src/assignment/service.py:152-169 | the counting loop over the users of a rule returns that user |
| `LeadAssignment.AssignmentService.AssignLead` | backend/src/assignment/service.py:178-222 | the chosen rule's pick is returned with its reason, and at most that rule's index moves |
| `LeadAssignment.ChosenIff` | backend/src/assignment/service.py:199-222 | which rule is chosen: the first active filtered rule that has users and matches, else the first active default if it has users |
| `LeadAssignment.WhichLeadsMatch` | backend/src/assignment/service.py:103-129 | which leads a filter matches: those that agree with each of its source, source id, industry and status, the source by name first |
| `LeadAssignment.WhatCountsAsActive` | backend/src/assignment/service.py:158-167 | a user's active leads are those owned that are new, contacted or qualified |
| `LeadAssignment.DefaultIsLastResort` | backend/src/assignment/service.py:199-222 | the default fires if and only if no filtered rule yields a user, and a lead goes unassigned exactly when that fails too |
| `AssignmentFairness.RuleRotates` | backend/src/assignment/service.py:144-150 | whatever other rules do in between, a rule's picks go around its list one slot at a time |
| `AssignmentFairness.RoundRobinIsFair` | backend/src/assignment/service.py:131-150 | two slots of a rule never differ by more than one pick |
| `AssignmentFairness.EveryRoundHitsEachSlotOnce` | backend/src/assignment/service.py:146-148 | any n consecutive picks of a rule with n users hit every slot exactly once |
| `AssignmentFairness.SpreadStaysBounded` | backend/src/assignment/service.py:152-169 | greedy assignment of any number of leads never widens the spread of active leads beyond the larger of what it was and one |
| `AssignmentFairness.PromotedRuleIsTheDefault` | backend/src/assignment/service.py:62-97 | a rule that is created as or promoted to the default is the only one afterwards, and nothing else about the other rules changes |
| `AssignmentFairness.UpdateSetsWhatItNames` | backend/src/assignment/service.py:89-97 | an update sets the fields it names and no others, and leaves the rotation where it was |
| `AssignmentFairness.OthersStay` | backend/src/assignment/service.py:80-101 | a change that promotes nothing leaves every other rule alone |
| `AssignmentFairness.AtMostOneDefault` | backend/src/assignment/service.py:62-101 | no sequence of creating, updating and deleting rules makes a second default |
| `TtlCache.TTLCache.GetValue` | backend/src/core/cache.py:41-54 | a get answers the stored value until it expires, drops it afterwards, and counts a hit or a miss |
| `TtlCache.TTLCache.DeleteMatching` | backend/src/core/cache.py:67-75 | exactly the matching keys go, and their number is returned |
| `TtlCache.TTLCache.RemoveExpired` | backend/src/core/cache.py:109-116 | exactly the expired keys go, and their number is returned |
| `TtlCache.TTLCache.InvalidateOnChange` | backend/src/core/cache.py:186-202 | exactly the keys matching a pattern of the changed entity type go |
| `TtlCache.WhatChangesClear` | backend/src/core/cache.py:175-202 | which keys a change of each entity type clears, for patterns that match as prefixes |
| `TtlCache.TTLCache.Memoize` | backend/src/core/cache.py:144-166 | the wrapped function's result is taken from the cache while it is there, and stored otherwise, after whatever others do to the cache while the function is awaited |
| `TtlCache.StoredValueIsServedIff` | backend/src/core/cache.py:41-75 | a stored value is served exactly while its TTL, or the default one, lasts and no invalidation has come after it was stored: those that come while the function is awaited are lost |
| `TtlCache.NothingStoredNothingServed` | backend/src/core/cache.py:41-48 | a key nothing was stored under is not answered |
| `TtlCache.OverlappingInvalidationIsLost` | backend/src/core/cache.py:158-166 | the same invalidation works after the store and is lost before it |
| `TtlCache.GetAnswersLastWrite` | backend/src/core/cache.py:41-75 | with a clock that does not run backwards, every get answers the last value written to its key that has neither expired nor been deleted, cleared or matched by a pattern since |
| `TtlCache.CleanupIsInvisible` | backend/src/core/cache.py:109-116 | a clean-up inserted anywhere changes the answer of no later get |
| `TtlCache.HitsAndMissesAreGets` | backend/src/core/cache.py:44-53 | hits and misses together are the gets since the last clear |
| `ExistenceCache.ExistenceTable.Lookup` | backend/src/core/entity_access.py:34-43 | a lookup hits on an unexpired entry and moves it to the end, and drops an expired one |
| `ExistenceCache.ExistenceTable.Record` | backend/src/core/entity_access.py:46-51 | a put moves its key to the end with a new expiry and evicts from the front down to the maximum |
| `ExistenceCache.CacheIsBounded` | backend/src/core/entity_access.py:29-31 | the cache never exceeds 5000 entries, and each expires 15 seconds after the last put of its key |
| `ExistenceCache.HitMeansRecentPut` | backend/src/core/entity_access.py:34-43 | a hit means that the same canonical type and id was put within 15 seconds |
| `ExistenceCache.RecentPutMeansHit` | backend/src/core/entity_access.py:46-51 | a lookup within 15 seconds of the last put does hit, as long as fewer than 5000 other keys were used in between |

## Left out

- E-mail, Gmail, Mailchimp, object storage, PDF rendering, branding and notifications are outcomes that may succeed or fail.
- Routing, schemas, authentication, rate limits and permissions: wrappers over libraries this model does not have.
- Concurrent edits while the Stripe migration or the stage script runs: each runs in one transaction and is modelled as one method.
- The order of SQL rows inside one UPDATE; in the Stripe repair also foreign keys: a customer id that is missing from the customers table is allowed.
- The loop at `backend/scripts/cleanup_pipeline_stages.py:110-123` is not modelled: every stage is either kept or remapped by then (`StageCleanup.Plans`), so its body is never reached.
- StageNames.CanonicalOf: lower-cases ASCII letters only; no other letter lower-cases to one that occurs in the old names except the Kelvin sign, and no old name has a k.
- FilterCompiler.ApplyFilterCondition: fields are the schema's columns; attributes of a model class that are not columns are not distinguished from unknown fields, and JSON numbers are integers.
- TextMatching.ILike: a pattern that ends in a lone escape character, which a database refuses, matches nothing.
- WorkSessions: a row carries no auto-increment id; its position in the table stands for it. Time zones are normalised before the model starts.
- AdminSummary: the security events, the labels, the sorting and the truncation of the entity list; audit counts per entity would repeat the argument for seconds.
- ContractSigning.CheckSigner: `strip` and `lower` are any functions on strings.
- ContractAlerts: dates are days since an epoch in UTC; the local date that a flip compares with is a parameter.
- ContractAlerts.Round: what a run reports when the database has failed in it; an exception that escapes the loop and a COMMIT that turns into a rollback leave the same rows.
- CampaignRuns: members, templates and counters of a campaign, and a send that reaches only some of them; `process_due_campaign_steps` is followed for one campaign at a time in the run theorems.
- CampaignSteps: the uniqueness of step orders is what the comments of `reorder_steps` assume; no migration declares it.
- LeadAssignment: rules of an assignment type other than the two the schema admits; tag filters, which the source ignores.
- TokenSearch.SearchMatchesEveryToken: a search over no columns, for which SQLAlchemy drops the empty disjunctions; every caller names some.
- TtlCache: memory estimates and the hit rate in the statistics, and the older cachetools wrappers; a stored None is not told apart from a missing key by the source either, so values are never None here.
- ExistenceCache.HitMeansRecentPut: `canonical_singular` is any function on strings.
