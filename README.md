# Contribution ledger of code-curiosity-2025

This project models the back end of code-curiosity-2025, written in Go, in Dafny. The back end turns the daily list of a
user's GitHub events into scored contributions, one ledger transaction per
contribution, a running coin balance per user, and at most one goal badge per user and month.

The model covers the following:

- **The persisted state.** `Tables` holds one sequence of rows per table; every
  table has a serial id. A database is an `Executer` whose `tables` field the
  repositories update. It carries the set of statements that fail on it with a
  driver error, so every error path of the Go code is reachable.
- **Transactions** (`internal/repository/base.go`). A `Tx` works on its own
  copy of the tables. `CommitTx` installs that copy, and `RollbackTx` drops it.
- **The repositories** (`internal/repository/*.go`). Each lookup is a function
  of the tables. Each insert is a function returning the new tables and the
  row, plus a method that updates the executer to match that function.
- **The services** (`internal/app/*/service.go`):
  - the batch `ProcessFetchedContributions`;
  - per event, `ProcessEachContribution`: get or create the repository, create
    the contribution, and create its transaction exactly once;
  - the transactional `CreateTransaction`, which credits the user's balance;
  - the monthly badge;
  - the custom goal targets and the achieved-target count;
  - the contribution-type summary for a month.
- **The pure helpers**: the comma-joined id list, the year/month validators,
  and the error-to-HTTP-status mapping (current and legacy tables).

The invariant the pipeline keeps is `Tables.Consistent`:

- serial ids;
- one contribution per GitHub event;
- one transaction per contribution;
- one repository per GitHub repository id;
- one user per GitHub id;
- every user's balance equals the sum of that user's transactions.

The main lemmas prove the following:

- every step keeps this invariant;
- a successful batch leaves every event in it settled (the contribution and its
  transaction both exist);
- re-running a batch that succeeded changes nothing;
- a badge is created exactly when all of the month's targets are met, and never
  twice in one month.

Where the code has a defect (see "## Findings"), the model keeps both versions:

- the as-written version, with a lemma that exhibits the defect;
- the corrected version, which the rest of the model uses.

## Model

| member | source | states |
|---|---|---|
| Base.Executer.constructor | internal/repository/base.go:23-27 | a statement target holding the given tables and failing statements |
| Base.Tx.constructor | internal/repository/base.go:29-36 | a new open transaction works on a fresh copy of the database's tables |
| Base.BeginTx | internal/repository/base.go:29-36 | fails with ErrInternalServer exactly when BEGIN fails; otherwise an open transaction over a fresh copy |
| Base.CommitTx | internal/repository/base.go:38-45 | on success the transaction's tables become the database's; a failed commit leaves the database unchanged and reports ErrInternalServer |
| Base.RollbackTx | internal/repository/base.go:47-54 | the database keeps its tables; a failed rollback reports ErrInternalServer |
| Base.HandleTransaction | internal/repository/base.go:56-72 | an incoming error rolls back, no error commits, exactly one of the two is attempted; the database changes only on a successful commit |
| AppErrors.MapError | internal/pkg/apperrors/errors.go:54-69 | the status is one of six; it is not 500 exactly for the client-facing sentinels, which keep their message; everything else reads "internal server error" |
| AppErrors.MapErrorStatusClasses | internal/pkg/apperrors/errors.go:54-69 | which errors get 400, 401, 403, 404 and 422, each as an if-and-only-if |
| AppErrors.WrappedIsInternal | internal/pkg/apperrors/errors.go:55 | the switch compares by identity, so a wrapped sentinel maps to 500 |
| AppErrors.Is | internal/app/badge/service.go:30 | errors.Is: true on the error itself, and for an unwrapped error only on the error itself |
| LegacyAppErrors.MapError | backend/internal/pkg/apperrors/errors.go:35-50 | 500 exactly for the non-client-facing errors; 404 only for ErrUserNotFound |
| LegacyAppErrors.CurrentTableExtendsLegacy | backend/internal/pkg/apperrors/errors.go:35-50 | the current table maps every legacy error exactly as the legacy table did |
| LegacyAppErrors.AddedClientErrors | internal/pkg/apperrors/errors.go:54-69 | apart from ErrContextValue, ErrRepoNotFound and ErrContributionNotFound, every client-facing error was already client-facing in the legacy table |
| Helper.FormatInt | internal/pkg/utils/helper.go:18 | the decimal text of an integer never holds a comma |
| Helper.Atoi | internal/pkg/utils/helper.go:52 | strconv.Atoi fails only with a syntax or range error on its input |
| Helper.AtoiFormatInt | internal/pkg/utils/helper.go:18 | Atoi reads back the decimal text of every 64-bit integer |
| Helper.SplitJoin | internal/pkg/utils/helper.go:21 | splitting the comma join gives back the pieces when none holds a comma |
| Helper.ParseFormatAll | internal/pkg/utils/helper.go:15-22 | parsing each formatted id gives back the ids |
| Helper.FormatIntSliceForQuery | internal/pkg/utils/helper.go:15-22 | the ids' decimal text joined by commas; empty exactly for no ids; splitting and parsing it gives back the ids |
| Helper.ValidateYearQueryParam | internal/pkg/utils/helper.go:51-64 | a parse error passes through; a parsed year is accepted exactly when 2025 <= year <= the current year, else ErrInvalidQueryParams |
| Helper.ValidateMonthQueryParam | internal/pkg/utils/helper.go:66-79 | a parse error passes through; a parsed month is accepted exactly when 0 <= month <= 12, else ErrInvalidQueryParams |
| Helper.ValidatorsAcceptFormatted | internal/pkg/utils/helper.go:51-79 | the validators accept exactly the decimal text of an in-range value and return that value |
| Tables.InMonthOfSameMonth | internal/repository/badge.go:41-45 | the DATE_TRUNC window of the current-month query is exactly the calendar month |
| Tables.Find | internal/repository/user.go:85-112 | a single-row lookup returns a matching row, and nothing exactly when no row matches |
| Tables.FindUnique | internal/repository/transaction.go:64-79 | with one matching row, the lookup returns that row |
| Tables.FilterMembers | internal/repository/contribution.go:108-127 | a WHERE filter keeps exactly the matching rows |
| Tables.CreditUser | internal/app/transaction/service.go:54 | the balance update adds the amount to that user only, leaving other users unchanged |
| Tables.CreditKeepsLedger | internal/app/transaction/service.go:49-58 | inserting a transaction and crediting its amount keeps every balance equal to the sum of that user's transactions |
| Ordering.SortDescSortsAndPermutes | internal/repository/badge.go:39 | ORDER BY ... DESC returns the same rows, latest first |
| ContributionRepo.CreateContributionOn | internal/repository/contribution.go:69-88 | fails with ErrContributionCreationFailed exactly when the insert fails or the event is already stored; else appends the row with the next id; keeps serial ids and one contribution per event |
| ContributionRepo.CreateContribution | internal/repository/contribution.go:69-88 | the executer's new tables and the result are those of CreateContributionOn |
| ContributionRepo.GetContributionScoreDetailsByContributionType | internal/repository/contribution.go:90-106 | a stored score of that type; ErrContributionScoreNotFound exactly when none; the driver error otherwise |
| ContributionRepo.FetchUserContributions | internal/repository/contribution.go:108-127 | without a user id in the context ErrInternalServer; else the user's contributions, latest first, as a permutation of the matching rows |
| ContributionRepo.GetContributionByGithubEventId | internal/repository/contribution.go:129-145 | the stored contribution of that event; ErrContributionNotFound exactly when none; ErrFetchingContribution exactly when the query fails |
| ContributionRepo.GetAllContributionTypes | internal/repository/contribution.go:147-158 | every score row, or ErrFetchingContributionTypes exactly when the query fails |
| ContributionRepo.GroupByTypeCounts | internal/repository/contribution.go:56-66 | GROUP BY contribution_type gives one row per type, with that type's count and coin sum |
| ContributionRepo.MonthlySummaryAsWrittenAlwaysFails | internal/repository/contribution.go:164 | the call as written always fails |
| ContributionRepo.ListMonthlyContributionSummary | internal/repository/contribution.go:160-171 | fails exactly when the query fails; else one row per type holding the count and coins of the user's contributions in that month |
| TransactionRepo.CreateTransactionOn | internal/repository/transaction.go:44-62 | fails with ErrTransactionCreationFailed exactly when the insert fails or the contribution already has a transaction; else appends the row with the next id |
| TransactionRepo.CreateTransaction | internal/repository/transaction.go:44-62 | the executer's new tables and the result are those of CreateTransactionOn |
| TransactionRepo.GetTransactionByContributionId | internal/repository/transaction.go:64-79 | the stored transaction of that contribution; ErrTransactionNotFound exactly when none; the driver error otherwise |
| TransactionRepo.LookupFindsStored | internal/repository/transaction.go:44-79 | looking up a contribution's transaction right after creating it returns the created row |
| UserRepo.CreateUserOn | internal/repository/user.go:52-83 | fails with ErrUserCreationFailed exactly when the insert fails or the GitHub id is taken; else a user with zero balance, not blocked and not an admin is appended |
| UserRepo.CreateUser | internal/repository/user.go:52-83 | the executer's new tables and the result are those of CreateUserOn |
| UserRepo.CreateUserKeepsConsistent | internal/repository/user.go:52-83 | creating a user keeps the tables consistent |
| UserRepo.GetUserByGithubId | internal/repository/user.go:85-112 | the user with that GitHub id; ErrUserNotFound exactly when none; ErrInternalServer exactly when the query fails |
| UserRepo.CreateUserAsWrittenOn | internal/repository/user.go:52-83 | as written, CreateUser always fails with ErrUserCreationFailed, yet stores exactly the row the corrected insert stores |
| UserRepo.GetUserByGithubIdAsWritten | internal/repository/user.go:85-112 | as written, the lookup never succeeds: ErrUserNotFound exactly when no row has the GitHub id, ErrInternalServer exactly when one does or the query fails |
| UserRepo.UserScanFailsAsWritten | internal/repository/user.go:63-75 | a user just created is found by the corrected lookup but is ErrInternalServer to the lookup as written, and the insert as written stores it yet fails |
| UserRepo.GetUserById | internal/repository/user.go:114-141 | the user with that id; ErrUserNotFound exactly when none; ErrInternalServer exactly when its own id query fails |
| UserRepo.GetUserByIdFindsSerial | internal/repository/user.go:114-141 | with serial ids, user n is the n-th row |
| UserRepo.GetUserByIdAsWrittenMisses | internal/repository/user.go:118 | the statement as written misses a stored user that the id lookup finds |
| UserRepo.SetEmail | internal/repository/user.go:49 | only the addressed user's email changes |
| UserRepo.UpdateUserEmailOn | internal/repository/user.go:143-152 | fails with ErrInternalServer exactly when the update fails; else only that user's email changes; keeps the tables consistent |
| UserRepo.UpdateUserEmail | internal/repository/user.go:143-152 | the executer's new tables and the result are those of UpdateUserEmailOn |
| UserRepo.UpdateUserCurrentBalance | internal/app/transaction/service.go:54 | the executer's new tables and the result are those of UpdateUserCurrentBalanceOn |
| BadgeRepo.GetUserCurrentMonthBadgeAsWritten | internal/repository/badge.go:48-60 | every failure, including "no badge this month", comes back as ErrBadgeCreationFailed |
| BadgeRepo.GetUserCurrentMonthBadge | internal/repository/badge.go:48-60 | a badge of the user earned this month; sql.ErrNoRows exactly when there is none |
| BadgeRepo.CreateBadgeOn | internal/repository/badge.go:62-73 | fails with ErrBadgeCreationFailed exactly when the insert fails; else appends a badge earned now with the next id |
| BadgeRepo.CreateBadge | internal/repository/badge.go:62-73 | the executer's new tables and the result are those of CreateBadgeOn |
| BadgeRepo.GetBadgeDetailsOfUser | internal/repository/badge.go:75-86 | fails exactly when the query fails; else the user's badges, latest first, as a permutation of the matching rows; none for a user without badges |
| BadgeRepo.AppendBadgeKeepsOnePerMonth | internal/repository/badge.go:41-45 | adding a badge earned now, for a user with no badge this month, keeps one badge per user and month |
| RepositoryRepo.GetRepoByGithubId | internal/repository/repository.go:60-88 | the repository with that GitHub id; ErrRepoNotFound exactly when none; ErrInternalServer exactly when the query fails |
| RepositoryRepo.GetRepoByRepoId | internal/repository/repository.go:90-117 | the repository with that id; ErrRepoNotFound exactly when none; ErrInternalServer exactly when the query fails |
| RepositoryRepo.CreateRepositoryOn | internal/repository/repository.go:119-152 | fails with ErrInternalServer exactly when the insert fails or the GitHub id is taken; else appends the row with the next id |
| RepositoryRepo.CreateRepository | internal/repository/repository.go:119-152 | the executer's new tables and the result are those of CreateRepositoryOn |
| RepositoryRepo.CreatedRepositoryIsFound | internal/repository/repository.go:60-152 | the lookup by GitHub id right after creating a repository returns it |
| RepositoryRepo.GetUserRepoTotalCoins | internal/repository/repository.go:154-174 | the sum of the user's balance changes in the repository; an error when the query fails or the sum is NULL (no rows) |
| RepositoryRepo.TotalCoinsGrowByContribution | internal/repository/repository.go:154-174 | a new contribution adds its balance change to the total, or starts the total |
| RepositoryRepo.UsersContributedRepos | internal/repository/repository.go:55 | exactly the repositories the user has a contribution in |
| RepositoryRepo.FetchUsersContributedRepos | internal/repository/repository.go:176-216 | without a user id ErrInternalServer; a failing query ErrFetchingUsersContributedRepos; else exactly the repositories the user contributed to |
| RepositoryRepo.ContributionsInRepo | internal/repository/repository.go:57 | exactly the user's contributions in the repository with that GitHub id |
| RepositoryRepo.ScanContributions | internal/repository/repository.go:237-249 | rows.Scan succeeds on every row only when there are as many destinations as columns |
| RepositoryRepo.FetchUserContributionsInRepoAsWritten | internal/repository/repository.go:218-256 | as written, any non-empty result fails in Scan |
| RepositoryRepo.ContributionsInRepoAsWrittenFails | internal/repository/repository.go:218-256 | any user with a contribution in a stored repository gets a non-empty result, so the code as written fails for them |
| RepositoryRepo.FetchUserContributionsInRepo | internal/repository/repository.go:218-256 | corrected: exactly the user's contributions in that repository |
| RepositoryService.GetRepoByRepoId | internal/app/repository/service.go:34-42 | looks the repository up by its GitHub id, with that lookup's error cases |
| RepositoryService.CreateRepositoryOn | internal/app/repository/service.go:75-92 | fails exactly when the insert fails or the GitHub id is taken; else appends the row built from the details |
| RepositoryService.CreateRepository | internal/app/repository/service.go:75-92 | the database's new tables and the result are those of CreateRepositoryOn |
| RepositoryService.HandleRepositoryCreationOn | internal/app/contribution/service.go:126 | returns a stored repository with that GitHub id; changes nothing when one exists or on error; adds at most one repository; keeps consistency |
| RepositoryService.HandleRepositoryCreation | internal/app/contribution/service.go:126 | the database's new tables and the result are those of HandleRepositoryCreationOn |
| RepositoryService.HandleRepositoryCreationOnce | internal/app/contribution/service.go:126 | a second call after a success changes nothing and returns the same repository |
| Classifier.UnmarshalObject | internal/app/contribution/service.go:152-157 | json.Unmarshal into a map: invalid text or a non-object fails; null gives an empty map |
| Classifier.PayloadFields | internal/app/contribution/service.go:159-176 | a missing key leaves its field at the zero value |
| Classifier.ContributionTypeOf | internal/app/contribution/service.go:178-204 | each of the eight contribution types, as an if-and-only-if on the event type and payload fields; the empty type otherwise |
| Classifier.GetContributionType | internal/app/contribution/service.go:151-207 | on payloads whose type assertions hold: fails exactly when the payload does not decode; else the type of ContributionTypeOf |
| Classifier.TolerantFields | internal/app/contribution/service.go:159-176 | agrees with the source's field reads wherever those do not panic |
| Classifier.ClassifyEvent | internal/app/contribution/service.go:151-207 | agrees with GetContributionType wherever it does not panic; fails exactly when the payload does not decode |
| Classifier.OpenIssueCommentPanics | internal/app/contribution/service.go:173-175 | an issue comment on an open issue (state_reason null) makes the type assertion panic; the corrected classifier reports IssueComment |
| Classifier.UnscoredEventsAreEmpty | internal/app/contribution/service.go:178-204 | a closed unmerged pull request and an unknown event type classify as the empty type |
| TransactionService.CreateTransactionOn | internal/app/transaction/service.go:32-61 | succeeds exactly when BEGIN, the insert, the balance update and COMMIT all succeed and the contribution has no transaction; then the row is appended and the user credited; on failure nothing changes |
| TransactionService.CreateTransaction | internal/app/transaction/service.go:32-61 | the database's new tables and the result are those of CreateTransactionOn |
| TransactionService.CreateTransactionAsWrittenOn | internal/app/transaction/service.go:32-61 | as written: on failure nothing changes |
| TransactionService.CreateTransactionAsWritten | internal/app/transaction/service.go:32-61 | the database's new tables and the result are those of CreateTransactionAsWrittenOn |
| TransactionService.CommitFailureReportedAsSuccess | internal/app/transaction/service.go:41-46 | as written, a failed COMMIT returns success with a row that a later lookup does not find |
| TransactionService.CreateTransactionForContribution | internal/app/transaction/service.go:73-89 | creates the transaction TransactionFor builds from the contribution |
| TransactionService.HandleTransactionCreationOn | internal/app/transaction/service.go:91-109 | creates a transaction only when the contribution has none; a success returns a stored transaction of the contribution; a failure changes nothing; only transactions and users change |
| TransactionService.HandleTransactionCreation | internal/app/transaction/service.go:91-109 | the database's new tables and the result are those of HandleTransactionCreationOn |
| TransactionService.HandleTransactionCreationIdempotent | internal/app/transaction/service.go:91-109 | a second call after a success changes nothing and returns the same transaction |
| TransactionService.HandleTransactionCreationKeepsConsistent | internal/app/transaction/service.go:91-109 | keeps the tables consistent; a new transaction credits exactly its user with the contribution's balance change; an existing one changes nothing |
| BadgeService.HandleBadgeCreationWith | internal/app/badge/service.go:27-42 | a found badge is returned; an error other than sql.ErrNoRows is returned; on ErrNoRows a badge is created and an empty badge with no error comes back, or the creation error |
| BadgeService.HandleBadgeCreationOn | internal/app/badge/service.go:27-42 | the tables change exactly when both queries succeed and the user has no badge this month, and then only by the new badge |
| BadgeService.BadgeNeverCreatedAsWritten | internal/app/badge/service.go:27-42 | with the repository as written, no badge is ever created |
| BadgeService.HandleBadgeCreation | internal/app/badge/service.go:27-42 | the database's new tables and the result are those of HandleBadgeCreationOn |
| BadgeService.HandleBadgeCreationKeepsOnePerMonth | internal/app/badge/service.go:27-42 | keeps one badge per user and month, and serial ids |
| BadgeService.HandleBadgeCreationOncePerMonth | internal/app/badge/service.go:27-42 | after a badge is created, a later call in the same month changes nothing and succeeds |
| BadgeService.GetBadgeDetailsOfUser | internal/app/badge/service.go:44-59 | the repository's result, copied element by element |
| ContributionService.CreateContributionOn | internal/app/contribution/service.go:209-235 | a missing or failing score lookup is returned unchanged; else the row scored with that type's score is appended |
| ContributionService.CreateContribution | internal/app/contribution/service.go:209-235 | the database's new tables and the result are those of CreateContributionOn |
| ContributionService.HandleContributionCreationOn | internal/app/contribution/service.go:237-257 | an unknown actor's lookup error is returned; an undecodable payload fails; a success appends a contribution of the actor's user with the classified type |
| ContributionService.HandleContributionCreation | internal/app/contribution/service.go:237-257 | the database's new tables and the result are those of HandleContributionCreationOn |
| ContributionService.HandleContributionCreationKeepsConsistent | internal/app/contribution/service.go:237-257 | keeps the tables consistent |
| ContributionService.ProcessEachOn | internal/app/contribution/service.go:122-149 | a failing event lookup returns its error; a known event adds no contribution or repository; rows are only ever added |
| ContributionService.ProcessEachContribution | internal/app/contribution/service.go:122-149 | the database's new tables and the result are those of ProcessEachOn |
| ContributionService.SettledGrows | internal/app/contribution/service.go:122-149 | a settled event stays settled as the tables grow |
| ContributionService.ProcessEachKeepsConsistent | internal/app/contribution/service.go:122-149 | keeps the tables consistent |
| ContributionService.ProcessEachSettles | internal/app/contribution/service.go:122-149 | a success leaves the event with its contribution and that contribution's transaction |
| ContributionService.ProcessEachReplay | internal/app/contribution/service.go:122-149 | processing a settled event again changes nothing and succeeds |
| ContributionService.RepositoryKeptWhenActorUnknown | internal/app/contribution/service.go:126-135 | an event of an unknown actor fails with ErrUserNotFound after its repository has been created |
| ContributionService.UnscoredEventFails | internal/app/contribution/service.go:122-149 | an event that classifies as the empty type fails with ErrContributionScoreNotFound and stores no contribution |
| ContributionService.Drain | internal/app/contribution/service.go:95-110 | the iterator fails with ErrNextContribution exactly when some row is an iteration error; else the events, in order |
| ContributionService.ProcessAll | internal/app/contribution/service.go:112-117 | rows are only ever added |
| ContributionService.ProcessFetchedContributionsOn | internal/app/contribution/service.go:85-120 | a fetch error gives ErrFetchingFromBigquery and an iteration error gives ErrNextContribution, both with nothing changed; rows are only ever added |
| ContributionService.ProcessFetchedContributions | internal/app/contribution/service.go:85-120 | the database's new tables and the result are those of ProcessFetchedContributionsOn |
| ContributionService.ProcessAllKeepsConsistent | internal/app/contribution/service.go:112-117 | the batch keeps the tables consistent |
| ContributionService.ProcessAllSettles | internal/app/contribution/service.go:112-117 | a successful batch settles every event in it |
| ContributionService.ProcessAllReplay | internal/app/contribution/service.go:112-117 | a batch of settled events changes nothing |
| ContributionService.ReprocessingIsNoOp | internal/app/contribution/service.go:85-120 | re-running a successful daily batch changes nothing and succeeds |
| ContributionService.ParseMonth | internal/app/contribution/service.go:295 | time.Parse("2006-01"): a year and a valid month at the start of the month, else the parse error |
| ContributionService.ParseFormatMonth | internal/app/contribution/service.go:295 | parsing the "YYYY-MM" text of a month gives that month |
| ContributionService.GetContributionTypeSummaryForMonth | internal/app/contribution/service.go:294-324 | the parse and type-fetch errors; on success one summary per contribution type, in order; else the first failing type's error |
| GoalService.ListGoalLevels | internal/app/goal/service.go:34-48 | the goal rows, copied in order, or the error |
| GoalService.CustomTargetsOn | internal/app/goal/service.go:84-105 | only goal targets change, by appending; on success one row per target, carrying the Custom goal, the type's score id, the target and the user |
| GoalService.CreateCustomGoalLevelTargetOn | internal/app/goal/service.go:76-108 | a failing Custom-goal lookup is returned with nothing changed |
| GoalService.CreateCustomGoalLevelTarget | internal/app/goal/service.go:76-108 | the database's new tables and the result are those of CreateCustomGoalLevelTargetOn |
| GoalService.TypesOfTargets | internal/app/goal/service.go:117-126 | each target's contribution type and count, in order; else the error of the first target whose type lookup fails |
| GoalService.ContributionTypesOf | internal/app/goal/service.go:117-126 | the first loop returns what TypesOfTargets specifies |
| GoalService.AchievedMap | internal/app/goal/service.go:136-140 | the second loop returns the achieved map of the summary rows |
| GoalService.CountCompleted | internal/app/goal/service.go:142-147 | the third loop counts the targets met exactly |
| GoalService.CompletedAllIff | internal/app/goal/service.go:142-149 | all targets count as completed exactly when each target equals its achieved count |
| GoalService.AchievedOfRows | internal/app/goal/service.go:136-140 | the achieved map holds a type exactly when the summary has a row for it, with that row's count |
| GoalService.ListGoalLevelAchievedTarget | internal/app/goal/service.go:110-164 | the database's new tables and the result are those of ListGoalLevelAchievedTargetOn |
| GoalService.AchievedCountsContributions | internal/app/goal/service.go:110-164 | the returned count of a type is the number of the user's contributions of that type this month |
| GoalService.BadgeExactlyWhenAllTargetsMet | internal/app/goal/service.go:142-161 | the badge step runs exactly when every target equals this month's count of its type; otherwise nothing changes |

## Left out

- The BigQuery client, the GitHub HTTP client and the clock are not modelled. The day's rows, the repository details fetch and the current time are parameters.
- JSON decoding is not modelled. Payloads are a `Payload` datatype, either a decoded JSON value or malformed text.
- Concurrency is not modelled: statements run one at a time.
- Races on the database's unique constraints are not modelled. The constraints themselves are modelled as the insert failing on a duplicate GitHub event id, contribution id, GitHub id or GitHub repository id.
- The created_at/updated_at columns the database fills in are not modelled. The users' password, current_active_goal_id, is_deleted and deleted_at columns are not stored in the model's rows; their number counts in UserRepo.ScanUser.
- internal/app/user/service.go's `UpdateUserCurrentBalance` is not part of this model. UserRepo.UpdateUserCurrentBalanceOn assumes it adds the transaction's amount to its user's balance.
- HandleRepositoryCreation of the repository service is not part of this model. RepositoryService.HandleRepositoryCreationOn assumes get-or-create by GitHub repository id, with the details fetch as a parameter.
- The goal repository is not part of this model. Its results are parameters:
  - the goal level rows, the Custom goal's id, the user's targets, the active level and the type of a score id;
  - its target insert is assumed to append a row with the next id.
- The repository-level GetContributionTypeSummaryForMonth is not part of this model; it is the parameter `summaryFor`.
- Classifier.GetContributionType: a type assertion that would panic is excluded by its requires. Classifier.ClassifyEvent is the total version the pipeline uses.
- Helper.ValidateMonthQueryParam accepts month 0, as the code does.
- BadgeService.HandleBadgeCreationOn: after creating a badge it returns an empty badge and no error, as the code's fall-through does.
- BadgeService.HandleBadgeCreationAsWrittenOn exists only as a function. A method version would have a branch that can never run.

## Findings

| source | as written | input that shows it | evidently intended | confidence | as-written member | corrected member |
|---|---|---|---|---|---|---|
| internal/repository/badge.go:52-56 | every lookup error, sql.ErrNoRows included, is replaced by ErrBadgeCreationFailed, so HandleBadgeCreation's ErrNoRows branch never runs | a user with no badge this month: no badge is created and the call fails | pass sql.ErrNoRows through so the badge gets created | high, not executed | BadgeService.BadgeNeverCreatedAsWritten | BadgeRepo.GetUserCurrentMonthBadge |
| internal/app/transaction/service.go:41-46 | the deferred handler assigns the commit error to a local `err`, which the unnamed results never return | COMMIT fails after the insert and the balance update succeed: success is returned but nothing is stored | report the commit failure | high, not executed | TransactionService.CommitFailureReportedAsSuccess | TransactionService.CreateTransactionOn |
| internal/repository/contribution.go:164 | the monthly summary query has three placeholders but the call binds only the user id and the month | any call: the driver rejects it | bind the user id, the year and the month | high, not executed | ContributionRepo.MonthlySummaryAsWrittenAlwaysFails | ContributionRepo.ListMonthlyContributionSummary |
| internal/app/contribution/service.go:173-175 | `issue["state_reason"].(string)` panics when state_reason is JSON null | an IssueCommentEvent on an open issue | read the field only when it is a string | medium, not executed | Classifier.OpenIssueCommentPanics | Classifier.ClassifyEvent |
| internal/repository/user.go:118 | GetUserById runs the lookup by github_id | user 1 with GitHub id 42: GetUserById(1) returns ErrUserNotFound | look the user up by id | high, not executed | UserRepo.GetUserByIdAsWrittenMisses | UserRepo.GetUserById |
| internal/repository/repository.go:240-249 | the contribution rows are scanned into 9 destinations, leaving out github_event_id of the 10 columns | a user with a contribution in the repository: Scan fails | scan every column of the row | medium, not executed | RepositoryRepo.FetchUserContributionsInRepoAsWritten | RepositoryRepo.FetchUserContributionsInRepo |
| internal/repository/user.go:89-101 | a users row has 14 columns (internal/repository/domain.go:5-20) but CreateUser and both lookups scan 11 destinations, and the scan error is not sql.ErrNoRows | a registered user looked up by GitHub id: ErrInternalServer; CreateUser of a new user: the row is stored and ErrUserCreationFailed returned | scan one destination per column | medium, not executed | UserRepo.UserScanFailsAsWritten | UserRepo.GetUserByGithubId |
