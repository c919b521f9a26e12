# Saved companies and saved jobs

This project models the two "saved items" services of the 104 job bank and
the two repositories they sit on.

- **SavedCompanyService** keeps a user's saved companies. `list` reads the
  user's company numbers (custnos) through a read-through cache. There are two
  cache entries per user: all saved companies, and the subscribed ones only.
  `batchCreate`, `batchDelete`, `batchSubscribe` and `batchUnsubscribe` first
  read the list. They then pick the custnos to act on, write the
  `interest_company` table through `InterestCompanyRepository`, and forget the
  cache entries that the write made stale. A user may keep at most 200 saved
  companies. Going over the limit raises an `ExceedLimitException` with code
  37101.
- **SavedJobService** keeps a user's saved jobs, with one cache entry per
  user and the `nsbuffet2` table behind `NsBuffetRepository`. On a cache miss
  `list` asks the job search which of the saved jobs are still open (`onJobs`)
  or recently closed (`offJobs`) and lists only those. `batchCreate` first
  reads the list, inserts the requested jobs not listed, and forgets the
  user's entry; going over the limit raises code 37001. `batchDelete` does not
  read the list: it deletes the requested jobnos and forgets the user's entry
  when a row was removed.

How the model is organised:

- **Tables** are sequences of rows. A repository is a class whose `rows` field
  its methods replace.
- **Finds** are pure functions: select the user's rows, sort them newest first
  with a stable insertion sort, and project them.
- **Services** are classes that hold the repository and the cache, a
  `map<string, seq<…>>`. A ghost `trace` records the repository reads, the
  writes, the job-search calls, and each cache put and forget, in order.
  `SavedJobService` also holds the job search's two lookups as functions.
- **Each service method** states its new state exactly, as a function of the
  old state.
- **Coherence.** The invariant is that every cache entry equals what the
  repository would answer now (`CoherentWith`, `JobCoherentWith`). Every
  operation is proved to preserve it. From a coherent cache, the effect of each
  batch operation on the user's lists is stated in terms of membership.
- **Loops.** The `foreach` loops become methods with `while`/`for` loops:
  `insertMany`'s row building, and `list`'s copying of valid jobs.

Modules:

- `Seqs`: filter, map, stable sort, and how they commute.
- `CacheKeys`: decimal rendering and the cache keys.
- `SavedErrors`: error codes and the limit.
- `CompanyRepository`, `JobRepository`: the two repositories.
- `CompanyService`, `JobService`: the two services.

The two repositories have the same shape, so `JobRepository` repeats a few of
`CompanyRepository`'s lemmas (`InsertOwned`, `DeleteCount`, `DeleteNothing`)
over job rows.

## Model

| member | source | states |
|---|---|---|
| `CompanyRepository.FindByIdNo` | src/Saved/Repositories/InterestCompanyRepository.php:23-33 | findByIdNo: the custnos of the user's rows (only those with notify 1 when the flag is exactly 1), newest first; one entry per selected row. Order and permutation are proved in `FindByIdNoOrdered`, membership in `FindByIdNoMembership` |
| `CompanyRepository.FindByIdNoOrdered` | src/Saved/Repositories/InterestCompanyRepository.php:23-33 | findByIdNo answers the custnos of a permutation of the selected rows, ordered by input_date, newest first |
| `CompanyRepository.SelectedMembership` | src/Saved/Repositories/InterestCompanyRepository.php:25-28 | a row is selected iff it belongs to the user and, when the flag is exactly FLAG_LIST_SUBSCRIBED, has notify 1 |
| `CompanyRepository.FindByIdNoMembership` | src/Saved/Repositories/InterestCompanyRepository.php:23-33 | a custno is in the answer iff one of the user's selected rows carries it |
| `CompanyRepository.SubscribedViewIsSubsequence` | src/Saved/Repositories/InterestCompanyRepository.php:26-31 | the subscribed list is the all-companies list with the unsubscribed entries removed, in the same order |
| `CompanyRepository.NewRows` | src/Saved/Repositories/InterestCompanyRepository.php:43-50 | insertMany writes one row per custno, in input order, with the user, the custno and the insertion time |
| `CompanyRepository.BuildRows` | src/Saved/Repositories/InterestCompanyRepository.php:43-50 | the foreach builds exactly those rows |
| `CompanyRepository.InterestCompanyRepository.InsertMany` | src/Saved/Repositories/InterestCompanyRepository.php:41-54 | the table gains those rows at the end, and the answer is the number of custnos given |
| `CompanyRepository.InterestCompanyRepository.DeleteMany` | src/Saved/Repositories/InterestCompanyRepository.php:62-67 | the user's rows with a listed custno are removed, and the answer is how many were removed |
| `CompanyRepository.InterestCompanyRepository.UpdateNotify` | src/Saved/Repositories/InterestCompanyRepository.php:76-83 | notify is set on the user's rows with a listed custno, and the answer is how many rows matched |
| `CompanyRepository.InsertOwned` | src/Saved/Repositories/InterestCompanyRepository.php:41-54 | after an insert, the user's rows are the old ones followed by the new ones; other users' rows are unchanged |
| `CompanyRepository.InsertKeepsSubscribedViews` | src/Saved/Repositories/InterestCompanyRepository.php:41-54 | new rows are unsubscribed, so no subscribed list changes |
| `CompanyRepository.InsertKeepsOtherUsers` | src/Saved/Repositories/InterestCompanyRepository.php:41-54 | an insert for one user leaves every list of every other user unchanged |
| `CompanyRepository.InsertGrowsSavedView` | src/Saved/Repositories/InterestCompanyRepository.php:41-54 | after an insert, the saved list is longer by the number of custnos and holds exactly the old entries plus the inserted custnos |
| `CompanyRepository.DeleteCount` | src/Saved/Repositories/InterestCompanyRepository.php:62-67 | the count deleteMany reports is the number of rows that disappear |
| `CompanyRepository.DeleteNothing` | src/Saved/Repositories/InterestCompanyRepository.php:62-67 | a delete that matches no row leaves the table unchanged |
| `CompanyRepository.DeleteRowsMembership` | src/Saved/Repositories/InterestCompanyRepository.php:64-66 | a row survives iff it is not a row of the user with a listed custno |
| `CompanyRepository.DeleteKeepsOtherUsers` | src/Saved/Repositories/InterestCompanyRepository.php:62-67 | a delete for one user leaves every list of every other user unchanged |
| `CompanyRepository.DeleteEffect` | src/Saved/Repositories/InterestCompanyRepository.php:62-67 | after a delete, no listed custno is saved, and every other custno is saved iff it was before |
| `CompanyRepository.DeleteSavedMatches` | src/Saved/Repositories/InterestCompanyRepository.php:62-67 | deleting a listed custno that is saved removes at least one row |
| `CompanyRepository.UpdateOwned` | src/Saved/Repositories/InterestCompanyRepository.php:76-83 | updateNotify changes no one else's rows, and does not change the user's custnos, dates or order |
| `CompanyRepository.UpdateKeepsSavedViews` | src/Saved/Repositories/InterestCompanyRepository.php:76-83 | updateNotify leaves every all-companies list unchanged |
| `CompanyRepository.UpdateKeepsOtherUsers` | src/Saved/Repositories/InterestCompanyRepository.php:76-83 | an update for one user leaves every list of every other user unchanged |
| `CompanyRepository.UpdatedSubscribedRow` | src/Saved/Repositories/InterestCompanyRepository.php:76-83 | a custno subscribed after the update was either listed, with notify 1 and saved, or unlisted and already subscribed |
| `CompanyRepository.UpdatedRowSubscribed` | src/Saved/Repositories/InterestCompanyRepository.php:76-83 | a row of the user that the update sets to 1, or leaves at 1, is subscribed afterwards |
| `CompanyRepository.UpdateEffect` | src/Saved/Repositories/InterestCompanyRepository.php:76-83 | after the update, a listed custno is subscribed iff notify is 1 and it is saved; an unlisted custno keeps its subscription state |
| `CacheKeys.CompanyListCacheKey` | src/Saved/Services/SavedCompanyService.php:171-178 | getListCacheKey: the key is the subscribed key iff the flag is truthy (non-zero) and the all-companies key iff it is zero |
| `CacheKeys.JobListCacheKey` | src/Saved/Services/SavedJobService.php:128-131 | getListCacheKey: the key is `saved_job_list_0927_` followed by the user's id_no in decimal: the suffix reads back as id_no under the decimal reading `DecimalValue`, after a minus sign when id_no is negative |
| `CacheKeys.NatToString` | src/Saved/Services/SavedJobService.php:130 | the digits PHP's `.` writes for a non-negative int: at least one, all decimal digits, and no leading zero unless the number is 0 |
| `CacheKeys.NatToStringDecimal` | src/Saved/Services/SavedJobService.php:130 | the digits the key appends for `$idNo` read back as `$idNo` in decimal, as PHP's `.` renders an int |
| `CacheKeys.JobListCacheKeyExamples` | src/Saved/Services/SavedJobService.php:128-131 | the keys of users 1070 and -5 are `saved_job_list_0927_1070` and `saved_job_list_0927_-5` |
| `CacheKeys.CompanyListCacheKeyInjective` | src/Saved/Services/SavedCompanyService.php:171-178 | two company keys are equal iff they are for the same user and the flags agree on being zero |
| `CacheKeys.JobListCacheKeyInjective` | src/Saved/Services/SavedJobService.php:128-131 | two job keys are equal iff they are for the same user |
| `CacheKeys.JobAndCompanyKeysDisjoint` | src/Saved/Services/SavedJobService.php:15 | no job key equals any company key |
| `CompanyService.NewCustNos` | src/Saved/Services/SavedCompanyService.php:73-75 | batchCreate acts on exactly the requested custnos that are not saved |
| `CompanyService.SavedAndRequested` | src/Saved/Services/SavedCompanyService.php:97 | batchDelete acts on exactly the saved custnos that are requested |
| `CompanyService.SubscribeTargets` | src/Saved/Services/SavedCompanyService.php:124-129 | batchSubscribe acts on exactly the requested custnos that are saved and not subscribed |
| `CompanyService.UnsubscribeTargets` | src/Saved/Services/SavedCompanyService.php:152-154 | batchUnsubscribe acts on exactly the requested custnos that are subscribed |
| `CompanyService.SavedCompanyService.constructor` | src/Saved/Services/SavedCompanyService.php:22-28 | the service holds the given repository and cache |
| `CompanyService.SavedCompanyService.List` | src/Saved/Services/SavedCompanyService.php:38-51 | a hit answers the cached entry and does nothing else; a miss answers findByIdNo, records the query, and stores a non-empty answer |
| `CompanyService.SavedCompanyService.BatchCreate` | src/Saved/Services/SavedCompanyService.php:61-84 | throws 37101 when the list plus the raw request exceed 200; returns 0 when nothing is new; otherwise inserts the new custnos and forgets only the all-companies key. Preserves coherence. From a coherent cache, no returning call leaves more than 200 saved |
| `CompanyService.SavedCompanyService.BatchDelete` | src/Saved/Services/SavedCompanyService.php:94-109 | deletes the saved requested custnos; if rows were removed, forgets the all-companies key and then the subscribed key. Preserves coherence. From a coherent cache, afterwards a custno is saved iff it was saved and not requested |
| `CompanyService.SavedCompanyService.BatchSubscribe` | src/Saved/Services/SavedCompanyService.php:119-138 | sets notify 1 on the targets and forgets only the subscribed key. Preserves coherence. From a coherent cache, afterwards a requested custno is subscribed iff it was saved, and an unrequested one keeps its state |
| `CompanyService.SavedCompanyService.BatchUnsubscribe` | src/Saved/Services/SavedCompanyService.php:148-163 | sets notify 0 on the targets and forgets only the subscribed key. Preserves coherence. From a coherent cache, afterwards a custno is subscribed iff it was subscribed and not requested |
| `CompanyService.ListAnswersRepository` | src/Saved/Services/SavedCompanyService.php:38-51 | from a coherent cache, with flag 0 or 1, list answers what findByIdNo answers and leaves the cache coherent |
| `CompanyService.InsertKeepsCoherent` | src/Saved/Services/SavedCompanyService.php:80-81 | an insert followed by forgetting the user's all-companies key keeps the cache coherent |
| `CompanyService.DeleteKeepsCoherent` | src/Saved/Services/SavedCompanyService.php:102-106 | a delete followed by forgetting both of the user's keys keeps the cache coherent |
| `CompanyService.UpdateKeepsCoherent` | src/Saved/Services/SavedCompanyService.php:134-135 | a notify update followed by forgetting the user's subscribed key keeps the cache coherent |
| `CompanyService.BatchCreateKeepsCoherent` | src/Saved/Services/SavedCompanyService.php:61-84 | from a coherent cache, batchCreate reads the repository's list; when the limit test passes, its writes keep coherence and leave at most 200 saved |
| `CompanyService.BatchDeleteKeepsCoherent` | src/Saved/Services/SavedCompanyService.php:94-109 | from a coherent cache, batchDelete's writes keep coherence, and afterwards the saved custnos are the old ones minus the requested ones |
| `CompanyService.BatchSubscribeKeepsCoherent` | src/Saved/Services/SavedCompanyService.php:119-138 | from a coherent cache, batchSubscribe's writes keep coherence, with the subscription effect above |
| `CompanyService.BatchUnsubscribeKeepsCoherent` | src/Saved/Services/SavedCompanyService.php:148-163 | from a coherent cache, batchUnsubscribe's writes keep coherence, with the unsubscription effect above |
| `CompanyService.DeleteRequestedEffect` | src/Saved/Services/SavedCompanyService.php:96-102 | deleting the saved requested custnos leaves saved exactly the custnos that were saved and not requested |
| `CompanyService.SubscribeRequestedEffect` | src/Saved/Services/SavedCompanyService.php:121-134 | subscribing the targets leaves every requested saved custno subscribed, and every other custno as it was |
| `CompanyService.UnsubscribeRequestedEffect` | src/Saved/Services/SavedCompanyService.php:150-159 | unsubscribing the targets leaves subscribed exactly the custnos that were subscribed and not requested |
| `CompanyService.SubscribedWithinSaved` | src/Saved/Repositories/InterestCompanyRepository.php:25-28 | every subscribed custno is a saved custno |
| `CompanyService.FlagTwoStoresSavedListUnderSubscribedKey` | src/Saved/Services/SavedCompanyService.php:173 | list with flag 2 stores the all-companies answer under the subscribed key, which breaks coherence |
| `CompanyService.RepeatedCustNosAllInserted` | src/Saved/Services/SavedCompanyService.php:73-80 | an unsaved custno repeated within one batch reaches insertMany once per repetition |
| `CompanyService.LimitCountsAlreadySaved` | src/Saved/Services/SavedCompanyService.php:65-71 | the limit counts the raw request: with 200 saved, re-saving one of them throws although nothing would be inserted |
| `JobRepository.FindByIdNo` | src/Saved/Repositories/NsBuffetRepository.php:17-23 | findByIdNo: one saved job per row of the user, newest first. Order and permutation are proved in `FindByIdNoOrdered`, membership in `FindByIdNoMembership` |
| `JobRepository.FindByIdNoOrdered` | src/Saved/Repositories/NsBuffetRepository.php:17-23 | findByIdNo answers a permutation of the user's rows as saved jobs, ordered by input_date, newest first |
| `JobRepository.FindByIdNoMembership` | src/Saved/Repositories/NsBuffetRepository.php:17-23 | a saved job is in the answer iff one of the user's rows records it |
| `JobRepository.SavedJobNoMembership` | src/Saved/Repositories/NsBuffetRepository.php:19-21 | a jobno is saved for the user iff one of the user's rows carries it |
| `JobRepository.NewRows` | src/Saved/Repositories/NsBuffetRepository.php:40-47 | insertMany writes one row per job, in input order, with the user, the jobno, the custno and the insertion time |
| `JobRepository.BuildRows` | src/Saved/Repositories/NsBuffetRepository.php:40-47 | the foreach builds exactly those rows |
| `JobRepository.NsBuffetRepository.InsertMany` | src/Saved/Repositories/NsBuffetRepository.php:37-51 | the table gains those rows at the end, and the answer is the number of jobs given |
| `JobRepository.NsBuffetRepository.DeleteMany` | src/Saved/Repositories/NsBuffetRepository.php:59-64 | the user's rows with a listed jobno are removed, and the answer is how many were removed |
| `JobRepository.InsertOwned` | src/Saved/Repositories/NsBuffetRepository.php:37-51 | after an insert, the user's rows are the old ones followed by the new ones; other users' rows are unchanged |
| `JobRepository.InsertKeepsOtherUsers` | src/Saved/Repositories/NsBuffetRepository.php:37-51 | an insert for one user leaves every other user's saved jobs unchanged |
| `JobRepository.InsertGrowsView` | src/Saved/Repositories/NsBuffetRepository.php:37-51 | after an insert, the user has one more saved job per requested job, and the new ones are the requested jobnos stamped with the insertion time |
| `JobRepository.InsertThenFind` | src/Saved/Repositories/NsBuffetRepository.php:17-51 | with the model's convention of one timestamp per batch and ties in table order, saving a batch for a user with nothing saved, in a table that may hold other users' rows, and reading it back gives the requested jobnos in input order, all stamped with that timestamp |
| `JobRepository.DeleteCount` | src/Saved/Repositories/NsBuffetRepository.php:59-64 | the count deleteMany reports is the number of rows that disappear |
| `JobRepository.DeleteNothing` | src/Saved/Repositories/NsBuffetRepository.php:59-64 | a delete that matches no row leaves the table unchanged |
| `JobRepository.DeleteKeepsOtherUsers` | src/Saved/Repositories/NsBuffetRepository.php:59-64 | a delete for one user leaves every other user's saved jobs unchanged |
| `JobRepository.DeleteEffect` | src/Saved/Repositories/NsBuffetRepository.php:59-64 | after a delete, no saved job has a listed jobno, and every other saved job remains |
| `JobService.ValidJobNosAsWritten` | src/Saved/Services/SavedJobService.php:140-148 | validJobFilter as written: index by index, the open jobno where the open list reaches, and the closed jobno beyond it |
| `JobService.ValidJobNos` | src/Saved/Services/SavedJobService.php:134-140 | the intended filter: a jobno is valid iff it is open or closed |
| `JobService.AsWrittenDropsClosedJobs` | src/Saved/Services/SavedJobService.php:147 | with at least as many open jobs as closed ones, the written filter drops every closed job that is not also open, and the intended filter keeps it |
| `JobService.AsWrittenCounterexample` | src/Saved/Services/SavedJobService.php:147 | open [101] and closed [202]: the written filter answers [101], the intended one [101, 202] |
| `JobService.AsWrittenWithinIntended` | src/Saved/Services/SavedJobService.php:147 | everything the written filter keeps, the intended filter keeps too |
| `JobService.JobNos` | src/Saved/Services/SavedJobService.php:48 | array_column keeps one jobno per saved job, in order |
| `JobService.JobNosMembership` | src/Saved/Services/SavedJobService.php:48 | a jobno is in the column iff some saved job carries it |
| `JobService.Displayed` | src/Saved/Services/SavedJobService.php:51-58 | a saved job is listed iff its jobno is valid, in at most as many entries as there are saved jobs |
| `JobService.BuildSavedList` | src/Saved/Services/SavedJobService.php:50-58 | the foreach copies exactly the saved jobs with a valid jobno, in order |
| `JobService.NewJobs` | src/Saved/Services/SavedJobService.php:92-94 | batchCreate acts on exactly the requested jobs whose jobno is not listed |
| `JobService.SavedJobService.constructor` | src/Saved/Services/SavedJobService.php:23-31 | the service holds the given repository, job search and cache |
| `JobService.SavedJobService.List` | src/Saved/Services/SavedJobService.php:40-64 | a hit answers the cached entry and does nothing else; a miss answers the saved jobs the job search reports open or closed, records the query and the search, and stores a non-empty answer |
| `JobService.SavedJobService.BatchCreate` | src/Saved/Services/SavedJobService.php:80-103 | throws 37001 when the list plus the raw request exceed 200; returns 0 when nothing is new; otherwise inserts the new jobs and forgets the user's key. Preserves coherence. From a coherent cache, afterwards every requested job is saved |
| `JobService.SavedJobService.BatchDelete` | src/Saved/Services/SavedJobService.php:113-121 | deletes the user's rows with a requested jobno and forgets the user's key iff a row was removed. Preserves coherence. Afterwards a job is saved iff it was and its jobno was not requested |
| `JobService.ListFor` | src/Saved/Services/SavedJobService.php:47-58 | list's miss path: the saved jobs, in repository order, whose jobno the job search reports open or closed; never more entries than saved jobs. Membership is proved in `ListForMembership`, order in `ListForOrdered` |
| `JobService.ListForMembership` | src/Saved/Services/SavedJobService.php:47-58 | a job is listed iff the user saved it and the job search reports it open or closed; a deleted job is never listed |
| `JobService.ListForOrdered` | src/Saved/Services/SavedJobService.php:47-58 | the list keeps the repository's order, newest first |
| `JobService.JobListAnswersRepository` | src/Saved/Services/SavedJobService.php:40-64 | from a coherent cache, list answers what a miss computes and leaves the cache coherent |
| `JobService.InsertKeepsJobCoherence` | src/Saved/Services/SavedJobService.php:99-100 | an insert followed by forgetting the user's key keeps the cache coherent |
| `JobService.DeleteKeepsJobCoherence` | src/Saved/Services/SavedJobService.php:115-118 | a delete that removes rows, followed by forgetting the key, keeps the cache coherent; a delete that removes nothing leaves the table unchanged |
| `JobService.DeleteMakesEffect` | src/Saved/Services/SavedJobService.php:115 | after batchDelete, a job is saved iff it was saved and its jobno was not requested |
| `JobService.BatchCreateKeepsJobCoherence` | src/Saved/Services/SavedJobService.php:80-103 | from a coherent cache, batchCreate reads what a miss computes, its writes keep coherence, and every requested job ends up saved |
| `JobService.RepeatedJobsAllInserted` | src/Saved/Services/SavedJobService.php:92-99 | an unlisted job repeated within one batch reaches insertMany once per repetition |
| `JobService.LimitCountsOnlyListedJobs` | src/Saved/Services/SavedJobService.php:82-90 | the limit counts listed jobs, not saved rows: when the job search knows none of the saved jobs, only the request is counted |
| `Seqs.SortIsSorted` | src/Saved/Repositories/InterestCompanyRepository.php:30 | the stable insertion sort that models orderByDesc answers a sequence ordered newest first |
| `Seqs.SortPermutes` | src/Saved/Repositories/InterestCompanyRepository.php:30 | the sort answers a permutation of its input |

## Left out

- Eloquent, the database and the Laravel cache are modelled as values: a sequence of rows, and a map from key to list. Queries and writes are atomic, and there is no concurrency between requests.
- `Carbon::now()` is a parameter `now`. One `now` stamps the whole batch of an `insertMany`, where the source reads the clock once per row. A batch that crosses a clock tick therefore reads back newest first in the source, while the model gives all its rows one date.
- The cache TTL of 180 seconds is not modelled. Entries never expire, and the model has no clock.
- Exceptions from the database or the cache are not modelled. The only exception modelled is `ExceedLimitException`.
- The job search (`JobSearch::onJobs`/`offJobs`) is two fixed functions from jobnos to jobnos, given to the service's constructor. The model does not capture answers that change over time. Coherence is stated against the job search as it answers now.
- SQL does not fix the order of rows with the same `input_date`. The model keeps table order for ties.
- Rows that `insertMany` writes for `interest_company` get notify 0. The source leaves the column to the database default.
- No primary-key or uniqueness constraint is modelled, so an insert never fails.
- CompanyRepository.InterestCompanyRepository.UpdateNotify: the count is the number of matching rows. MySQL reports only the rows whose value changed.
- Integers are unbounded. PHP integers are 64-bit, which none of these operations approaches.
- PHP's loose comparisons (`in_array` without strict mode, and `array_intersect`, which compares string forms) are modelled as integer equality.
- `NsBuffetRepository::findByIdNo` plucks only `jobno`, but `SavedJobService::list` reads `jobno` and `input_date` from each entry. The model's findByIdNo answers both fields, as the service expects.
- CompanyService.SavedCompanyService.List: the coherence property is stated only for flags 0 and 1, the values `subscriptionFlag` documents. For other flags, `FlagTwoStoresSavedListUnderSubscribedKey` shows that coherence breaks.
- CompanyService.SavedCompanyService.BatchDelete: the source forgets the two keys one after the other. The model removes both in one map update and records two `Forget` events.
- JobService.SavedJobService.BatchCreate: the bound of 200 is not stated about the table, because the limit counts listed jobs only (`LimitCountsOnlyListedJobs`). Its limit count and its duplicate filter read the list through `List`, so they see the intended listing. With the written filter, a saved job that is now closed and sits at an index below the length of the open list is not listed: it is not counted toward 200, and saving it again inserts a second row.
- JobService.SavedJobService.List: it uses the intended `validJobFilter` (`ValidJobNos`). The written one is `ValidJobNosAsWritten`; see Findings.

## Findings

| source | as written | input that shows it | evidently intended | confidence | as-written member | corrected member |
|---|---|---|---|---|---|---|
| src/Saved/Services/SavedJobService.php:147 | `$onJobNos + $offJobNos` is PHP's array union by key. Both operands are lists indexed from 0, so a closed jobno survives only at an index beyond the end of the open list. | open jobs [101] and closed jobs [202]: the filter answers [101], so saved job 202 is not listed | the open jobs together with the closed ones, as the method's comment says (line 134) | high; not executed | `JobService.ValidJobNosAsWritten` | `JobService.ValidJobNos` |
