# Verification of genpic's stateful core

genpic is a gateway for image generation. This project models the parts of it that hold state,
run over many steps or do exact arithmetic, in Dafny, and proves what they keep:

- **Storage quota and uploads.** `Quota` is the ledger transaction and the quota check,
  `UploadSystem` lets any number of uploads interleave with each other and with administrators,
  `StorageTotals` accounts for every byte. `ObjStore`, `OutputUpload`, `ReferenceUpload` and
  `TemplateUpload` are the three upload loops with their compensation; `UploadRuns` shows that
  each of the three, however it ends, is a run of `UploadSystem`. `ObjectKeys` is the naming of
  objects.
- **Jobs.** `Jobs` and `JobStore` are the in-memory store (a slice of heap objects and an index
  of the same objects), `JobWalk`, `WalkRestarts` and `WalkExamples` the reader who follows
  cursors. `Generation` turns a provider's answer into a result and moves its images to the disk
  (`Artifacts`) and the object store, `JobRun` is the goroutine of one job, `JobLifecycle` all
  goroutines at once, and `JobsAndUploads` all of them together with all uploads.
- **Statistics.** `Percentile`, `StatRows`, `ModelStats` and `StatsBuckets`.
- **Admission, retry, fallback.** `RateLimit`, `Retry`, `Providers`, `Adapters`, `Fallback`,
  `DefaultChain`.
- **Routing, paging, thumbnails, data URLs.** `ModelRouting`, `RewriteClosure`, `Assets`,
  `Thumbnail`, `DataUrls`; `GoStrings` and `MapSums` are shared.

`dafny verify dfyconfig.toml` checks everything.

Imperative code is modelled imperatively: methods with loops and classes whose fields they
update, each proved against a specification function; the theorems are lemmas about those
functions, or about runs of step systems.

## Assumptions

- Clocks never go backwards. Random identifiers are hexadecimal and never repeat.
- A failed put stores nothing, a failed write leaves no file, and a delete succeeds. A transaction
  commits as a whole or changes nothing. A BIGINT column refuses a value out of its range. The
  bytes of one upload are in memory together, so they add up to less than 2^63.
- Rates, latencies and averages are exact reals. (For the rank of the 95th percentile this
  changes nothing: 0.95 n, rounded to a double, has the ceiling of 19 n / 20.)
- A Go string is the sequence of its code points; strings are valid UTF-8.
- What comes from outside is a parameter: clock readings, random draws, the network, base64 and
  image codecs, URL resolution, time formatting, the registry order, the outcome of each attempt.
- The quota check, the uploads' puts and the append are separate steps; `AdminModelStats` is one
  step of an unchanged store, as are all the calls behind one time series.

## What turned out not to hold as it is usually put

- The ledger's balance survives an append exactly when the batch's total fits an int64
  (`Quota.AppendKeepsBalance`, with a counterexample in `Quota.WrappedAppend`).
- The limiter admits the first call of every window, so "at most maxCalls" holds exactly for
  maxCalls at least 1 and a period that is not negative (`RateLimit.PromiseExactly`). For
  k >= 1 the bound (k+1) maxCalls can be lowered by one, and no further.
- Users stay within quota only while no administrator takes a quota below what is used
  (`UploadSystem.StepWithinQuota`).
- The retry client's jitter panics on its 36th retry (`Retry.PanicsExactly`): against a host that
  cannot be reached, exactly when 36 retries or more are allowed (`Retry.UnreachableHostPanics`).
  No configured client allows that many.
- A request that is rewritten to `gemini/w` before the fallback is answered by the Gemini model
  of w in every registry order exactly when w is trimmed, not empty, and none of the other
  registered providers' wire names (`RewriteClosure.RewriteIsClosed`); `gemini/gpt-image-2` and a
  value with a space before its wire name are configurations that fail
  (`RewriteClosure.SharedWireIsAmbiguous`, `RewriteClosure.SpacedWireIsLost`).
- The default fallback models are found with their own providers when every value of the 4K map is
  gemini/w with w slash-free (`DefaultChain.DefaultsAreFound`); a Gemini model with the wire name
  openai/gpt-image-2 would answer to the second of them too (`DefaultChain.SlashedWireAnswersToo`).
- A failed output upload deletes every key it tried. For a job that has stored nothing this
  restores the store (`OutputUpload.RestoredExactly`); uploading a job's images a second time and
  failing would lose those of the first time (`OutputUpload.SecondUploadLoses`).
- A walk over the job list serves the jobs of its first call, in order and once each, if and only if
  every call finds its cursor's job stored, or nothing but jobs that come after it
  (`WalkRestarts.ServedOnceExactly`, and `WalkRestarts.PageGoesOnExactly` for one call). Otherwise
  that call starts again from the newest job: it may serve a job twice
  (`WalkExamples.RestartServesAgain`), and such walks have no bound (`WalkExamples.NoBound`). Either
  way nothing that stays stored is missed (`WalkRestarts.AnyWalkIsComplete`).
- A job store survives a caller's update exactly when the update keeps the job's id
  (`JobStore.Memory.Update`).
- A model name that holds a NUL is shown in the statistics under a shorter model
  (`StatRows.ShownAsItself`); no two rows ever share model and provider.
- The two data URL readers accept different sets of URLs (`DataUrls.ReadDataURIExactly`,
  `DataUrls.StripDataURLExactly`).

## Model

| member | source | states |
|---|---|---|
| Quota.WrapSumIsWrappedSum | internal/userstorage/quota.go:54-60 | The sum accumulated in an int64, wrapping at each step, is the true sum wrapped once. |
| Quota.QuotaDb.AppendLedgerAfterUpload | internal/userstorage/quota.go:36-96 | A call either changes nothing, or appends one faithful row per upload row with unique ids and charges the locked account their sum, within its quota; it reports an exceeded quota exactly when used plus sum is above it. |
| Quota.QuotaDb.CheckQuota | internal/userstorage/quota.go:99-111 | The unlocked check answers for the account as it is now, and finds every registered user. |
| Quota.QuotaDb.AdminSetQuota | internal/userstorage/admin.go:98-120 | Changes only the user's quota, and only to one that is not negative; an existing user is reported missing exactly when the driver counts changed rows only and the quota is already the one asked for; when counting the rows fails the change stays. |
| Quota.QuotaDb.AdminAdjustQuota | internal/userstorage/admin.go:123-159 | Returns the new quota exactly when the whole transaction works and it is not negative, which for quotas in range is the exact sum; a missing user, a blank id or negative quota, and a failing transaction are told apart; changes only that quota, and nothing on any error. |
| Quota.SumForExtended | internal/userstorage/quota.go:64-87 | Appended rows add exactly their sizes to their owner's ledger sum and nothing to anyone else's. |
| Quota.AppendKeepsBalance | internal/userstorage/quota.go:36-96 | After a committed append every user's used bytes equal the sum of the user's ledger rows if and only if the batch's total fits an int64; the locked account is within its quota either way. |
| Quota.WrappedAppend | internal/userstorage/quota.go:54-63 | Two rows whose sizes wrap around commit although the quota is zero, and lose the balance. |
| UploadSystem.StepKeeps | internal/api/oss_materialize.go:228-320 | Every step of every upload and every administrator keeps the invariant that ties objects, ledger rows and accounts to upload phases. |
| UploadSystem.LedgerIsTrue | internal/userstorage/quota.go:36-96 | In every reachable state each user's used bytes are the sum of the user's rows, quotas are not negative, and each row's object is stored with exactly the recorded size. |
| UploadSystem.NoOrphans | internal/api/oss_materialize.go:307-316 | When no upload is under way the store holds exactly the objects of the ledger, whatever failed before. |
| UploadSystem.AbortedLeavesNothing | internal/api/oss_materialize.go:33-37 | A failed upload has left none of its objects in the store. |
| UploadSystem.StepWithinQuota | internal/userstorage/admin.go:98-159 | A step from a state where all users are within quota keeps them there if and only if it is not an administrator's step below the used bytes. |
| UploadSystem.QuotaHolds | internal/userstorage/quota.go:36-111 | However uploads with stale checks interleave, nobody is ever over quota unless an administrator has undercut someone. |
| StorageTotals.StepKeepsKeysOnce | internal/userstorage/quota.go:64-87 | No step makes the ledger record an object twice. |
| StorageTotals.StoreIsLedger | internal/api/oss_materialize.go:276-302 | A store holding exactly the ledger's objects holds exactly the ledger's bytes. |
| StorageTotals.BytesAreConserved | internal/userstorage/quota.go:36-96 | In every reachable state the bytes charged to all users are the bytes recorded; when no upload is under way they are also the bytes stored. |
| ObjStore.Fake.Put | pkg/objstore/objstore.go:66-73 | A put that works stores the body under the key and touches nothing else; one that fails stores nothing. |
| ObjStore.Fake.DeleteAll | internal/api/oss_materialize.go:33-37 | Removes exactly the trimmed forms of the listed keys. |
| ObjStore.Record | internal/api/oss_materialize.go:307-316 | Appends the rows, or takes every listed object back. |
| ObjStore.PutTracked | internal/api/oss_materialize.go:106-122 | One put with its URL: on success the object is stored and listed for compensation; when it is not put, or put and its URL not resolved, the store is as before the whole upload. |
| ObjStore.BlobsAreRecorded | internal/api/oss_materialize.go:276-302 | Rows of objects with distinct new keys record exactly what was added, once each and with exact sizes. |
| ObjStore.CheckedSizeIsCharged | internal/api/oss_materialize.go:64-88 | The size the check asks about is the size the ledger is charged. |
| ObjectKeys.KeyIsTrimmed | internal/api/oss_materialize.go:33-37 | Every written key is its own trimmed form, so compensation deletes what was put. |
| ObjectKeys.ThumbKeyOfPrimary | internal/userstorage/assets.go:88-102 | The thumbnail key derived from any primary output key is the one that was written for it. |
| ObjectKeys.ThumbHasNoThumb | internal/userstorage/assets.go:93-95 | A thumbnail key has no thumbnail key. |
| ObjectKeys.KeysOfOneJob | internal/api/oss_materialize.go:256-285 | Two objects of one job have the same key only if they are the same object, whatever the ids contain. |
| ObjectKeys.KeysNeverCollide | internal/api/oss_materialize.go:106-386 | Across users, jobs, runs and kinds a key names one object, when ids hold no slash. |
| OutputUpload.HostSlot | internal/api/oss_materialize.go:245-305 | One slot is hosted or left alone, or fails with the error its bytes, its put or its URL lead to; its rows match its objects, and all changes are under exactly the keys it tries. |
| OutputUpload.HostAll | internal/api/oss_materialize.go:245-305 | The loop serves every slot, or ends with the error of the first slot that blocks, having deleted every key tried. |
| OutputUpload.MaterializeJobOutputs | internal/api/oss_materialize.go:228-320 | On any error the database and the result are as before and the store has lost exactly the tried keys; the error is the first blocking slot's, or the ledger's; on success each slot is hosted or untouched in place, the store has gained exactly the hosted objects, and their rows were appended. |
| OutputUpload.RestoredExactly | internal/api/oss_materialize.go:254-303 | Deleting the tried keys restores the store if and only if none of them was stored before, which is so for a job that has not stored anything. |
| OutputUpload.SecondUploadLoses | internal/api/oss_materialize.go:254-268 | A second upload of a job whose put fails deletes the object of the first. |
| OutputUpload.BlobsAreKept | internal/api/oss_materialize.go:279-303 | What an upload adds is what it tries to put less the thumbnails whose put fails. |
| OutputUpload.OutputBlobsAreDistinct | internal/api/oss_materialize.go:256-285 | No two objects of one call share a key. |
| OutputUpload.OutputsAreServed | internal/api/oss_materialize.go:187-320 | After success each slot shows the URL of an object with exactly its own bytes, or was unreadable and is unchanged; a new thumbnail URL belongs to the object under the derived key; rows record exactly what was added. |
| ReferenceUpload.DecodeAll | internal/api/oss_materialize.go:64-79 | Stops at the first reference that does not decode, or returns all bodies and mime types in order with their total size. |
| ReferenceUpload.UploadReferenceImages | internal/api/oss_materialize.go:55-142 | All or nothing: on any error nothing has changed, and the error is the undecodable reference's, the check's, the first failing reference's (no identifier, not put, or no URL) or the ledger's; a refused check would have exceeded the quota by the exact total; on success there is one asset per reference, in order. |
| ReferenceUpload.ReferencesAreServed | internal/api/oss_materialize.go:94-130 | Each asset's URL and id are those of the row and object that hold the reference's own bytes; keys are distinct and new; the check asked for exactly what is charged. |
| TemplateUpload.DecodeAll | internal/api/oss_materialize.go:333-352 | The first pass decodes exactly the references with an image, in order, or names one that does not decode. |
| TemplateUpload.PutTemplates | internal/api/oss_materialize.go:366-411 | The second pass consumes the decoded bodies in step with the references; it never runs out of them. |
| TemplateUpload.DecodedSizeIsCharged | internal/api/oss_materialize.go:351-364 | The size summed by the first pass is the size of the rows of the second. |
| TemplateUpload.UploadTemplateReferences | internal/api/oss_materialize.go:323-423 | On any error nothing has changed and nothing is returned; a reference that does not decode is always an error, and any other is the check's, the first failing reference's or the ledger's; without an image the list is returned as it is; on success its objects are stored and recorded. |
| TemplateUpload.TemplatesAreServed | internal/api/oss_materialize.go:366-422 | Length and order are kept; each reference with an image becomes its mime type and the URL of its own bytes, any other passes through; keys are distinct and rows exact. |
| UploadRuns.UploadIsARun | internal/api/oss_materialize.go:228-320 | Begin, one attempt per object, then the append or the failing step and, on any failure, one delete per tried object form a run of the step system, which ends committed with the objects put, or aborted with store and database as at the start. |
| UploadRuns.OutputIsARun | internal/api/oss_materialize.go:228-320 | The upload of a job's images, whichever slot or thumbnail fails, reaches its store and its database by such a run, so the results about all interleavings apply to it. |
| UploadRuns.ReferenceIsARun | internal/api/oss_materialize.go:94-142 | The same for reference images, including a missing identifier, a failed put and an unresolved URL. |
| UploadRuns.TemplateIsARun | internal/api/oss_materialize.go:366-423 | The same for template images. |
| Jobs.ReadersAgree | internal/jobstore/store.go:249-390 | The record read by id, in a scope's list and in the operator's list is the same one; the scope lists it exactly when it contains it, and may read it by id exactly when it lists it or nobody owns it. |
| Jobs.LiveJobsMembers | internal/jobstore/store.go:331-345 | Eviction keeps exactly the jobs created after the cutoff. |
| JobStore.Memory.Create | internal/jobstore/store.go:229-246 | Appends the record with its id and creation time in a new heap object that index and slice share. |
| JobStore.Memory.Get | internal/jobstore/store.go:249-259 | Finds a record exactly when its id is stored, and returns the record of the slice. |
| JobStore.Memory.Update | internal/jobstore/store.go:264-272 | Changes the one record with the id in place, in the slice and in the index at once, and no other; index and slice stay consistent if and only if the update keeps the id. |
| JobStore.Memory.List | internal/jobstore/store.go:276-315 | The page and cursor of the scope's newest-first snapshot. |
| JobStore.Memory.AdminList | internal/jobstore/store.go:357-390 | The clamped page of all jobs, newest first, with the total. |
| JobStore.Memory.Evict | internal/jobstore/store.go:331-345 | Leaves exactly the live jobs and their objects, in order, in the same backing array, and the index of exactly their ids. |
| JobStore.Memory.SetVisibility | internal/jobstore/store.go:420-437 | Refuses an unknown id and a foreign owner, otherwise changes only the record's visibility, and its listing time when it first becomes public. |
| JobStore.Compact | internal/jobstore/store.go:336-343 | Writing into the slice that is being ranged over yields the order-preserving filter, and drops exactly the other ids from the index. |
| JobStore.CutPage | internal/jobstore/store.go:291-314 | The page after the first job with the cursor's id, or from the start when there is none, and the id of its last job when more follow. |
| JobStore.DeadIdsAreGone | internal/jobstore/store.go:336-344 | The evicted ids are those of no live job. |
| JobWalk.NoResurrection | internal/jobstore/store.go:229-345 | An id that has left the store does not return by any sequence of operations. |
| JobWalk.GrowAll | internal/jobstore/store.go:276-345 | Through creations, owner-preserving updates and evictions a scope's ids stay new ones before the surviving old ones, in order. |
| JobWalk.WalkIsComplete | internal/jobstore/store.go:276-315 | Following cursors to the end, each call in place, serves newest first and once each jobs present at the first call, and misses none that is still stored; a call is in place when its cursor's job is stored or nothing but jobs after it is. |
| JobWalk.WalkIsExact | internal/jobstore/store.go:276-315 | Without evictions of listed jobs the pages are exactly the scope's jobs at the first call. |
| JobWalk.WalkTerminates | internal/jobstore/store.go:276-315 | A walk whose calls are in place needs at most one call more than there were jobs. |
| WalkRestarts.AnyWalkIsComplete | internal/jobstore/store.go:276-345 | Whatever is evicted between the calls, the cursors' own jobs included, a walk that has ended misses no job of the first call that is still stored. |
| WalkRestarts.PageGoesOnExactly | internal/jobstore/store.go:276-315 | One call serves only jobs that come after its cursor if and only if the cursor's job is stored or nothing newer is left. |
| WalkRestarts.ServedOnceExactly | internal/jobstore/store.go:276-345 | A walk serves jobs of its first call only, in order and once each, if and only if every call is in place. |
| WalkExamples.RestartServesAgain | internal/jobstore/store.go:291-300 | There is a walk whose cursor's job is evicted and that serves a job a second time. |
| WalkExamples.NoBound | internal/jobstore/store.go:276-345 | Over a store of two jobs at a time there are walks of any length, when every call starts again. |
| Artifacts.MaterializeJobImages | internal/api/artifacts.go:41-87 | Either every slot with an encoded image shows its local file, in place, or the result is as before and the error is that of the first slot that fails; the files are exactly those of the slots before it. |
| Artifacts.WrittenIsRead | internal/api/oss_materialize.go:158-184 | A written slot's URL reads back exactly its bytes, with the mime type of its extension, whatever else the job has written. |
| Artifacts.LocalCopyHostsTheSame | internal/api/oss_materialize.go:158-205 | When a job's images are written to the disk first, the bytes and the key that the object store gets are as without. |
| Generation.ExecuteImageGeneration | internal/api/generate.go:193-233 | An expired or refused call is its error, an answer without images is an error, and any other is one slot per image without a thumbnail, with its tokens, its trimmed ids and effective names, and the wire name it went to. |
| Generation.RehostingKeepsSlots | internal/api/generate.go:382-415 | Wherever the images go, a result keeps all its slots and all it reports, an error stays that error, and an uploaded result has every slot served. |
| Generation.ResultAndStoreAgree | internal/api/generate.go:382-415 | A result that could not be kept has left store and ledger as they were; in one that was uploaded every slot was left alone as its image could not be fetched, or shows an object with exactly its own bytes. |
| JobRun.MaybeCommunityAutoPublic | internal/api/generate.go:365-379 | Publishes the job exactly when it is stored, owned, succeeded and its owner asked for it. |
| JobRun.FinalizeJobResult | internal/api/generate.go:300-362 | Stores the error's code and printed text, or the result and then the publication, in the one record. |
| JobRun.RehostOutputs | internal/api/generate.go:390-413 | The images go to the disk, to the object store of the job's owner, or to both in turn; an error of either replaces the result; files, store and ledger are as the two leave them. |
| JobRun.RunJob | internal/api/generate.go:382-415 | The goroutine marks the job running, asks for images, rehosts them for the owner it finds in the store, and finishes the one record; the job store and the ledger stay consistent. |
| JobRun.RunJobEffect | internal/api/generate.go:300-415 | The job ends failed with an error code and no new images, or succeeded with as many images as the provider answered and at least one, with the goroutine's times; all other records are unchanged. |
| JobRun.RunJobIsARun | internal/api/generate.go:300-415 | What a goroutine does to the records is a run of the step system, so the results about all interleavings apply to it. |
| JobLifecycle.StepKeeps | internal/api/generate.go:300-415 | Every step of every goroutine, eviction and visibility change keeps the records in step with their goroutines and only moves them forward. |
| JobLifecycle.LifecycleMovesForward | internal/api/generate.go:300-415 | Over every interleaving a status only moves from queued to running to final, a final record changes only in visibility, and an evicted job never comes back. |
| JobLifecycle.RecordsAreConsistent | internal/api/generate.go:207-415 | In every reachable state, whatever the providers answer and wherever the images go: final if and only if finished, started no later than finished, failed if and only if there is an error code, succeeded if and only if there are images. |
| JobLifecycle.EndedJobsAreFinal | internal/api/generate.go:382-415 | When its goroutine has ended, a stored job is in a final state. |
| JobsAndUploads.StepKeeps | internal/api/generate.go:382-415 | Every step of every goroutine, upload and administrator keeps uploaded results tied to committed uploads and shown by their records. |
| JobsAndUploads.UploadedImagesAreStored | internal/api/generate.go:300-415 | Over every interleaving of jobs, uploads, evictions and administrators the record of a succeeded job whose result was uploaded shows the uploaded slots, and every object behind them is stored with its exact size. |
| Percentile.SortFloat64s | internal/jobstore/model_stats.go:86-87 | The in-place sort yields the sorted arrangement of the same samples. |
| Percentile.Percentile95MS | internal/jobstore/model_stats.go:82-97 | Nothing for fewer than five samples, else the rounded sample at the rank; the caller's list is not modified. |
| Percentile.P95IsNearestRank | internal/jobstore/model_stats.go:82-97 | The value rounded is a sample, at least 95 percent of the samples are at most it, and no smaller value has that. |
| Percentile.AvgFloat | internal/jobstore/model_stats.go:99-109 | The rounded quotient of the total and the number of samples. |
| Percentile.AverageWithin | internal/jobstore/model_stats.go:99-109 | The average lies between the rounded bounds of the samples. |
| StatRows.ShownIsInjective | internal/jobstore/model_stats.go:28-30 | Distinct group keys are shown as distinct pairs of model and provider. |
| StatRows.ShownAsItself | internal/jobstore/model_stats.go:28-49 | A job is shown under its own model and provider if and only if its model holds no NUL. |
| StatRows.LessIsStrictWeakOrder | internal/jobstore/model_stats.go:69-80 | The comparator is irreflexive, asymmetric and transitive, and so is its being neither before nor after. |
| StatRows.LessTies | internal/jobstore/model_stats.go:70-79 | Two rows tie exactly when rate, failures and model agree. |
| StatRows.SortModelStatRows | internal/jobstore/model_stats.go:69-80 | The output is a permutation of the input in which no row precedes one that should come before it. |
| ModelStats.Group | internal/jobstore/model_stats.go:178-214 | The groups are exactly the keys of the window's finished jobs, each with what its jobs contribute. |
| ModelStats.AdminModelStats | internal/jobstore/model_stats.go:165-236 | The rows are those of all groups, once each in the comparator's order; an empty window has none. |
| ModelStats.GroupIsExact | internal/jobstore/model_stats.go:196-206 | A group's succeeded and failed are exact counts, and its failures by code are exact and add up to its failures. |
| ModelStats.RowsAreExact | internal/jobstore/model_stats.go:56-67 | Each row's counts are the exact numbers of in-window finished jobs shown under its model and provider; total, rate, codes and the sample flag are exact. |
| ModelStats.RowsAreDistinct | internal/jobstore/model_stats.go:216-233 | No two rows share model and provider, whatever the models contain. |
| ModelStats.EveryJobHasARow | internal/jobstore/model_stats.go:181-213 | Every finished job of the window is counted in a row, labelled with its own model and provider if and only if the model holds no NUL. |
| StatsBuckets.GenerateBucketStarts | internal/jobstore/model_stats.go:123-147 | Evenly spaced starts that cover the window, the first at or before its start, the last before its end. |
| StatsBuckets.ClippedBuckets | internal/jobstore/model_stats.go:260-272 | Clipped buckets are not empty, follow each other without gap or overlap, and fill the window. |
| StatsBuckets.FilterAndStripFailures | internal/jobstore/model_stats.go:285-309 | The sorted rows that pass the filter, without failure codes. |
| StatsBuckets.AdminModelStatsTimeseries | internal/jobstore/model_stats.go:239-283 | One bucket for each start, none skipped, holding the filtered rows of its clipped window; none for an unknown granularity or an empty window. |
| StatsBuckets.SummaryFigure | internal/jobstore/model_stats.go:165-236 | What a summary says of a model and provider is the exact count, zero when it does not mention them. |
| StatsBuckets.BucketsConserve | internal/jobstore/model_stats.go:239-309 | For every model and provider that pass the filter, succeeded and failed counts summed over all buckets are those of the whole window. |
| RateLimit.InMemory.Allow | pkg/ratelimit/ratelimit.go:46-58 | Answers as the history of all calls determines. |
| RateLimit.KeysAreIndependent | pkg/ratelimit/ratelimit.go:46-58 | Other keys' calls never change a key's answers. |
| RateLimit.IntervalIsBounded | pkg/ratelimit/ratelimit.go:46-58 | In any history with a clock that does not go back, a closed interval of at most k periods admits at most (k+1) maxCalls - 1 calls of a key for k >= 1, and maxCalls for k = 0. |
| RateLimit.BoundIsReached | pkg/ratelimit/ratelimit.go:46-58 | For every k from 1 up to the period some history reaches that bound. |
| RateLimit.PromiseExactly | pkg/ratelimit/ratelimit.go:46-58 | The bound (k+1) maxCalls holds of every history if and only if maxCalls is at least 1 and the period is not negative. |
| Retry.BaseIsCappedDoubling | pkg/httpclient/client.go:140-147 | Up to the 35th retry the base wait is 500 ms doubled each time and capped at 30 s; at the 36th it has overflowed to a negative one. |
| Retry.Do | pkg/httpclient/client.go:66-130 | The loop decides as the first attempt it does not get past, sends one request an attempt, at most one more than the retries allowed, and sleeps exactly the backoffs. |
| Retry.ResponseIsFirstSettled | pkg/httpclient/client.go:90-124 | A returned answer is the first that is not transient, or the last allowed attempt's; all earlier attempts were network failures or transient answers. |
| Retry.ExhaustedExactly | pkg/httpclient/client.go:126-129 | Exhaustion is reported if and only if no attempt is allowed or every one was passed, and then the last was a network failure. |
| Retry.PanicsExactly | pkg/httpclient/client.go:140-147 | The jitter panics if and only if at least 36 retries are allowed and the first 36 attempts are passed. |
| Retry.UnreachableHostPanics | pkg/httpclient/client.go:84-147 | Against a host that cannot be reached a client panics if and only if it may retry 36 times or more. |
| Retry.SleptIsBounded | pkg/httpclient/client.go:140-147 | r retries back off for less than 750 (2^r - 1) ms and less than 45 r s, and for at least r/2 s. |
| Retry.SentIsBounded | pkg/httpclient/client.go:66-130 | However the attempts turn out, at most one request more than the retries allowed is sent, and never more than 36. |
| Adapters.GeneratePerImage | internal/provider/gemini/gemini.go:117-233 | One exchange for each image asked for: all images in order, the tokens' sum and the last request id, or the first failing exchange's fault and no request after it. |
| Adapters.GenerateOnce | internal/provider/openai/openai.go:67-161 | A single exchange: its images, or its fault. |
| Adapters.CallSucceedsExactly | internal/provider/gemini/gemini.go:117-233 | A call that starts succeeds if and only if each exchange does, with at least one image for each where empty answers are refused; one that does not start makes no request and its fault is not tried elsewhere. |
| Adapters.CallWithinBudget | internal/provider/gemini/gemini.go:109-233 | A call makes at most one HTTP request more than its client's retries for each exchange. |
| Fallback.ResponseHasRenderableImages | internal/provider/xiangyun/xiangyun.go:81-91 | True exactly for a reply with at least one image and a URL or base64 text in every slot. |
| Fallback.Try | internal/provider/xiangyun/xiangyun.go:132-152 | Delivers the labelled reply exactly when it is renderable, else the fault of the entry. |
| Fallback.Generate | internal/provider/xiangyun/xiangyun.go:96-167 | Calls exactly the registered eligible entries up to the first decisive one, each with its own wire name and format, and returns that entry's outcome, or the last eligible entry's fault. |
| Fallback.NoBackendExactly | internal/provider/xiangyun/xiangyun.go:163-166 | Without an eligible entry nothing is called and the no-backend error is returned; with one, a fault is always that of an eligible entry. |
| Fallback.LastFaultIsLast | internal/provider/xiangyun/xiangyun.go:153-166 | The fault kept is that of the last eligible entry, and there is none exactly when no entry is eligible. |
| Fallback.CallsAreOfTriedEntries | internal/provider/xiangyun/xiangyun.go:100-132 | Calls are in order, once for each eligible registered entry, and never of the fallback itself. |
| Fallback.RequestsWithinBudget | internal/provider/xiangyun/xiangyun.go:96-167 | The HTTP requests behind a call are at most the sum, over the entries tried, of the exchanges asked for times one more than the retries of that entry's client. |
| DefaultChain.DefaultsAreFound | internal/provider/xiangyun/xiangyun.go:96-175 | In the started program, in every registry order and for every 4K map of slash-free values, the first default is found with Gemini or not at all, the second with OpenAI, the third with Wan. |
| DefaultChain.DefaultChainRequests | internal/provider/xiangyun/xiangyun.go:96-175 | In the started program the default chain makes at most 13 HTTP requests, and 7 for a single image. |
| DefaultChain.SlashedWireAnswersToo | internal/geminiconfig/geminiconfig.go:70-96 | A Gemini model with the wire name openai/gpt-image-2 and OpenAI's own may both answer to that id. |
| ModelRouting.Registry.ProviderForModel | pkg/provider/provider.go:218-229 | In whatever order the registry is visited: some provider's first model with that id or wire name, or nothing when there is none. |
| ModelRouting.Registry.AllModels | pkg/provider/provider.go:197-212 | Every registered id exactly once. |
| ModelRouting.Registry.Register | pkg/provider/provider.go:157-165 | Refuses a taken name and otherwise adds the provider. |
| ModelRouting.NormalizeImageSize4KModelMap | pkg/mvpconfig/config.go:439-456 | The entries whose key and value are not blank, with both normalised. |
| ModelRouting.GeminiConfig.Install | internal/geminiconfig/geminiconfig.go:18-39 | The installed map is the trimmed entries that are not blank. |
| ModelRouting.GeminiConfig.ExtraUpstreamWireModels | internal/geminiconfig/geminiconfig.go:70-96 | The wire names of the values, each once, none blank. |
| ModelRouting.NewGemini | internal/provider/gemini/gemini.go:78-106 | Registers the built-in and the extra wire names, each once, under its prefixed id. |
| ModelRouting.GeminiNamesAreDistinct | internal/provider/gemini/gemini.go:78-106 | Registered ids and wire names are each pairwise distinct, whatever the extras. |
| RewriteClosure.Start | cmd/genpic/main.go:314-352 | After the start the normalised map is installed unchanged, exactly OpenAI, Wan, Gemini and, when it is enabled, the fallback are registered, and Gemini serves the map when its values are gemini/w with w slash-free. |
| RewriteClosure.RegisteredExactly | internal/provider/gemini/gemini.go:85-106 | The model gemini/w of a value is registered if and only if w is trimmed and not empty. |
| RewriteClosure.FallbackRewriteIsClosed | internal/provider/xiangyun/xiangyun.go:105-115 | Inside the fallback a rewrite to gemini/w finds exactly the Gemini model with wire name w, in every registry order, when w is trimmed and not empty, and nothing otherwise. |
| RewriteClosure.DirectRewriteIsClosed | internal/api/generate.go:96-137 | Before the fallback a rewritten request asks for the bare w; in every registry order the answer is the Gemini model of w if and only if w is trimmed, not empty and no other provider's wire name. |
| RewriteClosure.RewriteIsClosed | internal/geminiconfig/geminiconfig.go:44-67 | Every rewrite of the started program leads to some gemini/w, which the fallback resolves to Gemini's model of w or to nothing, and a direct request to that model if and only if w is trimmed, not empty and not one of the wire names of the other registered providers. |
| RewriteClosure.SharedWireIsAmbiguous | internal/provider/openai/openai.go:43-62 | The configured value gemini/gpt-image-2 may be answered by OpenAI or by Gemini. |
| RewriteClosure.SpacedWireIsLost | internal/provider/gemini/gemini.go:85-106 | A configured value with a space before its wire name is answered by nobody. |
| Assets.ListingDescends | internal/userstorage/assets.go:57-61 | The query's order lists every matching row once, by creation time and id descending, also when many rows share a time. |
| Assets.CursorRoundTrip | internal/userstorage/assets.go:46-55 | The cursor's text reads back as its position if and only if the id does not end in white space. |
| Assets.ListUserAssets | internal/userstorage/assets.go:23-85 | The clamped page after the cursor and the cursor of its last row when more follow; an unreadable cursor asks for the first page. |
| Assets.PageServes | internal/userstorage/assets.go:57-84 | A page descends, holds only matching rows after the cursor, and leaves out only rows listed after its last one. |
| Assets.WalkIsComplete | internal/userstorage/assets.go:23-85 | Following cursors to the end reads every matching row present at the start exactly once, in descending order, whatever is appended meanwhile. |
| Assets.WalkIsExact | internal/userstorage/assets.go:23-85 | When nothing is appended the pages are the listing, cut up. |
| Assets.WalkTerminates | internal/userstorage/assets.go:23-85 | The walk has at most one page more than there are matching rows in the end. |
| Thumbnail.TargetBounds | internal/api/thumbnail.go:58-83 | Output edges lie between 1 and the limit and never exceed the source's; the longer is the limit unless the source fits; the shorter is the floor of exact scaling, or 1. |
| Thumbnail.TargetOfTarget | internal/api/thumbnail.go:58-83 | Resizing a thumbnail again keeps its size. |
| Thumbnail.SampleInside | internal/api/thumbnail.go:85-90 | Every sampled coordinate is inside the source, the first is its first. |
| Thumbnail.SampleStep | internal/api/thumbnail.go:85-90 | Neighbouring samples are as far apart as the scale, rounded down or up. |
| Thumbnail.SampleIncreases | internal/api/thumbnail.go:85-90 | Row and column maps are strictly increasing. |
| Thumbnail.FittingIsCopied | internal/api/thumbnail.go:67-75 | An image that fits is copied pixel for pixel. |
| Thumbnail.ResizeToMaxEdge | internal/api/thumbnail.go:58-93 | The picture has the target's size and every pixel is the sampled one; a picture without pixels becomes one blank pixel. |
| DataUrls.ReadDataURIExactly | internal/api/chatcompletions.go:279-305 | The chat reader recovers mime type and payload of a printed URL if and only if the mime type is trimmed and holds no semicolon and no comma. |
| DataUrls.StripDataURLExactly | pkg/refimages/refimages.go:60-77 | The reference reader recovers both if and only if the mime type holds no comma and does not start with white space and the payload is trimmed. |
| DataUrls.BothReadersRecover | internal/api/chatcompletions.go:279-328 | Both readers recover every image with a plain mime type and a trimmed payload. |
| DataUrls.Parse | pkg/refimages/refimages.go:27-58 | All inputs are accepted, in order, or none is. |
| DataUrls.PrintedImageIsAccepted | internal/api/chatcompletions.go:309-331 | An image printed into a chat answer is accepted as a reference and comes back as itself, by either reader. |

## Left out

- OutputUpload.MaterializeJobOutputs: the row that records a failed remote fetch is not modelled.
- Artifacts.WrittenIsRead: URLs that need unescaping or cleaning, and symbolic links in the directory, are not modelled.
- JobsAndUploads.UploadedImagesAreStored: speaks of sizes, as `UploadSystem` does; that the bytes are the slot's own is `Generation.ResultAndStoreAgree`.
- Assets.ListUserAssets: a row that cannot be scanned is skipped by the source; here every row scans. Query errors are left out.
- Fallback.Generate: the registry is fixed during one call.
- UploadSystem.LedgerIsTrue: a process that dies in the middle of an upload, and objects it leaves behind, are not modelled.
- Retry.Do: a cancelled wait is recorded with its full length; of a Retry-After wait only whether it ended by itself is modelled, not its length.
- ModelStats.AdminModelStats: a processing time beyond the range of a Go duration, about 292 years, would saturate there.
- The SQL text, the MySQL job store and the MySQL halves of the statistics rest on the server.
- `Memory.AdminStats` counts jobs by status and day; it would only add easy members.
- Time zones and daylight saving: the start of a day or hour is a parameter at or before its argument. Bucket labels are not modelled.
- Provider request building and parsing, redaction, sanitising, image and base64 codecs, remote fetching, DNS checks, HTTP handlers, cookies, configuration reading, logging and the web front end.
- `pkg/billing` and `pkg/idempotency`, which are not wired in.
