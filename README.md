# S3 bucket migration, modelled in Dafny

The program copies every object of a source S3 bucket into a destination
bucket, skipping objects the destination already holds. It reports one
result per object: `Copied`, `Skipped` or `Error`.

The model has four modules:

- `MigrationTypes` (`migration_types.dfy`) holds the options, the listed
  objects and the per-object results. It also holds two pieces of
  JavaScript behaviour the service depends on: thrown values (`Error`
  instances, each with a name and a message, or any other value) and the
  `||` default, which falls back on any falsy value.
- `S3Api` (`s3_api.dfy`) holds the three commands the service sends (list,
  head and copy) and the answers it reads. The client itself is replaced
  by data the caller supplies:
  - the source bucket's listing is the sequence of responses it gives, and
    the i-th list request is answered by the i-th response;
  - the destination's answers to head and copy requests are functions from
    the request to a completion (a return or a thrown value). These answers
    are fixed for the whole run: a copy does not change what a later head
    request reports.
- `S3Migration` (`s3_migration_service.dfy`) is the service. `ListObjects`
  and `Migrate` are methods with loops, proved against the specification
  functions `Listing`, `ListRequests`, `ProcessObject`, `Results`, `Calls`
  and `Migration`. Every command sent is recorded in order in `sent`, so
  the model can state which requests the service makes and how many.
- `Cli` (`cli.dfy`) is the entry point. It builds the configuration from an
  environment map, checks the bucket names, runs the migration and counts
  the results.

## Model

| member | source | states |
|---|---|---|
| `S3Migration.ObjectExists` | src/services/s3-migration.service.ts:123-137 | True exactly when the head request succeeds. False exactly when it throws an `Error` named `NotFound` or `NoSuchKey`. Any other failure is re-thrown unchanged, including a thrown value that is not an `Error`. |
| `S3Migration.CopySourceRoundTrip` | src/services/s3-migration.service.ts:116 | The copy source `bucket/key` names that bucket and key again when split at its first '/', for any bucket name without '/'. |
| `S3Migration.CopyObjectCommand` | src/services/s3-migration.service.ts:106-121 | The copy targets the destination bucket under the destination key. Its copy source names the source bucket and the source key. |
| `S3Migration.DefaultObject` | src/services/s3-migration.service.ts:91-96 | A missing key or ETag becomes `''`, a missing size `0`, and a missing timestamp the listing time. A present field is kept as it is, even when it is falsy, because each fallback equals the falsy value. |
| `S3Migration.PageObjects` | src/services/s3-migration.service.ts:89-98 | A page without `Contents` contributes nothing. A page with contents contributes one object per entry, in order, and object i is entry i with its defaults filled in. |
| `S3Migration.LastResponse` | src/services/s3-migration.service.ts:81-101 | The listing stops at the first response that throws or whose continuation token is absent or empty, and at no earlier one. |
| `S3Migration.FlattenAppend` | src/services/s3-migration.service.ts:90-97 | Flattening two runs of pages, one after the other, gives the first run's objects followed by the second run's. |
| `S3Migration.CollectedSnoc` | src/services/s3-migration.service.ts:89-98 | Reading one more page appends that page's defaulted entries, in order, after everything collected so far. |
| `S3Migration.CollectedLength` | src/services/s3-migration.service.ts:89-98 | The number of listed objects is the sum of the entries of the pages read. |
| `S3Migration.ListRequests` | src/services/s3-migration.service.ts:79-101 | One list request is sent to the source bucket per response read, up to and including the one that stops the listing. The first carries no token. Each later one carries the previous page's token, which is non-empty. |
| `S3Migration.ListObjects` | src/services/s3-migration.service.ts:77-104 | The result is the failure of the stopping response, or the in-order concatenation of every page's defaulted contents. The first request carries no token. Each later request carries the previous page's token. |
| `S3Migration.ProcessObject` | src/services/s3-migration.service.ts:26-67 | The result carries the object's key. If the head succeeds, the result is `Skipped` with the source size and timestamp, and no copy is sent. If the object is reported absent, exactly one copy of the same key is sent; the result is `Copied` with the source size and timestamp when the copy succeeds, and otherwise `Error`. Any other head failure is an `Error` and no copy is sent. An `Error` carries the thrown message (`'Unknown error'` for a value that is not an `Error`) and no size or timestamp; the other two statuses carry no message. |
| `S3Migration.ResultsDecided` | src/services/s3-migration.service.ts:23-68 | The loop's results carry, in listing order, each object's key. A result is `Skipped` exactly when the head of its key succeeds, and `Copied` exactly when its key is reported absent and the copy of that key succeeds. `Skipped` and `Copied` results carry the source size and timestamp. An `Error` result carries a message and no size or timestamp. |
| `S3Migration.PrefixStep` | src/services/s3-migration.service.ts:25-68 | Processing one more object appends exactly that object's result and commands. |
| `S3Migration.Migration` | src/services/s3-migration.service.ts:17-75 | The run fails exactly when the listing fails, with the listing's thrown value, and then only the list requests were sent. Otherwise it has one result per listed object, in order and under the object's key. |
| `S3Migration.Migrate` | src/services/s3-migration.service.ts:17-75 | A listing failure is re-thrown with no results, and only list requests were sent. Otherwise there is one result per listed object, in order and under the object's key, and the run equals the `Migration` specification. |
| `S3Migration.CallsWhenAllAbsent` | src/services/s3-migration.service.ts:27-58 | When every object is reported absent, each object costs exactly one head request and one copy request. |
| `S3Migration.CallsWhenAllPresent` | src/services/s3-migration.service.ts:27-41 | When the destination holds every object, each object costs exactly one head request and nothing else. |
| `S3Migration.CopiesOnlyAbsent` | src/services/s3-migration.service.ts:33-51 | Every copy sent is for a listed key that the destination reported absent. It copies from that key in the source bucket to the same key in the destination bucket. An object the destination holds is never copied. |
| `S3Migration.RunWhenAllAbsent` | src/services/s3-migration.service.test.ts:47-71 | With all objects absent and every copy succeeding, every result is `Copied`. The sends are one per page read plus two per object, so one page with two objects gives 5. |
| `S3Migration.RunWhenAllPresent` | src/services/s3-migration.service.test.ts:73-90 | With all objects present, every result is `Skipped`. The sends are one per page read plus one per object, so one page with one object gives 2. |
| `S3Migration.ResultIsolated` | src/services/s3-migration.service.ts:25-67 | An object's result depends only on the destination's answers for its own key. Another object's failure cannot change it. |
| `Cli.SideConfig` | src/index.ts:9-23 | The region is the environment value when it is set and non-empty, and `'us-east-1'` otherwise, so it is never empty. The access key id and secret are the environment value, or `''` when unset. |
| `Cli.PrepareRun` | src/index.ts:25-30 | The run's options exist exactly when both bucket variables are set and non-empty. Otherwise the error "Source and destination bucket names are required" is thrown. |
| `Cli.CountStatus` | src/index.ts:45-47 | A status count never exceeds the number of results. |
| `Cli.CountsAddUp` | src/index.ts:43-48 | The copied, skipped and error counts add up to the number of results, because every status is one of the three values. |
| `Cli.CountIsTotal` | src/index.ts:45-47 | A status count equals the number of results exactly when every result has that status. |
| `Cli.Summarize` | src/index.ts:43-48 | `total` is the number of results, and `copied + skipped + errors == total`. |
| `Cli.RunFromEnvironment` | src/index.ts:8-56 | A missing bucket name rejects with its error before any command is sent. A failed migration exits with status 1. A completed one yields the summary of its results. |
| `Cli.SummaryWhenAllAbsent` | src/index.ts:36-48 | With all objects absent and every copy succeeding, the summary counts every result as copied, and none as skipped or errored. |

## Left out

- The object-store SDK: constructing the clients, `send` and the command
  classes are replaced by the listing responses and the head and copy
  functions the caller supplies. An error thrown while constructing a
  client (before the `try` in `migrate`) is not modelled.
- `async`/`await`: every call is awaited in turn, so the model is
  sequential.
- Logging (`logger.info`, `logger.error`): it has no effect on results.
- `new Date()` as the fallback timestamp: the source reads the clock once
  per entry without a timestamp. The model uses one `now` per listing,
  passed in by the caller.
- `dotenv.config()`, reading `process.env`, `console.table`, the
  `process.exit(1)` call itself and the top-level `main()` call: the
  environment is a map, and the process's end is the `Ending` value.
- A source listing that never stops paginating: the listing responses must
  include one that stops the listing (`ListingEnds`).
- JavaScript numbers: sizes are unbounded integers, so a `NaN` size, which
  `||` would also replace with 0, is not represented.
- The transfer is the single server-side copy command the code sends. No
  object body is downloaded or uploaded, and nothing probes either bucket
  before the listing.
- ResultIsolated: the destination's answers do not change during the run,
  and listed keys are taken to be distinct. In the program the destination
  is one live bucket, so an object that is copied becomes present. If two
  listed entries share a key (two entries without a `Key` both default to
  `''`), the program copies the first and skips the second, while the
  model copies both. Each result therefore depends on its own key only
  under this abstraction.
- ProcessObject, ResultsDecided: the same fixed-answer abstraction applies. A
  result is decided by the answers for its key as they stood, not as
  earlier copies in the same run may have changed them.
- Running the migration twice is not modelled as two runs against one
  changing store. `RunWhenAllPresent` states what a second run does when
  the destination holds every listed object.
