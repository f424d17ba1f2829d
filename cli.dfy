/**
  The command-line entry point (index.ts): build the two client
  configurations and the bucket names from the environment, refuse to run
  without both bucket names, run the migration and count its results by
  status. Reading the environment, logging, printing the table and exiting
  the process are left to the caller; the environment is given as a map
  from variable name to value.
 */
module Cli {
  import opened MigrationTypes
  import opened S3Api
  import opened S3Migration

  type Environment = map<string, string>

  const DefaultRegion := "us-east-1"
  const BucketsRequired := "Source and destination bucket names are required"

  /** `process.env[name] || fallback`: an unset or empty variable falls
      back. */
  function EnvOr(env: Environment, name: string, fallback: string): string {
    StringOr(if name in env then Some(env[name]) else None, fallback)
  }

  /** One side's client configuration. The region falls back on
      "us-east-1", so it is never empty; the credentials fall back on the
      empty string, so they are whatever the environment holds. */
  function SideConfig(env: Environment, regionVar: string, keyIdVar: string, secretVar: string): (c: S3Config)
    ensures c.region != ""
    ensures regionVar in env && env[regionVar] != "" ==> c.region == env[regionVar]
    ensures !(regionVar in env && env[regionVar] != "") ==> c.region == DefaultRegion
    ensures c.credentials.accessKeyId == (if keyIdVar in env then env[keyIdVar] else "")
    ensures c.credentials.secretAccessKey == (if secretVar in env then env[secretVar] else "")
  {
    S3Config(EnvOr(env, regionVar, DefaultRegion),
             Credentials(EnvOr(env, keyIdVar, ""), EnvOr(env, secretVar, "")))
  }

  function SourceConfig(env: Environment): S3Config {
    SideConfig(env, "SOURCE_AWS_REGION", "SOURCE_AWS_ACCESS_KEY_ID", "SOURCE_AWS_SECRET_ACCESS_KEY")
  }

  function DestinationConfig(env: Environment): S3Config {
    SideConfig(env, "DESTINATION_AWS_REGION", "DESTINATION_AWS_ACCESS_KEY_ID", "DESTINATION_AWS_SECRET_ACCESS_KEY")
  }

  /** The options of a run, or the error thrown when either bucket name is
      unset or empty. */
  function PrepareRun(env: Environment): (r: Try<S3MigrationOptions>)
    ensures r.Ok? <==> ("SOURCE_BUCKET" in env && env["SOURCE_BUCKET"] != ""
                        && "DESTINATION_BUCKET" in env && env["DESTINATION_BUCKET"] != "")
    ensures r.Threw? ==> r.thrown == ErrorInstance("Error", BucketsRequired)
    ensures r.Ok? ==>
      && r.value.sourceBucket == env["SOURCE_BUCKET"]
      && r.value.destinationBucket == env["DESTINATION_BUCKET"]
      && r.value.sourceConfig == SourceConfig(env)
      && r.value.destinationConfig == DestinationConfig(env)
  {
    var sourceBucket := EnvOr(env, "SOURCE_BUCKET", "");
    var destinationBucket := EnvOr(env, "DESTINATION_BUCKET", "");
    if sourceBucket == "" || destinationBucket == "" then
      Threw(ErrorInstance("Error", BucketsRequired))
    else
      Ok(S3MigrationOptions(sourceBucket, destinationBucket, SourceConfig(env), DestinationConfig(env)))
  }

  // ---------------------------------------------------------------------
  // Summary
  // ---------------------------------------------------------------------

  datatype Summary = Summary(total: nat, copied: nat, skipped: nat, errors: nat)

  /** The number of results with status `s`. */
  function CountStatus(results: seq<MigrationResult>, s: Status): (n: nat)
    ensures n <= |results|
  {
    if results == [] then 0
    else CountStatus(results[..|results| - 1], s) + (if results[|results| - 1].status == s then 1 else 0)
  }

  /** Every result has one of the three statuses, so the three counts
      account for every result exactly once. */
  lemma {:induction false} CountsAddUp(results: seq<MigrationResult>)
    ensures CountStatus(results, Copied) + CountStatus(results, Skipped) + CountStatus(results, Error) == |results|
  {
    if results != [] {
      CountsAddUp(results[..|results| - 1]);
    }
  }

  /** The count of a status is the whole length exactly when every result
      has that status. */
  lemma {:induction false} CountIsTotal(results: seq<MigrationResult>, s: Status)
    ensures CountStatus(results, s) == |results| <==> forall i :: 0 <= i < |results| ==> results[i].status == s
  {
    if results != [] {
      var init := results[..|results| - 1];
      CountIsTotal(init, s);
      assert forall i :: 0 <= i < |init| ==> init[i] == results[i];
    }
  }

  /** The summary of a run's results. */
  function Summarize(results: seq<MigrationResult>): (summary: Summary)
    ensures summary.total == |results|
    ensures summary.copied + summary.skipped + summary.errors == summary.total
  {
    CountsAddUp(results);
    Summary(|results|, CountStatus(results, Copied), CountStatus(results, Skipped), CountStatus(results, Error))
  }

  // ---------------------------------------------------------------------
  // The entry point
  // ---------------------------------------------------------------------

  /** How the program ends: rejected by the missing-bucket error, exited
      with status 1 after a failed migration, or completed with a summary. */
  datatype Ending =
    | Rejected(thrown: Thrown)
    | Exited(code: int)
    | Completed(summary: Summary)

  /** `main`: a missing bucket name rejects before any command is sent;
      otherwise the migration runs, a failure exits with status 1 and a
      success yields the summary of its results. */
  method RunFromEnvironment(env: Environment, responses: seq<Try<ListPage>>, head: HeadService, copy: CopyService, now: Timestamp)
    returns (ending: Ending, sent: seq<Command>)
    requires ListingEnds(responses)
    ensures PrepareRun(env).Threw? ==> ending == Rejected(ErrorInstance("Error", BucketsRequired)) && sent == []
    ensures PrepareRun(env).Ok? ==>
      var run := Migration(PrepareRun(env).value, responses, head, copy, now);
      sent == run.sent &&
      (run.outcome.Threw? ==> ending == Exited(1)) &&
      (run.outcome.Ok? ==> ending == Completed(Summarize(run.outcome.value)))
    ensures ending.Completed? ==> ending.summary.copied + ending.summary.skipped + ending.summary.errors == ending.summary.total
  {
    var options := PrepareRun(env);
    if options.Threw? {
      return Rejected(options.thrown), [];
    }
    var outcome;
    outcome, sent := Migrate(options.value, responses, head, copy, now);
    if outcome.Threw? {
      return Exited(1), sent;
    }
    ending := Completed(Summarize(outcome.value));
  }

  /** When the destination holds none of the listed objects and every copy
      succeeds, the summary counts every result as copied. */
  lemma SummaryWhenAllAbsent(options: S3MigrationOptions, responses: seq<Try<ListPage>>, head: HeadService, copy: CopyService, now: Timestamp)
    requires ListingEnds(responses)
    requires Listing(responses, now).Ok?
    requires var objects := Listing(responses, now).value;
      forall i :: 0 <= i < |objects| ==> ReportedAbsent(objects[i], options, head)
    requires forall req :: copy(req).Ok?
    ensures var summary := Summarize(Migration(options, responses, head, copy, now).outcome.value);
      summary.copied == summary.total == |Listing(responses, now).value| &&
      summary.skipped == 0 && summary.errors == 0
  {
    RunWhenAllAbsent(options, responses, head, copy, now);
    var results := Migration(options, responses, head, copy, now).outcome.value;
    CountIsTotal(results, Copied);
    CountsAddUp(results);
  }
}
