/**
  The values the migration service works on: its options, the objects it
  lists and the per-object results it reports (s3-migration.interface.ts),
  together with the two JavaScript notions the service relies on: a value
  that an operation may throw instead of returning, and the `||` default
  operator, which falls back on any falsy value.
 */
module MigrationTypes {

  datatype Option<T> = None | Some(value: T) {
    function GetOr(default: T): T {
      if Some? then value else default
    }
  }

  /** What a JavaScript operation can throw: an `Error` instance, with its
      `name` and `message`, or any other value. */
  datatype Thrown = ErrorInstance(name: string, message: string) | OtherValue

  /** The completion of an operation that either returns a value or throws. */
  datatype Try<T> = Ok(value: T) | Threw(thrown: Thrown)

  /** A `Date`, as milliseconds since the epoch. */
  type Timestamp = int

  /** `s || fallback` for an optional string: both an absent value and the
      empty string are falsy. */
  function StringOr(s: Option<string>, fallback: string): string {
    if s.Some? && s.value != "" then s.value else fallback
  }

  /** `n || fallback` for an optional number: an absent value and 0 are falsy. */
  function NumberOr(n: Option<int>, fallback: int): int {
    if n.Some? && n.value != 0 then n.value else fallback
  }

  /** A string is truthy exactly when it is present and not empty. */
  predicate Truthy(s: Option<string>) {
    s.Some? && s.value != ""
  }

  datatype Credentials = Credentials(accessKeyId: string, secretAccessKey: string)

  datatype S3Config = S3Config(region: string, credentials: Credentials)

  datatype S3MigrationOptions = S3MigrationOptions(
    sourceBucket: string,
    destinationBucket: string,
    sourceConfig: S3Config,
    destinationConfig: S3Config)

  /** One entry of the source inventory, with every field filled in. */
  datatype S3Object = S3Object(key: string, size: int, lastModified: Timestamp, etag: string)

  datatype Status = Copied | Skipped | Error

  /** The outcome reported for one listed object. */
  datatype MigrationResult = MigrationResult(
    key: string,
    status: Status,
    error: Option<string>,
    size: Option<int>,
    lastModified: Option<Timestamp>)
}
