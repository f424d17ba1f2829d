/**
  The migration service (s3-migration.service.ts): list every object of the
  source bucket page by page, then for each listed object, in order, probe
  the destination and either skip it or issue a server-side copy, recording
  one result per object. A failure while listing ends the whole run; a
  failure while probing or copying one object becomes that object's Error
  result and the run goes on.

  Every command sent to a client is recorded, in order, in a `sent`
  sequence, so that what the service asks of the store can be stated.
 */
module S3Migration {
  import opened MigrationTypes
  import opened S3Api

  // ---------------------------------------------------------------------
  // Existence check
  // ---------------------------------------------------------------------

  /** The error names that mean "no such object". */
  predicate IsNotFound(t: Thrown) {
    t.ErrorInstance? && (t.name == "NotFound" || t.name == "NoSuchKey")
  }

  /** The destination reports `obj` absent: its head request fails with a
      not-found error. */
  predicate ReportedAbsent(obj: S3Object, options: S3MigrationOptions, head: HeadService) {
    var probe := head(HeadRequest(options.destinationBucket, obj.key));
    probe.Threw? && IsNotFound(probe.thrown)
  }

  /** `objectExists`: a successful head means the object exists, a
      not-found error means it does not, and any other failure is
      re-thrown unchanged. */
  function ObjectExists(key: string, head: HeadService, bucket: string): (r: Try<bool>)
    ensures r == Ok(true) <==> head(HeadRequest(bucket, key)).Ok?
    ensures r == Ok(false) <==> (head(HeadRequest(bucket, key)).Threw? && IsNotFound(head(HeadRequest(bucket, key)).thrown))
    ensures r.Threw? <==> (head(HeadRequest(bucket, key)).Threw? && !IsNotFound(head(HeadRequest(bucket, key)).thrown))
    ensures r.Threw? ==> head(HeadRequest(bucket, key)) == Threw(r.thrown)
  {
    match head(HeadRequest(bucket, key))
    case Ok(_) => Ok(true)
    case Threw(t) => if IsNotFound(t) then Ok(false) else Threw(t)
  }

  // ---------------------------------------------------------------------
  // Copy
  // ---------------------------------------------------------------------

  /** The `CopySource` of a copy: the source bucket and key joined by '/'. */
  function CopySource(bucket: string, key: string): string {
    bucket + "/" + key
  }

  /** How a copy source names its object: the bucket is everything before
      the first '/', the key everything after it. */
  function SplitCopySource(s: string): Option<(string, string)> {
    if s == [] then None
    else if s[0] == '/' then Some(([], s[1..]))
    else match SplitCopySource(s[1..])
      case None => None
      case Some(parts) => Some(([s[0]] + parts.0, parts.1))
  }

  /** A copy source names exactly the object it was built from, for any
      bucket name without '/' (which bucket names never contain). */
  lemma {:induction false} CopySourceRoundTrip(bucket: string, key: string)
    requires '/' !in bucket
    ensures SplitCopySource(CopySource(bucket, key)) == Some((bucket, key))
  {
    if bucket == [] {
      assert CopySource(bucket, key) == "/" + key;
    } else {
      var s := CopySource(bucket, key);
      assert bucket[0] in bucket;
      assert '/' !in bucket[1..] by {
        forall i | 0 <= i < |bucket[1..]| ensures bucket[1..][i] != '/' {
          assert bucket[1..][i] == bucket[i + 1];
        }
      }
      assert s[0] == bucket[0] && s[1..] == CopySource(bucket[1..], key);
      CopySourceRoundTrip(bucket[1..], key);
      assert [bucket[0]] + bucket[1..] == bucket;
    }
  }

  /** `copyObject`'s command: copy into `destinationBucket` under
      `destinationKey` the object `sourceKey` of `sourceBucket`. */
  function CopyObjectCommand(sourceKey: string, destinationKey: string, sourceBucket: string, destinationBucket: string): (req: CopyRequest)
    ensures req.bucket == destinationBucket && req.key == destinationKey
    ensures '/' !in sourceBucket ==> SplitCopySource(req.copySource) == Some((sourceBucket, sourceKey))
  {
    var req := CopyRequest(destinationBucket, CopySource(sourceBucket, sourceKey), destinationKey);
    if '/' in sourceBucket then req
    else CopySourceRoundTrip(sourceBucket, sourceKey); req
  }

  // ---------------------------------------------------------------------
  // Listing
  // ---------------------------------------------------------------------

  /** A listed entry with its missing fields filled in; a missing timestamp
      becomes `now`, the time of the listing. Because each fallback is the
      falsy value of its type, a field that is present is kept as it is. */
  function DefaultObject(item: ListedItem, now: Timestamp): (o: S3Object)
    ensures o.key == (if item.key.Some? then item.key.value else "")
    ensures o.size == (if item.size.Some? then item.size.value else 0)
    ensures o.etag == (if item.etag.Some? then item.etag.value else "")
    ensures o.lastModified == (if item.lastModified.Some? then item.lastModified.value else now)
  {
    S3Object(StringOr(item.key, ""), NumberOr(item.size, 0), item.lastModified.GetOr(now), StringOr(item.etag, ""))
  }

  /** The objects one page contributes: its entries, defaulted, in order;
      a page without contents contributes none. */
  function PageObjects(page: ListPage, now: Timestamp): (objs: seq<S3Object>)
    ensures page.contents.None? ==> objs == []
    ensures page.contents.Some? ==> |objs| == |page.contents.value|
    ensures page.contents.Some? ==> forall i :: 0 <= i < |objs| ==> objs[i] == DefaultObject(page.contents.value[i], now)
  {
    match page.contents
    case None => []
    case Some(items) => seq(|items|, i requires 0 <= i < |items| => DefaultObject(items[i], now))
  }

  /** A page asks for another exactly when its continuation token is truthy. */
  predicate HasMore(page: ListPage) {
    Truthy(page.nextContinuationToken)
  }

  /** A listing response after which no further page is requested. */
  predicate EndsListing(response: Try<ListPage>) {
    response.Threw? || !HasMore(response.value)
  }

  /** The responses include one at which the listing stops. */
  ghost predicate ListingEnds(responses: seq<Try<ListPage>>) {
    exists i :: 0 <= i < |responses| && EndsListing(responses[i])
  }

  /** The index of the response at which the listing stops: the first one
      that throws or carries no further token. */
  function LastResponse(responses: seq<Try<ListPage>>): (k: nat)
    requires ListingEnds(responses)
    ensures k < |responses| && EndsListing(responses[k])
    ensures forall i :: 0 <= i < k ==> !EndsListing(responses[i])
  {
    if EndsListing(responses[0]) then 0
    else
      assert ListingEnds(responses[1..]) by {
        var i :| 0 <= i < |responses| && EndsListing(responses[i]);
        assert EndsListing(responses[1..][i - 1]);
      }
      1 + LastResponse(responses[1..])
  }

  /** The objects of a run of pages, page after page; a response that
      threw contributes nothing. */
  function Collected(responses: seq<Try<ListPage>>, now: Timestamp): seq<S3Object> {
    Flatten(seq(|responses|, i requires 0 <= i < |responses| => Contribution(responses[i], now)))
  }

  /** The objects one response contributes. */
  function Contribution(response: Try<ListPage>, now: Timestamp): seq<S3Object> {
    if response.Ok? then PageObjects(response.value, now) else []
  }

  /** The chunks of `chunks`, one after the other. */
  function Flatten<T>(chunks: seq<seq<T>>): seq<T> {
    if chunks == [] then [] else Flatten(chunks[..|chunks| - 1]) + chunks[|chunks| - 1]
  }

  /** Flattening two runs of chunks one after the other gives the two
      flattenings one after the other. */
  lemma {:induction false} FlattenAppend<T>(a: seq<seq<T>>, b: seq<seq<T>>)
    ensures Flatten(a + b) == Flatten(a) + Flatten(b)
  {
    if b == [] {
      assert a + b == a;
    } else {
      var init, last := b[..|b| - 1], b[|b| - 1];
      assert (a + b)[..|a + b| - 1] == a + init;
      FlattenAppend(a, init);
    }
  }

  /** Appending a response to a run of pages appends its contribution. */
  lemma CollectedSnoc(responses: seq<Try<ListPage>>, r: Try<ListPage>, now: Timestamp)
    ensures Collected(responses + [r], now) == Collected(responses, now) + Contribution(r, now)
  {
    var chunks := seq(|responses| + 1, i requires 0 <= i < |responses| + 1 => Contribution((responses + [r])[i], now));
    assert chunks[..|chunks| - 1] == seq(|responses|, i requires 0 <= i < |responses| => Contribution(responses[i], now));
  }

  /** The number of entries a response carries. */
  function EntryCount(response: Try<ListPage>): nat {
    if response.Ok? && response.value.contents.Some? then |response.value.contents.value| else 0
  }

  /** The entries of a run of pages, summed over its pages. */
  function TotalEntries(responses: seq<Try<ListPage>>): nat {
    if responses == [] then 0
    else TotalEntries(responses[..|responses| - 1]) + EntryCount(responses[|responses| - 1])
  }

  /** A run of pages yields as many objects as its pages hold entries. */
  lemma {:induction false} CollectedLength(responses: seq<Try<ListPage>>, now: Timestamp)
    ensures |Collected(responses, now)| == TotalEntries(responses)
  {
    if responses != [] {
      var init, last := responses[..|responses| - 1], responses[|responses| - 1];
      assert responses == init + [last];
      CollectedSnoc(init, last, now);
      CollectedLength(init, now);
    }
  }

  /** What the whole listing yields: the failure of the response at which
      it stops, or the objects of every page up to and including it. */
  function Listing(responses: seq<Try<ListPage>>, now: Timestamp): Try<seq<S3Object>>
    requires ListingEnds(responses)
  {
    var k := LastResponse(responses);
    if responses[k].Threw? then Threw(responses[k].thrown)
    else Ok(Collected(responses[..k + 1], now))
  }

  /** The token sent with the `j`-th list request: none for the first, the
      previous page's token for every later one. */
  function RequestToken(responses: seq<Try<ListPage>>, j: nat): Option<string>
    requires j < |responses|
    requires forall i :: 0 <= i < j ==> responses[i].Ok?
  {
    if j == 0 then None else responses[j - 1].value.nextContinuationToken
  }

  /** The list requests of the whole listing, one per response read. */
  function ListRequests(bucket: string, responses: seq<Try<ListPage>>): (reqs: seq<Command>)
    requires ListingEnds(responses)
    ensures |reqs| == LastResponse(responses) + 1
    ensures forall j :: 0 <= j < |reqs| ==> reqs[j].List? && reqs[j].list.bucket == bucket
    ensures reqs[0].list.continuationToken == None
    ensures forall j :: 0 < j < |reqs| ==>
      responses[j - 1].Ok? && Truthy(reqs[j].list.continuationToken) &&
      reqs[j].list.continuationToken == responses[j - 1].value.nextContinuationToken
  {
    var k := LastResponse(responses);
    seq(k + 1, j requires 0 <= j <= k => List(ListRequest(bucket, RequestToken(responses, j))))
  }

  /** `listObjects`: request pages until one comes back without a
      continuation token, appending each page's defaulted entries. The
      i-th request sent is answered by `responses[i]`; a request that
      throws ends the listing with that failure. */
  method ListObjects(bucket: string, responses: seq<Try<ListPage>>, now: Timestamp)
    returns (objects: Try<seq<S3Object>>, sent: seq<Command>)
    requires ListingEnds(responses)
    ensures objects == Listing(responses, now)
    ensures sent == ListRequests(bucket, responses)
  {
    ghost var last := LastResponse(responses);
    var acc: seq<S3Object> := [];
    var continuationToken: Option<string> := None;
    var n := 0;
    sent := [];
    while true
      invariant n <= last
      invariant acc == Collected(responses[..n], now)
      invariant continuationToken == RequestToken(responses, n)
      invariant |sent| == n
      invariant forall j :: 0 <= j < n ==> sent[j] == List(ListRequest(bucket, RequestToken(responses, j)))
      decreases last - n
    {
      sent := sent + [List(ListRequest(bucket, continuationToken))];
      var response := responses[n];
      if response.Threw? {
        assert n == last;
        objects := Threw(response.thrown);
        return;
      }
      var page := response.value;
      assert responses[..n + 1] == responses[..n] + [response];
      CollectedSnoc(responses[..n], response, now);
      if page.contents.Some? {
        acc := acc + PageObjects(page, now);
      }
      continuationToken := page.nextContinuationToken;
      n := n + 1;
      if !Truthy(continuationToken) {
        assert EndsListing(responses[n - 1]);
        break;
      }
    }
    assert n == last + 1;
    assert acc == Collected(responses[..last + 1], now);
    objects := Ok(acc);
  }

  // ---------------------------------------------------------------------
  // Migration
  // ---------------------------------------------------------------------

  /** The message recorded for a failure: the error's own message, or
      "Unknown error" for a thrown value that is not an `Error`. */
  function ErrorMessage(t: Thrown): string {
    if t.ErrorInstance? then t.message else "Unknown error"
  }

  function ErrorResult(key: string, t: Thrown): MigrationResult {
    MigrationResult(key, Error, Some(ErrorMessage(t)), None, None)
  }

  /** What processing one object yields: its result and the commands sent
      for it. */
  datatype ObjectStep = ObjectStep(result: MigrationResult, sent: seq<Command>)

  /** One iteration of the per-object loop, inside its own error boundary. */
  function ProcessObject(obj: S3Object, options: S3MigrationOptions, head: HeadService, copy: CopyService): (step: ObjectStep)
    ensures step.result.key == obj.key
    // a destination object that answers the head request is skipped, with nothing copied
    ensures var probe := head(HeadRequest(options.destinationBucket, obj.key));
      (step.result.status == Skipped <==> probe.Ok?) &&
      (probe.Ok? ==> step.result == MigrationResult(obj.key, Skipped, None, Some(obj.size), Some(obj.lastModified))
                     && step.sent == [Head(HeadRequest(options.destinationBucket, obj.key))])
    // an absent object is copied from the same key of the source bucket
    ensures var req := CopyObjectCommand(obj.key, obj.key, options.sourceBucket, options.destinationBucket);
      (ReportedAbsent(obj, options, head) ==>
        step.sent == [Head(HeadRequest(options.destinationBucket, obj.key)), Copy(req)] &&
        (step.result.status == Copied <==> copy(req).Ok?) &&
        (copy(req).Ok? ==> step.result == MigrationResult(obj.key, Copied, None, Some(obj.size), Some(obj.lastModified))) &&
        (copy(req).Threw? ==> step.result == ErrorResult(obj.key, copy(req).thrown)))
    // any other probe failure is that object's error, and nothing is copied
    ensures var probe := head(HeadRequest(options.destinationBucket, obj.key));
      (probe.Threw? && !ReportedAbsent(obj, options, head) ==>
        step.result == ErrorResult(obj.key, probe.thrown) &&
        step.sent == [Head(HeadRequest(options.destinationBucket, obj.key))])
    // an error result carries a message and no size or timestamp; the others the reverse
    ensures step.result.status == Error <==> step.result.error.Some?
    ensures step.result.status == Error <==> step.result.size.None?
    ensures step.result.status == Error <==> step.result.lastModified.None?
  {
    var probe := HeadRequest(options.destinationBucket, obj.key);
    match ObjectExists(obj.key, head, options.destinationBucket)
    case Threw(t) => ObjectStep(ErrorResult(obj.key, t), [Head(probe)])
    case Ok(found) =>
      if found then
        ObjectStep(MigrationResult(obj.key, Skipped, None, Some(obj.size), Some(obj.lastModified)), [Head(probe)])
      else
        var req := CopyObjectCommand(obj.key, obj.key, options.sourceBucket, options.destinationBucket);
        match copy(req)
        case Threw(t) => ObjectStep(ErrorResult(obj.key, t), [Head(probe), Copy(req)])
        case Ok(_) => ObjectStep(MigrationResult(obj.key, Copied, None, Some(obj.size), Some(obj.lastModified)), [Head(probe), Copy(req)])
  }

  /** The results of the per-object loop: one per object, in listing
      order. `ResultsDecided` states what decides each of them. */
  function Results(objects: seq<S3Object>, options: S3MigrationOptions, head: HeadService, copy: CopyService): (rs: seq<MigrationResult>)
    ensures |rs| == |objects|
  {
    seq(|objects|, i requires 0 <= i < |objects| => ProcessObject(objects[i], options, head, copy).result)
  }

  /** Each result carries its object's key and is decided by the
      destination's answers for that key alone: `Skipped` exactly when the
      head succeeds, `Copied` exactly when the key is reported absent and
      its copy succeeds, and `Error` otherwise, with a message instead of
      the source size and timestamp. */
  lemma ResultsDecided(objects: seq<S3Object>, options: S3MigrationOptions, head: HeadService, copy: CopyService)
    ensures var rs := Results(objects, options, head, copy);
      forall i :: 0 <= i < |objects| ==> rs[i].key == objects[i].key
    ensures var rs := Results(objects, options, head, copy);
      forall i :: 0 <= i < |objects| ==>
        (rs[i].status == Skipped <==> head(HeadRequest(options.destinationBucket, objects[i].key)).Ok?)
    ensures var rs := Results(objects, options, head, copy);
      forall i :: 0 <= i < |objects| ==>
        (rs[i].status == Copied <==>
          ReportedAbsent(objects[i], options, head) &&
          copy(CopyObjectCommand(objects[i].key, objects[i].key, options.sourceBucket, options.destinationBucket)).Ok?)
    ensures var rs := Results(objects, options, head, copy);
      forall i :: 0 <= i < |objects| ==>
        (rs[i].status != Error ==> rs[i].size == Some(objects[i].size) && rs[i].lastModified == Some(objects[i].lastModified))
    ensures var rs := Results(objects, options, head, copy);
      forall i :: 0 <= i < |objects| ==>
        (rs[i].status == Error ==> rs[i].error.Some? && rs[i].size.None? && rs[i].lastModified.None?)
  {
  }

  /** The commands the per-object loop sends: each object's, in listing order. */
  function Calls(objects: seq<S3Object>, options: S3MigrationOptions, head: HeadService, copy: CopyService): seq<Command> {
    if objects == [] then []
    else Calls(objects[..|objects| - 1], options, head, copy) + ProcessObject(objects[|objects| - 1], options, head, copy).sent
  }

  /** Extending the processed prefix by one object extends the results and
      the commands by that object's own. */
  lemma PrefixStep(objects: seq<S3Object>, i: nat, options: S3MigrationOptions, head: HeadService, copy: CopyService)
    requires i < |objects|
    ensures Results(objects[..i + 1], options, head, copy) == Results(objects[..i], options, head, copy) + [ProcessObject(objects[i], options, head, copy).result]
    ensures Calls(objects[..i + 1], options, head, copy) == Calls(objects[..i], options, head, copy) + ProcessObject(objects[i], options, head, copy).sent
  {
    assert objects[..i + 1][..i] == objects[..i];
  }

  /** Appending is associative. */
  lemma AppendAssociative<T>(a: seq<T>, b: seq<T>, c: seq<T>)
    ensures a + b + c == a + (b + c)
  {
  }

  /** A whole run: its outcome and every command it sent. */
  datatype Run = Run(outcome: Try<seq<MigrationResult>>, sent: seq<Command>)

  /** What `migrate` does: list the source bucket; a listing failure is
      re-thrown with no results, otherwise every listed object is
      processed in order. */
  function Migration(options: S3MigrationOptions, responses: seq<Try<ListPage>>, head: HeadService, copy: CopyService, now: Timestamp): (run: Run)
    requires ListingEnds(responses)
    ensures run.outcome.Threw? <==> Listing(responses, now).Threw?
    ensures run.outcome.Threw? ==>
      run.outcome.thrown == Listing(responses, now).thrown && run.sent == ListRequests(options.sourceBucket, responses)
    ensures run.outcome.Ok? ==>
      var objects := Listing(responses, now).value;
      |run.outcome.value| == |objects| &&
      forall i :: 0 <= i < |objects| ==> run.outcome.value[i].key == objects[i].key
  {
    var listSent := ListRequests(options.sourceBucket, responses);
    match Listing(responses, now)
    case Threw(t) => Run(Threw(t), listSent)
    case Ok(objects) =>
      ResultsDecided(objects, options, head, copy);
      Run(Ok(Results(objects, options, head, copy)), listSent + Calls(objects, options, head, copy))
  }

  /** `migrate`. A failure of the listing escapes the run with no results;
      otherwise there is exactly one result per listed object, in listing
      order and under the object's key. */
  method Migrate(options: S3MigrationOptions, responses: seq<Try<ListPage>>, head: HeadService, copy: CopyService, now: Timestamp)
    returns (outcome: Try<seq<MigrationResult>>, sent: seq<Command>)
    requires ListingEnds(responses)
    ensures Run(outcome, sent) == Migration(options, responses, head, copy, now)
    ensures outcome.Threw? <==> Listing(responses, now).Threw?
    ensures outcome.Threw? ==> outcome.thrown == Listing(responses, now).thrown && sent == ListRequests(options.sourceBucket, responses)
    ensures outcome.Ok? ==>
      var objects := Listing(responses, now).value;
      |outcome.value| == |objects| &&
      forall i :: 0 <= i < |objects| ==> outcome.value[i].key == objects[i].key
  {
    var listed, listSent := ListObjects(options.sourceBucket, responses, now);
    sent := listSent;
    if listed.Threw? {
      outcome := Threw(listed.thrown);
      assert Run(outcome, sent) == Migration(options, responses, head, copy, now);
      return;
    }
    var objects := listed.value;
    var results: seq<MigrationResult> := [];
    for i := 0 to |objects|
      invariant results == Results(objects[..i], options, head, copy)
      invariant sent == listSent + Calls(objects[..i], options, head, copy)
    {
      var obj := objects[i];
      ghost var step := ProcessObject(obj, options, head, copy);
      ghost var resultsBefore, sentBefore := results, sent;
      PrefixStep(objects, i, options, head, copy);
      AppendAssociative(listSent, Calls(objects[..i], options, head, copy), step.sent);
      var failure: Option<Thrown> := None;
      sent := sent + [Head(HeadRequest(options.destinationBucket, obj.key))];
      var present := ObjectExists(obj.key, head, options.destinationBucket);
      if present.Threw? {
        failure := Some(present.thrown);
      } else if present.value {
        results := results + [MigrationResult(obj.key, Skipped, None, Some(obj.size), Some(obj.lastModified))];
        assert results == resultsBefore + [step.result] && sent == sentBefore + step.sent;
        continue;
      } else {
        var req := CopyObjectCommand(obj.key, obj.key, options.sourceBucket, options.destinationBucket);
        sent := sent + [Copy(req)];
        var copied := copy(req);
        if copied.Threw? {
          failure := Some(copied.thrown);
        } else {
          results := results + [MigrationResult(obj.key, Copied, None, Some(obj.size), Some(obj.lastModified))];
        }
      }
      if failure.Some? {
        results := results + [ErrorResult(obj.key, failure.value)];
      }
      assert results == resultsBefore + [step.result] && sent == sentBefore + step.sent;
    }
    assert objects[..|objects|] == objects;
    outcome := Ok(results);
    assert Run(outcome, sent) == Migration(options, responses, head, copy, now);
  }

  // ---------------------------------------------------------------------
  // Properties of a whole run
  // ---------------------------------------------------------------------

  /** When the destination holds none of the objects, each costs one head
      and one copy request. */
  lemma {:induction false} CallsWhenAllAbsent(objects: seq<S3Object>, options: S3MigrationOptions, head: HeadService, copy: CopyService)
    requires forall i :: 0 <= i < |objects| ==> ReportedAbsent(objects[i], options, head)
    ensures |Calls(objects, options, head, copy)| == 2 * |objects|
  {
    if objects != [] {
      var init := objects[..|objects| - 1];
      assert forall i :: 0 <= i < |init| ==> init[i] == objects[i];
      CallsWhenAllAbsent(init, options, head, copy);
    }
  }

  /** When the destination holds every object, each costs one head request
      and nothing else. */
  lemma {:induction false} CallsWhenAllPresent(objects: seq<S3Object>, options: S3MigrationOptions, head: HeadService, copy: CopyService)
    requires forall i :: 0 <= i < |objects| ==> head(HeadRequest(options.destinationBucket, objects[i].key)).Ok?
    ensures |Calls(objects, options, head, copy)| == |objects|
    ensures forall c :: c in Calls(objects, options, head, copy) ==> c.Head?
  {
    if objects != [] {
      var init := objects[..|objects| - 1];
      assert forall i :: 0 <= i < |init| ==> init[i] == objects[i];
      CallsWhenAllPresent(init, options, head, copy);
    }
  }

  /** Every copy a run issues is for a listed key that the destination
      reported absent, from the same key of the source bucket into the
      same key of the destination bucket: an object the destination
      already holds is never copied. */
  lemma {:induction false} CopiesOnlyAbsent(objects: seq<S3Object>, options: S3MigrationOptions, head: HeadService, copy: CopyService)
    ensures forall c :: c in Calls(objects, options, head, copy) && c.Copy? ==>
      c.copy == CopyObjectCommand(c.copy.key, c.copy.key, options.sourceBucket, options.destinationBucket) &&
      exists i :: 0 <= i < |objects| && objects[i].key == c.copy.key && ReportedAbsent(objects[i], options, head)
  {
    if objects != [] {
      var init, last := objects[..|objects| - 1], objects[|objects| - 1];
      CopiesOnlyAbsent(init, options, head, copy);
      forall c | c in Calls(objects, options, head, copy) && c.Copy?
        ensures c.copy == CopyObjectCommand(c.copy.key, c.copy.key, options.sourceBucket, options.destinationBucket)
        ensures exists i :: 0 <= i < |objects| && objects[i].key == c.copy.key && ReportedAbsent(objects[i], options, head)
      {
        if c in Calls(init, options, head, copy) {
          var i :| 0 <= i < |init| && init[i].key == c.copy.key && ReportedAbsent(init[i], options, head);
          assert objects[i] == init[i];
        } else {
          assert c in ProcessObject(last, options, head, copy).sent;
          assert objects[|objects| - 1] == last;
        }
      }
    }
  }

  /** A run in which the destination holds none of the listed objects and
      every copy succeeds copies them all, sending one list request per
      page, then one head and one copy request per object. */
  lemma RunWhenAllAbsent(options: S3MigrationOptions, responses: seq<Try<ListPage>>, head: HeadService, copy: CopyService, now: Timestamp)
    requires ListingEnds(responses)
    requires Listing(responses, now).Ok?
    requires var objects := Listing(responses, now).value;
      forall i :: 0 <= i < |objects| ==> ReportedAbsent(objects[i], options, head)
    requires forall req :: copy(req).Ok?
    ensures var objects := Listing(responses, now).value;
      var run := Migration(options, responses, head, copy, now);
      run.outcome.Ok? &&
      (forall i :: 0 <= i < |objects| ==> run.outcome.value[i].status == Copied) &&
      |run.sent| == LastResponse(responses) + 1 + 2 * |objects|
  {
    CallsWhenAllAbsent(Listing(responses, now).value, options, head, copy);
  }

  /** A run in which the destination holds every listed object skips them
      all, sending one list request per page and one head request per
      object. */
  lemma RunWhenAllPresent(options: S3MigrationOptions, responses: seq<Try<ListPage>>, head: HeadService, copy: CopyService, now: Timestamp)
    requires ListingEnds(responses)
    requires Listing(responses, now).Ok?
    requires var objects := Listing(responses, now).value;
      forall i :: 0 <= i < |objects| ==> head(HeadRequest(options.destinationBucket, objects[i].key)).Ok?
    ensures var objects := Listing(responses, now).value;
      var run := Migration(options, responses, head, copy, now);
      run.outcome.Ok? &&
      (forall i :: 0 <= i < |objects| ==> run.outcome.value[i].status == Skipped) &&
      |run.sent| == LastResponse(responses) + 1 + |objects|
  {
    CallsWhenAllPresent(Listing(responses, now).value, options, head, copy);
  }

  /** Each object's result depends only on how the destination answers
      for that object's own key: whatever happens to the other objects,
      including their failures, leaves it unchanged. */
  lemma ResultIsolated(objects: seq<S3Object>, i: nat, options: S3MigrationOptions,
                       head: HeadService, copy: CopyService, head': HeadService, copy': CopyService)
    requires i < |objects|
    requires head(HeadRequest(options.destinationBucket, objects[i].key)) == head'(HeadRequest(options.destinationBucket, objects[i].key))
    requires var req := CopyObjectCommand(objects[i].key, objects[i].key, options.sourceBucket, options.destinationBucket);
      copy(req) == copy'(req)
    ensures Results(objects, options, head, copy)[i] == Results(objects, options, head', copy')[i]
  {
  }
}
