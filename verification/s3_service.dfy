/**
  `S3Service.multipartUpload` written as the Java method is: one loop over
  the part index with the guard `i * partSize < bytes.length`, an explicit
  failure flag standing for the try/catch, and the same requests in the same
  order. It is proved to compute exactly the run of the functional model.
 */
module S3Service {
  import opened Results
  import opened ChunkPlanner
  import opened UploadProtocol

  /**
    Uploads the file `file` (what reading it produced) under `key` through
    `client`, returning what the Java method returns or throws, together with
    the requests it issued.
   */
  method MultipartUpload(client: Client, key: Key, file: Result<Bytes>)
    returns (outcome: Result<string>, trace: seq<Call>)
    ensures Run(outcome, trace) == Upload(client, key, file)
  {
    var init := Initiate(key);
    trace := [init];
    var created := client(init);
    if created.Err? {
      outcome := Err(created.error);
      return;
    }
    var id := created.value;
    if file.Err? {
      outcome := Err(file.error);
      return;
    }
    var bytes := file.value;

    // The try block: the part loop, then the complete request.
    var sent := UploadParts(client, key, id, bytes);
    trace := trace + sent.trace;
    var failure: Option<Error>;
    match sent.result {
      case Err(e) =>
        failure := Some(e);
      case Ok(completed) =>
        var done := Complete(key, id, completed);
        trace := trace + [done];
        var reply := client(done);
        failure := if reply.Err? then Some(reply.error) else None;
    }

    // The catch clause: abort, then rethrow unless the abort threw.
    match failure {
      case Some(e) =>
        var abort := Abort(key, id);
        trace := trace + [abort];
        var reply := client(abort);
        outcome := if reply.Ok? then Err(e) else Err(reply.error);
      case None =>
        outcome := Ok(CompleteMessage);
    }
  }

  /**
    The part loop of the try block: `for (i = 0; i * partSize < bytes.length; i++)`
    uploads part i + 1, the slice [i * partSize, min(i * partSize + partSize,
    bytes.length)), and records its ETag; an exception ends the loop.
   */
  method UploadParts(client: Client, key: Key, id: UploadId, bytes: Bytes) returns (sent: Sent)
    ensures sent == SendParts(client, key, id, bytes, Plan(|bytes|, PartSize))
  {
    var trace: seq<Call> := [];
    var completed: seq<CompletedPart> := [];
    ghost var plan := Plan(|bytes|, PartSize);
    var i: nat := 0;
    PlanShape(|bytes|, PartSize);
    PlanIndex(|bytes|, PartSize, 0);
    assert plan[0..] == plan;
    AfterNothing(SendParts(client, key, id, bytes, plan));
    while i * PartSize < |bytes|
      invariant i <= |plan|
      invariant i * PartSize < |bytes| <==> i < |plan|
      invariant SendParts(client, key, id, bytes, plan)
                == After(completed, trace, SendParts(client, key, id, bytes, plan[i..]))
      decreases |plan| - i
    {
      var start := i * PartSize;
      var end := Min(start + PartSize, |bytes|);
      var call := UploadPart(key, id, i + 1, bytes[start..end]);
      assert call == PartCall(key, id, bytes, plan[i]);
      SendPartsStep(client, key, id, bytes, plan, i);
      var reply := client(call);
      if reply.Err? {
        sent := Sent(Err(reply.error), trace + [call]);
        return;
      }
      AfterAfter(completed, trace, [CompletedPart(i + 1, reply.value)], [call],
                 SendParts(client, key, id, bytes, plan[i + 1..]));
      completed := completed + [CompletedPart(i + 1, reply.value)];
      trace := trace + [call];
      i := i + 1;
      PlanIndex(|bytes|, PartSize, i);
    }
    assert plan[i..] == [];
    assert completed + [] == completed && trace + [] == trace;
    sent := Sent(Ok(completed), trace);
  }
}
