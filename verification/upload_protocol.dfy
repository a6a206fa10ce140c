/**
  The multipart upload protocol of `S3Service.multipartUpload`, with the S3
  client abstracted as an oracle that answers each request with a value or an
  exception. A run returns the outcome of the upload together with the trace
  of requests issued to the client, in order:

    Initiate(key)                      CreateMultipartUpload
    UploadPart(key, id, n, body)       UploadPart, part number n
    Complete(key, id, parts)           CompleteMultipartUpload
    Abort(key, id)                     AbortMultipartUpload
 */
module UploadProtocol {
  import opened Results
  import opened ChunkPlanner

  type Key = string
  type UploadId = string
  type ETag = string

  /** An entry of the part list sent with the complete request. */
  datatype CompletedPart = CompletedPart(number: nat, etag: ETag)

  /** A request issued to the storage client. */
  datatype Call =
    | Initiate(key: Key)
    | UploadPart(key: Key, uploadId: UploadId, number: nat, body: Bytes)
    | Complete(key: Key, uploadId: UploadId, parts: seq<CompletedPart>)
    | Abort(key: Key, uploadId: UploadId)

  /**
    The storage client: the reply to each request. The value of a successful
    reply is the upload id for Initiate and the ETag for UploadPart; it is
    ignored for Complete and Abort.
   */
  type Client = Call -> Result<string>

  /** What one upload returns or throws, and the requests it issued. */
  datatype Run = Run(outcome: Result<string>, trace: seq<Call>)

  const CompleteMessage: string := "Multipart upload complete"

  // ---------------------------------------------------------------------------
  // The part loop

  /** The upload request for one planned part: its number and its slice of the payload. */
  function PartCall(key: Key, id: UploadId, bytes: Bytes, p: Part): Call
    requires p.start <= p.end <= |bytes|
  {
    UploadPart(key, id, p.number, bytes[p.start..p.end])
  }

  /** The upload requests for a sequence of planned parts, in plan order. */
  function PartCalls(key: Key, id: UploadId, bytes: Bytes, plan: seq<Part>): seq<Call>
    requires Fits(plan, |bytes|)
  {
    seq(|plan|, j requires 0 <= j < |plan| => PartCall(key, id, bytes, plan[j]))
  }

  /** The part list a complete request should carry: each planned part with the ETag the client returned for it. */
  function Receipts(client: Client, key: Key, id: UploadId, bytes: Bytes, plan: seq<Part>): seq<CompletedPart>
    requires Fits(plan, |bytes|)
    requires forall j :: 0 <= j < |plan| ==> client(PartCall(key, id, bytes, plan[j])).Ok?
  {
    seq(|plan|, j requires 0 <= j < |plan| =>
      CompletedPart(plan[j].number, client(PartCall(key, id, bytes, plan[j])).value))
  }

  /** The index of the first planned part whose upload the client rejects, or |plan| if none. */
  function FirstRejected(client: Client, key: Key, id: UploadId, bytes: Bytes, plan: seq<Part>): (k: nat)
    requires Fits(plan, |bytes|)
    ensures k <= |plan|
    ensures forall j :: 0 <= j < k ==> client(PartCall(key, id, bytes, plan[j])).Ok?
    ensures k < |plan| ==> client(PartCall(key, id, bytes, plan[k])).Err?
  {
    if plan == [] || client(PartCall(key, id, bytes, plan[0])).Err? then 0
    else 1 + FirstRejected(client, key, id, bytes, plan[1..])
  }

  /** The result of the part loop: the collected part list, or the exception that ended it. */
  datatype Sent = Sent(result: Result<seq<CompletedPart>>, trace: seq<Call>)

  /**
    The part loop: uploads the planned parts strictly in order, recording each
    returned ETag, and stops at the first exception.
   */
  function SendParts(client: Client, key: Key, id: UploadId, bytes: Bytes, plan: seq<Part>): Sent
    requires Fits(plan, |bytes|)
  {
    if plan == [] then Sent(Ok([]), [])
    else
      var call := PartCall(key, id, bytes, plan[0]);
      match client(call)
      case Err(e) => Sent(Err(e), [call])
      case Ok(etag) =>
        After([CompletedPart(plan[0].number, etag)], [call], SendParts(client, key, id, bytes, plan[1..]))
  }

  /**
    The part loop issues the upload requests of the planned parts in order up
    to the first one the client rejects. If there is none, it yields the part
    list of all planned parts with their ETags; otherwise it yields the
    rejected request's exception.
   */
  lemma {:induction false} SendPartsCases(client: Client, key: Key, id: UploadId, bytes: Bytes, plan: seq<Part>)
    requires Fits(plan, |bytes|)
    ensures var sent := SendParts(client, key, id, bytes, plan);
      var k := FirstRejected(client, key, id, bytes, plan);
      if k == |plan| then
        && sent.trace == PartCalls(key, id, bytes, plan)
        && sent.result == Ok(Receipts(client, key, id, bytes, plan))
      else
        && sent.trace == PartCalls(key, id, bytes, plan[..k + 1])
        && sent.result == Err(client(PartCall(key, id, bytes, plan[k])).error)
  {
    if plan != [] {
      if client(PartCall(key, id, bytes, plan[0])).Err? {
        SendPartsRejectedFirst(client, key, id, bytes, plan);
      } else {
        SendPartsCases(client, key, id, bytes, plan[1..]);
        if FirstRejected(client, key, id, bytes, plan[1..]) < |plan| - 1 {
          SendPartsRejectedLater(client, key, id, bytes, plan);
        } else {
          SendPartsAllAccepted(client, key, id, bytes, plan);
        }
      }
    } else {
      assert |Receipts(client, key, id, bytes, plan)| == 0;
    }
  }

  /** The step of `SendPartsCases` where the first part is rejected. */
  lemma SendPartsRejectedFirst(client: Client, key: Key, id: UploadId, bytes: Bytes, plan: seq<Part>)
    requires Fits(plan, |bytes|) && plan != []
    requires client(PartCall(key, id, bytes, plan[0])).Err?
    ensures FirstRejected(client, key, id, bytes, plan) == 0
    ensures SendParts(client, key, id, bytes, plan)
            == Sent(Err(client(PartCall(key, id, bytes, plan[0])).error), PartCalls(key, id, bytes, plan[..1]))
  {
    assert plan[..1] == [plan[0]];
  }

  /** The step of `SendPartsCases` where every part is accepted. */
  lemma SendPartsAllAccepted(client: Client, key: Key, id: UploadId, bytes: Bytes, plan: seq<Part>)
    requires Fits(plan, |bytes|) && plan != []
    requires client(PartCall(key, id, bytes, plan[0])).Ok?
    requires FirstRejected(client, key, id, bytes, plan[1..]) == |plan| - 1
    requires SendParts(client, key, id, bytes, plan[1..])
             == Sent(Ok(Receipts(client, key, id, bytes, plan[1..])), PartCalls(key, id, bytes, plan[1..]))
    ensures FirstRejected(client, key, id, bytes, plan) == |plan|
    ensures SendParts(client, key, id, bytes, plan)
            == Sent(Ok(Receipts(client, key, id, bytes, plan)), PartCalls(key, id, bytes, plan))
  {
    PartCallsCons(key, id, bytes, plan);
    ReceiptsCons(client, key, id, bytes, plan);
  }

  /** The step of `SendPartsCases` where the first part is accepted and a later one is rejected. */
  lemma SendPartsRejectedLater(client: Client, key: Key, id: UploadId, bytes: Bytes, plan: seq<Part>)
    requires Fits(plan, |bytes|) && plan != []
    requires client(PartCall(key, id, bytes, plan[0])).Ok?
    requires var k := FirstRejected(client, key, id, bytes, plan[1..]);
      && k < |plan| - 1
      && SendParts(client, key, id, bytes, plan[1..])
         == Sent(Err(client(PartCall(key, id, bytes, plan[1..][k])).error), PartCalls(key, id, bytes, plan[1..][..k + 1]))
    ensures var k := FirstRejected(client, key, id, bytes, plan);
      && k < |plan|
      && SendParts(client, key, id, bytes, plan)
         == Sent(Err(client(PartCall(key, id, bytes, plan[k])).error), PartCalls(key, id, bytes, plan[..k + 1]))
  {
    var call := PartCall(key, id, bytes, plan[0]);
    var k := FirstRejected(client, key, id, bytes, plan[1..]);
    assert FirstRejected(client, key, id, bytes, plan) == k + 1;
    assert plan[1..][k] == plan[k + 1];
    assert plan[..k + 2][0] == plan[0];
    assert plan[..k + 2][1..] == plan[1..][..k + 1];
    PartCallsCons(key, id, bytes, plan[..k + 2]);
    assert PartCalls(key, id, bytes, plan[..k + 2]) == [call] + PartCalls(key, id, bytes, plan[1..][..k + 1]);
  }

  lemma PartCallsCons(key: Key, id: UploadId, bytes: Bytes, plan: seq<Part>)
    requires Fits(plan, |bytes|) && plan != []
    ensures PartCalls(key, id, bytes, plan)
            == [PartCall(key, id, bytes, plan[0])] + PartCalls(key, id, bytes, plan[1..])
  {
  }

  lemma ReceiptsCons(client: Client, key: Key, id: UploadId, bytes: Bytes, plan: seq<Part>)
    requires Fits(plan, |bytes|) && plan != []
    requires forall j :: 0 <= j < |plan| ==> client(PartCall(key, id, bytes, plan[j])).Ok?
    ensures Receipts(client, key, id, bytes, plan)
            == [CompletedPart(plan[0].number, client(PartCall(key, id, bytes, plan[0])).value)]
               + Receipts(client, key, id, bytes, plan[1..])
  {
  }

  /** Parts already collected and requests already issued, followed by what the remaining iterations produce. */
  function After(done: seq<CompletedPart>, calls: seq<Call>, rest: Sent): Sent {
    Sent(if rest.result.Ok? then Ok(done + rest.result.value) else rest.result, calls + rest.trace)
  }

  // ---------------------------------------------------------------------------
  // The try block and its catch clause

  /**
    The catch clause: abort the upload with the same key and upload id, then
    rethrow the caught exception. An exception thrown by the abort itself
    escapes instead and replaces the caught one.
   */
  function AbortAndRethrow(client: Client, key: Key, id: UploadId, trace: seq<Call>, e: Error): Run
  {
    var abort := Abort(key, id);
    match client(abort)
    case Ok(_) => Run(Err(e), trace + [abort])
    case Err(abortError) => Run(Err(abortError), trace + [abort])
  }

  /** The try block: upload every planned part, then complete with the collected list. */
  function Transfer(client: Client, key: Key, id: UploadId, bytes: Bytes): (run: Run)
  {
    var plan := Plan(|bytes|, PartSize);
    var sent := SendParts(client, key, id, bytes, plan);
    match sent.result
    case Err(e) => AbortAndRethrow(client, key, id, sent.trace, e)
    case Ok(parts) =>
      var done := Complete(key, id, parts);
      match client(done)
      case Err(e) => AbortAndRethrow(client, key, id, sent.trace + [done], e)
      case Ok(_) => Run(Ok(CompleteMessage), sent.trace + [done])
  }

  /**
    The whole upload. Initiation comes before the try block, and so does
    reading the file (`file` is what reading it produced): an exception from
    either propagates without an abort.
   */
  function Upload(client: Client, key: Key, file: Result<Bytes>): (run: Run)
    ensures |run.trace| > 0 && run.trace[0] == Initiate(key)
    ensures client(Initiate(key)).Err? ==> run == Run(client(Initiate(key)), [Initiate(key)])
  {
    var init := Initiate(key);
    match client(init)
    case Err(e) => Run(Err(e), [init])
    case Ok(id) =>
      match file
      case Err(e) => Run(Err(e), [init])
      case Ok(bytes) =>
        var t := Transfer(client, key, id, bytes);
        Run(t.outcome, [init] + t.trace)
  }

  // ---------------------------------------------------------------------------
  // Views of a run

  /** Every planned part of the payload is accepted by the client. */
  predicate AllPartsAccepted(client: Client, key: Key, id: UploadId, bytes: Bytes) {
    var plan := Plan(|bytes|, PartSize);
    forall j :: 0 <= j < |plan| ==> client(PartCall(key, id, bytes, plan[j])).Ok?
  }

  /** The bodies of the part uploads of a trace, in order. */
  function Bodies(calls: seq<Call>): seq<Bytes> {
    if calls == [] then [] else BodyOf(calls[0]) + Bodies(calls[1..])
  }

  /** The body a request uploads: its part bytes for a part upload, nothing otherwise. */
  function BodyOf(call: Call): seq<Bytes> {
    if call.UploadPart? then [call.body] else []
  }

  /**
    An upload that was initiated is not left open: its last request is an
    abort, or a complete the client accepted.
   */
  predicate Released(client: Client, run: Run) {
    |run.trace| > 0 && run.trace[0].Initiate? && client(run.trace[0]).Ok? ==>
      var last := run.trace[|run.trace| - 1];
      last.Abort? || (last.Complete? && client(last).Ok?)
  }

  /** A request that ends the upload `id`: its abort, or a complete of it. */
  predicate Closing(call: Call, key: Key, id: UploadId) {
    call == Abort(key, id) || (call.Complete? && call.key == key && call.uploadId == id)
  }

  // ---------------------------------------------------------------------------
  // The try block, case by case

  /**
    The try block when a part upload is rejected: the part uploads up to and
    including the rejected one, then the abort; the rejected upload's
    exception is rethrown unless the abort throws its own.
   */
  lemma TransferWhenRejected(client: Client, key: Key, id: UploadId, bytes: Bytes)
    requires FirstRejected(client, key, id, bytes, Plan(|bytes|, PartSize)) < |Plan(|bytes|, PartSize)|
    ensures var plan := Plan(|bytes|, PartSize);
      var k := FirstRejected(client, key, id, bytes, plan);
      var run := Transfer(client, key, id, bytes);
      && run.trace == PartCalls(key, id, bytes, plan[..k + 1]) + [Abort(key, id)]
      && run.outcome == if client(Abort(key, id)).Ok? then client(PartCall(key, id, bytes, plan[k]))
                        else client(Abort(key, id))
  {
    SendPartsCases(client, key, id, bytes, Plan(|bytes|, PartSize));
  }

  /**
    The try block when every part upload is accepted: all part uploads, then
    the complete with the collected part list, then an abort if the complete
    is rejected, whose exception is rethrown unless the abort throws its own.
   */
  lemma TransferWhenAccepted(client: Client, key: Key, id: UploadId, bytes: Bytes)
    requires FirstRejected(client, key, id, bytes, Plan(|bytes|, PartSize)) == |Plan(|bytes|, PartSize)|
    ensures var plan := Plan(|bytes|, PartSize);
      var done := CompleteCall(client, key, id, bytes, plan);
      var run := Transfer(client, key, id, bytes);
      && run.trace == PartCalls(key, id, bytes, plan) + (if client(done).Ok? then [done] else [done, Abort(key, id)])
      && run.outcome == if client(done).Ok? then Ok(CompleteMessage)
                        else if client(Abort(key, id)).Ok? then client(done)
                        else client(Abort(key, id))
  {
    var plan := Plan(|bytes|, PartSize);
    var parts := PartCalls(key, id, bytes, plan);
    var done := CompleteCall(client, key, id, bytes, plan);
    SendPartsCases(client, key, id, bytes, plan);
    assert parts + [done] + [Abort(key, id)] == parts + [done, Abort(key, id)];
  }

  /** Once initiation and the read succeed, the run is the initiation followed by the try block. */
  lemma UploadUnfold(client: Client, key: Key, bytes: Bytes)
    requires client(Initiate(key)).Ok?
    ensures var t := Transfer(client, key, client(Initiate(key)).value, bytes);
      Upload(client, key, Ok(bytes)) == Run(t.outcome, [Initiate(key)] + t.trace)
  {
  }

  // ---------------------------------------------------------------------------
  // A run in closed form

  /** How many part uploads a run issues: up to and including the first rejected one, or all of them. */
  function Attempted(client: Client, key: Key, id: UploadId, bytes: Bytes, plan: seq<Part>): (m: nat)
    requires Fits(plan, |bytes|)
    ensures m <= |plan|
  {
    var k := FirstRejected(client, key, id, bytes, plan);
    if k < |plan| then k + 1 else |plan|
  }

  /** The complete request of a run in which every planned part was accepted. */
  function CompleteCall(client: Client, key: Key, id: UploadId, bytes: Bytes, plan: seq<Part>): Call
    requires Fits(plan, |bytes|)
    requires forall j :: 0 <= j < |plan| ==> client(PartCall(key, id, bytes, plan[j])).Ok?
  {
    Complete(key, id, Receipts(client, key, id, bytes, plan))
  }

  /**
    The requests a run issues after its part uploads: the abort after a
    rejected part; otherwise the complete, followed by the abort when the
    client rejects the complete.
   */
  function Ending(client: Client, key: Key, id: UploadId, bytes: Bytes, plan: seq<Part>): seq<Call>
    requires Fits(plan, |bytes|)
  {
    if FirstRejected(client, key, id, bytes, plan) < |plan| then [Abort(key, id)]
    else
      var done := CompleteCall(client, key, id, bytes, plan);
      if client(done).Ok? then [done] else [done, Abort(key, id)]
  }

  /**
    What a run returns or throws: the first rejected part's exception, or the
    rejected complete's, either one replaced by the abort's own exception
    when the abort throws too; the success message when nothing is rejected.
   */
  function Outcome(client: Client, key: Key, id: UploadId, bytes: Bytes, plan: seq<Part>): Result<string>
    requires Fits(plan, |bytes|)
  {
    var k := FirstRejected(client, key, id, bytes, plan);
    var abort := client(Abort(key, id));
    if k < |plan| then
      if abort.Ok? then client(PartCall(key, id, bytes, plan[k])) else abort
    else
      var done := client(CompleteCall(client, key, id, bytes, plan));
      if done.Ok? then Ok(CompleteMessage) else if abort.Ok? then done else abort
  }

  /**
    The run of an upload initiated with id `id`, in closed form: the
    initiation, the attempted part uploads, then the ending.
   */
  function Expected(client: Client, key: Key, id: UploadId, bytes: Bytes, plan: seq<Part>): Run
    requires Fits(plan, |bytes|)
  {
    Run(Outcome(client, key, id, bytes, plan), ExpectedTrace(client, key, id, bytes, plan))
  }

  /** The requests of the closed-form run. */
  function ExpectedTrace(client: Client, key: Key, id: UploadId, bytes: Bytes, plan: seq<Part>): seq<Call>
    requires Fits(plan, |bytes|)
  {
    var m := Attempted(client, key, id, bytes, plan);
    [Initiate(key)] + PartCalls(key, id, bytes, plan[..m]) + Ending(client, key, id, bytes, plan)
  }

  /**
    The part loop and the closed form agree: once initiation and the file
    read succeed, the upload issues exactly the requests of `Expected`, in
    order, and returns or throws its outcome.
   */
  lemma UploadMatchesExpected(client: Client, key: Key, bytes: Bytes)
    requires client(Initiate(key)).Ok?
    ensures Upload(client, key, Ok(bytes))
            == Expected(client, key, client(Initiate(key)).value, bytes, Plan(|bytes|, PartSize))
  {
    var id := client(Initiate(key)).value;
    var plan := Plan(|bytes|, PartSize);
    UploadUnfold(client, key, bytes);
    if FirstRejected(client, key, id, bytes, plan) < |plan| {
      TransferWhenRejected(client, key, id, bytes);
    } else {
      TransferWhenAccepted(client, key, id, bytes);
      assert plan[..|plan|] == plan;
    }
  }

  /** Positions in the closed-form trace. */
  lemma ExpectedLayout(client: Client, key: Key, id: UploadId, bytes: Bytes, plan: seq<Part>)
    requires Fits(plan, |bytes|)
    ensures var trace := ExpectedTrace(client, key, id, bytes, plan);
      var m := Attempted(client, key, id, bytes, plan);
      var ending := Ending(client, key, id, bytes, plan);
      && |trace| == m + 1 + |ending|
      && trace[0] == Initiate(key)
      && (forall t :: 1 <= t <= m ==> trace[t] == PartCall(key, id, bytes, plan[t - 1]))
      && (forall t :: 0 <= t < |ending| ==> trace[m + 1 + t] == ending[t])
  {
    var m := Attempted(client, key, id, bytes, plan);
    var ending := Ending(client, key, id, bytes, plan);
    PrefixLayout(key, id, bytes, plan, m, ending);
    assert ExpectedTrace(client, key, id, bytes, plan) == [Initiate(key)] + PartCalls(key, id, bytes, plan[..m]) + ending;
  }

  /** Positions in a trace made of the initiation, the uploads of the first m planned parts, and an ending. */
  lemma PrefixLayout(key: Key, id: UploadId, bytes: Bytes, plan: seq<Part>, m: nat, ending: seq<Call>)
    requires Fits(plan, |bytes|) && m <= |plan|
    ensures var trace := [Initiate(key)] + PartCalls(key, id, bytes, plan[..m]) + ending;
      && |trace| == m + 1 + |ending|
      && trace[0] == Initiate(key)
      && (forall t :: 1 <= t <= m ==> trace[t] == PartCall(key, id, bytes, plan[t - 1]))
      && (forall t :: 0 <= t < |ending| ==> trace[m + 1 + t] == ending[t])
  {
  }

  /** Positions in a sequence made of a head, a middle part and a tail. */
  lemma Layout<T>(head: T, middle: seq<T>, tail: seq<T>)
    ensures var s := [head] + middle + tail;
      && |s| == 1 + |middle| + |tail|
      && s[0] == head
      && (forall t :: 1 <= t <= |middle| ==> s[t] == middle[t - 1])
      && (forall t :: 0 <= t < |tail| ==> s[1 + |middle| + t] == tail[t])
  {
  }

  // ---------------------------------------------------------------------------
  // Properties of a run

  /**
    The upload succeeds exactly when initiation, reading the file, every part
    upload and the complete request all succeed.
   */
  lemma UploadSucceedsIff(client: Client, key: Key, file: Result<Bytes>)
    ensures Upload(client, key, file).outcome.Ok? <==>
      && client(Initiate(key)).Ok?
      && file.Ok?
      && var id := client(Initiate(key)).value;
         var plan := Plan(|file.value|, PartSize);
         && AllPartsAccepted(client, key, id, file.value)
         && client(CompleteCall(client, key, id, file.value, plan)).Ok?
  {
    if client(Initiate(key)).Ok? && file.Ok? {
      UploadMatchesExpected(client, key, file.value);
    }
  }

  /**
    A successful upload returns "Multipart upload complete" after issuing
    exactly: initiate, one upload per planned part in plan order, and one
    complete with the collected part list; it never aborts.
   */
  lemma SuccessfulUpload(client: Client, key: Key, file: Result<Bytes>)
    requires Upload(client, key, file).outcome.Ok?
    ensures client(Initiate(key)).Ok? && file.Ok?
    ensures var run := Upload(client, key, file);
      var id := client(Initiate(key)).value;
      var bytes := file.value;
      var plan := Plan(|bytes|, PartSize);
      && AllPartsAccepted(client, key, id, bytes)
      && run.outcome == Ok(CompleteMessage)
      && run.trace == [Initiate(key)] + PartCalls(key, id, bytes, plan)
                      + [CompleteCall(client, key, id, bytes, plan)]
      && forall t :: 0 <= t < |run.trace| ==> !run.trace[t].Abort?
  {
    UploadSucceedsIff(client, key, file);
    var id := client(Initiate(key)).value;
    var bytes := file.value;
    UploadMatchesExpected(client, key, bytes);
    ExpectedSuccess(client, key, id, bytes, Plan(|bytes|, PartSize));
  }

  /** `SuccessfulUpload` for the closed form. */
  lemma ExpectedSuccess(client: Client, key: Key, id: UploadId, bytes: Bytes, plan: seq<Part>)
    requires Fits(plan, |bytes|)
    requires Outcome(client, key, id, bytes, plan).Ok?
    ensures forall j :: 0 <= j < |plan| ==> client(PartCall(key, id, bytes, plan[j])).Ok?
    ensures var trace := ExpectedTrace(client, key, id, bytes, plan);
      && Outcome(client, key, id, bytes, plan) == Ok(CompleteMessage)
      && trace == [Initiate(key)] + PartCalls(key, id, bytes, plan)
                  + [CompleteCall(client, key, id, bytes, plan)]
      && forall t :: 0 <= t < |trace| ==> !trace[t].Abort?
  {
    var parts := PartCalls(key, id, bytes, plan);
    var done := CompleteCall(client, key, id, bytes, plan);
    assert FirstRejected(client, key, id, bytes, plan) == |plan|;
    assert plan[..|plan|] == plan;
    assert ExpectedTrace(client, key, id, bytes, plan) == [Initiate(key)] + parts + [done];
    Layout(Initiate(key), parts, [done]);
  }

  /**
    Parts are uploaded first, strictly in order and without gaps: the request
    at trace position t is the upload of part number t, whose body is the
    t-th slice of the payload, and every request between the initiation and
    it is a part upload too.
   */
  lemma PartsUploadedInOrder(client: Client, key: Key, bytes: Bytes)
    requires client(Initiate(key)).Ok?
    ensures var trace := Upload(client, key, Ok(bytes)).trace;
      var plan := Plan(|bytes|, PartSize);
      forall t :: 0 < t < |trace| && trace[t].UploadPart? ==>
        && t <= |plan|
        && trace[t].number == t
        && trace[t].body == Slices(bytes, plan)[t - 1]
        && (forall s :: 0 < s < t ==> trace[s].UploadPart?)
  {
    UploadMatchesExpected(client, key, bytes);
    ExpectedInOrder(client, key, client(Initiate(key)).value, bytes, Plan(|bytes|, PartSize));
  }

  /** `PartsUploadedInOrder` for the closed form, over any plan numbered from 1. */
  lemma ExpectedInOrder(client: Client, key: Key, id: UploadId, bytes: Bytes, plan: seq<Part>)
    requires Fits(plan, |bytes|)
    requires forall j :: 0 <= j < |plan| ==> plan[j].number == j + 1
    ensures var trace := ExpectedTrace(client, key, id, bytes, plan);
      forall t :: 0 < t < |trace| && trace[t].UploadPart? ==>
        && t <= |plan|
        && trace[t].number == t
        && trace[t].body == Slices(bytes, plan)[t - 1]
        && (forall s :: 0 < s < t ==> trace[s].UploadPart?)
  {
    var m := Attempted(client, key, id, bytes, plan);
    var ending := Ending(client, key, id, bytes, plan);
    EndingCloses(client, key, id, bytes, plan);
    PrefixInOrder(key, id, bytes, plan, m, ending);
    assert ExpectedTrace(client, key, id, bytes, plan)
        == [Initiate(key)] + PartCalls(key, id, bytes, plan[..m]) + ending;
  }

  /** The part uploads of a trace with a closing ending come first, in plan order. */
  lemma PrefixInOrder(key: Key, id: UploadId, bytes: Bytes, plan: seq<Part>, m: nat, ending: seq<Call>)
    requires Fits(plan, |bytes|) && m <= |plan|
    requires forall j :: 0 <= j < |plan| ==> plan[j].number == j + 1
    requires forall t :: 0 <= t < |ending| ==> Closing(ending[t], key, id)
    ensures var trace := [Initiate(key)] + PartCalls(key, id, bytes, plan[..m]) + ending;
      forall t :: 0 < t < |trace| && trace[t].UploadPart? ==>
        && t <= |plan|
        && trace[t].number == t
        && trace[t].body == Slices(bytes, plan)[t - 1]
        && (forall s :: 0 < s < t ==> trace[s].UploadPart?)
  {
    PrefixLayout(key, id, bytes, plan, m, ending);
  }

  /**
    A complete request is issued at most once, right after the last planned
    part and only when every planned part was accepted; its part list holds
    one entry per part, numbered 1, 2, ... in ascending order, each with the
    ETag the client returned for the upload of that part.
   */
  lemma CompleteRequest(client: Client, key: Key, bytes: Bytes)
    requires client(Initiate(key)).Ok?
    ensures var trace := Upload(client, key, Ok(bytes)).trace;
      var id := client(Initiate(key)).value;
      var plan := Plan(|bytes|, PartSize);
      forall t :: 0 <= t < |trace| && trace[t].Complete? ==>
        && t == |plan| + 1
        && AllPartsAccepted(client, key, id, bytes)
        && |trace[t].parts| == |plan|
        && forall j :: 0 <= j < |plan| ==>
             && trace[t].parts[j].number == j + 1
             && trace[j + 1].UploadPart? && trace[j + 1].number == j + 1
             && client(trace[j + 1]) == Ok(trace[t].parts[j].etag)
  {
    UploadMatchesExpected(client, key, bytes);
    ExpectedComplete(client, key, client(Initiate(key)).value, bytes, Plan(|bytes|, PartSize));
  }

  /** `CompleteRequest` for the closed form, over any plan numbered from 1. */
  lemma ExpectedComplete(client: Client, key: Key, id: UploadId, bytes: Bytes, plan: seq<Part>)
    requires Fits(plan, |bytes|)
    requires forall j :: 0 <= j < |plan| ==> plan[j].number == j + 1
    ensures var trace := ExpectedTrace(client, key, id, bytes, plan);
      forall t :: 0 <= t < |trace| && trace[t].Complete? ==>
        && t == |plan| + 1
        && (forall j :: 0 <= j < |plan| ==> client(PartCall(key, id, bytes, plan[j])).Ok?)
        && |trace[t].parts| == |plan|
        && forall j :: 0 <= j < |plan| ==>
             && trace[t].parts[j].number == j + 1
             && trace[j + 1].UploadPart? && trace[j + 1].number == j + 1
             && client(trace[j + 1]) == Ok(trace[t].parts[j].etag)
  {
    var m := Attempted(client, key, id, bytes, plan);
    var ending := Ending(client, key, id, bytes, plan);
    EndingCompletes(client, key, id, bytes, plan);
    PrefixComplete(client, key, id, bytes, plan, m, ending);
    assert ExpectedTrace(client, key, id, bytes, plan)
        == [Initiate(key)] + PartCalls(key, id, bytes, plan[..m]) + ending;
  }

  /** A complete request in an ending comes first, after every planned part was uploaded and accepted. */
  lemma EndingCompletes(client: Client, key: Key, id: UploadId, bytes: Bytes, plan: seq<Part>)
    requires Fits(plan, |bytes|)
    ensures var ending := Ending(client, key, id, bytes, plan);
      forall t :: 0 <= t < |ending| && ending[t].Complete? ==>
        && t == 0
        && Attempted(client, key, id, bytes, plan) == |plan|
        && (forall j :: 0 <= j < |plan| ==> client(PartCall(key, id, bytes, plan[j])).Ok?)
        && ending[t] == CompleteCall(client, key, id, bytes, plan)
  {
  }

  /** The complete request of a trace whose ending completes only after all m == |plan| parts were accepted. */
  lemma PrefixComplete(client: Client, key: Key, id: UploadId, bytes: Bytes, plan: seq<Part>, m: nat, ending: seq<Call>)
    requires Fits(plan, |bytes|) && m <= |plan|
    requires forall j :: 0 <= j < |plan| ==> plan[j].number == j + 1
    requires forall t :: 0 <= t < |ending| && ending[t].Complete? ==>
      && t == 0
      && m == |plan|
      && (forall j :: 0 <= j < |plan| ==> client(PartCall(key, id, bytes, plan[j])).Ok?)
      && ending[t] == CompleteCall(client, key, id, bytes, plan)
    ensures var trace := [Initiate(key)] + PartCalls(key, id, bytes, plan[..m]) + ending;
      forall t :: 0 <= t < |trace| && trace[t].Complete? ==>
        && t == |plan| + 1
        && (forall j :: 0 <= j < |plan| ==> client(PartCall(key, id, bytes, plan[j])).Ok?)
        && |trace[t].parts| == |plan|
        && forall j :: 0 <= j < |plan| ==>
             && trace[t].parts[j].number == j + 1
             && trace[j + 1].UploadPart? && trace[j + 1].number == j + 1
             && client(trace[j + 1]) == Ok(trace[t].parts[j].etag)
  {
    PrefixLayout(key, id, bytes, plan, m, ending);
  }

  /**
    Every request after the initiation belongs to the same upload: it names
    the same key and the upload id that initiation returned.
   */
  lemma SameSession(client: Client, key: Key, file: Result<Bytes>)
    requires client(Initiate(key)).Ok?
    ensures var trace := Upload(client, key, file).trace;
      forall t :: 0 < t < |trace| ==>
        && !trace[t].Initiate?
        && trace[t].key == key
        && trace[t].uploadId == client(Initiate(key)).value
  {
    if file.Ok? {
      UploadMatchesExpected(client, key, file.value);
      ExpectedSameSession(client, key, client(Initiate(key)).value, file.value, Plan(|file.value|, PartSize));
    }
  }

  /** `SameSession` for the closed form. */
  lemma ExpectedSameSession(client: Client, key: Key, id: UploadId, bytes: Bytes, plan: seq<Part>)
    requires Fits(plan, |bytes|)
    ensures var trace := ExpectedTrace(client, key, id, bytes, plan);
      forall t :: 0 < t < |trace| ==> !trace[t].Initiate? && trace[t].key == key && trace[t].uploadId == id
  {
    var m := Attempted(client, key, id, bytes, plan);
    var ending := Ending(client, key, id, bytes, plan);
    EndingCloses(client, key, id, bytes, plan);
    PrefixSameSession(key, id, bytes, plan, m, ending);
    assert ExpectedTrace(client, key, id, bytes, plan)
        == [Initiate(key)] + PartCalls(key, id, bytes, plan[..m]) + ending;
  }

  /** Every request after the initiation of a trace with a closing ending names the same key and upload id. */
  lemma PrefixSameSession(key: Key, id: UploadId, bytes: Bytes, plan: seq<Part>, m: nat, ending: seq<Call>)
    requires Fits(plan, |bytes|) && m <= |plan|
    requires forall t :: 0 <= t < |ending| ==> Closing(ending[t], key, id)
    ensures var trace := [Initiate(key)] + PartCalls(key, id, bytes, plan[..m]) + ending;
      forall t :: 0 < t < |trace| ==> !trace[t].Initiate? && trace[t].key == key && trace[t].uploadId == id
  {
    PrefixLayout(key, id, bytes, plan, m, ending);
  }

  /** The ending closes the upload: an abort, or a complete followed by an abort when the complete is rejected. */
  lemma EndingCloses(client: Client, key: Key, id: UploadId, bytes: Bytes, plan: seq<Part>)
    requires Fits(plan, |bytes|)
    ensures var ending := Ending(client, key, id, bytes, plan);
      && 1 <= |ending| <= 2
      && (forall t :: 0 <= t < |ending| ==> Closing(ending[t], key, id))
      && (ending[|ending| - 1].Abort? || client(ending[|ending| - 1]).Ok?)
  {
  }

  /**
    When a part upload or the complete request fails, the upload is aborted
    exactly once, as its last request, with the key and upload id of the
    session; the failed request is the one just before the abort, every
    request before it succeeded, no complete follows a failed part, and the
    upload throws the failed request's exception unless the abort itself
    throws, whose exception then escapes instead.
   */
  lemma FailedUploadAbortsOnce(client: Client, key: Key, bytes: Bytes)
    requires client(Initiate(key)).Ok?
    requires Upload(client, key, Ok(bytes)).outcome.Err?
    ensures var run := Upload(client, key, Ok(bytes));
      var id := client(Initiate(key)).value;
      var trace := run.trace;
      var n := |trace|;
      && n >= 3
      && trace[n - 1] == Abort(key, id)
      && (forall t :: 0 <= t < n - 1 ==> !trace[t].Abort?)
      && (trace[n - 2].UploadPart? || trace[n - 2].Complete?)
      && client(trace[n - 2]).Err?
      && (forall t :: 0 <= t < n - 2 ==> client(trace[t]).Ok?)
      && (trace[n - 2].UploadPart? ==> forall t :: 0 <= t < n ==> !trace[t].Complete?)
      && run.outcome == (if client(Abort(key, id)).Ok? then client(trace[n - 2]) else client(Abort(key, id)))
  {
    UploadMatchesExpected(client, key, bytes);
    ExpectedFailure(client, key, client(Initiate(key)).value, bytes, Plan(|bytes|, PartSize));
  }

  /** `FailedUploadAbortsOnce` for the closed form. */
  lemma ExpectedFailure(client: Client, key: Key, id: UploadId, bytes: Bytes, plan: seq<Part>)
    requires Fits(plan, |bytes|)
    requires client(Initiate(key)).Ok?
    requires Expected(client, key, id, bytes, plan).outcome.Err?
    ensures var run := Expected(client, key, id, bytes, plan);
      var trace := run.trace;
      var n := |trace|;
      && n >= 3
      && trace[n - 1] == Abort(key, id)
      && (forall t :: 0 <= t < n - 1 ==> !trace[t].Abort?)
      && (trace[n - 2].UploadPart? || trace[n - 2].Complete?)
      && client(trace[n - 2]).Err?
      && (forall t :: 0 <= t < n - 2 ==> client(trace[t]).Ok?)
      && (trace[n - 2].UploadPart? ==> forall t :: 0 <= t < n ==> !trace[t].Complete?)
      && run.outcome == (if client(Abort(key, id)).Ok? then client(trace[n - 2]) else client(Abort(key, id)))
  {
    var k := FirstRejected(client, key, id, bytes, plan);
    if k < |plan| {
      PrefixPartRejected(client, key, id, bytes, plan, k);
      assert ExpectedTrace(client, key, id, bytes, plan)
          == [Initiate(key)] + PartCalls(key, id, bytes, plan[..k + 1]) + [Abort(key, id)];
    } else {
      PrefixCompleteRejected(client, key, id, bytes, plan);
      assert ExpectedTrace(client, key, id, bytes, plan)
          == [Initiate(key)] + PartCalls(key, id, bytes, plan[..|plan|])
             + [CompleteCall(client, key, id, bytes, plan), Abort(key, id)];
    }
  }

  /** The trace of a run whose part k is the first one rejected: the abort follows that part at once. */
  lemma PrefixPartRejected(client: Client, key: Key, id: UploadId, bytes: Bytes, plan: seq<Part>, k: nat)
    requires Fits(plan, |bytes|) && k < |plan|
    requires client(Initiate(key)).Ok?
    requires forall j :: 0 <= j < k ==> client(PartCall(key, id, bytes, plan[j])).Ok?
    requires client(PartCall(key, id, bytes, plan[k])).Err?
    ensures var trace := [Initiate(key)] + PartCalls(key, id, bytes, plan[..k + 1]) + [Abort(key, id)];
      var n := |trace|;
      && n >= 3
      && trace[n - 1] == Abort(key, id)
      && (forall t :: 0 <= t < n - 1 ==> !trace[t].Abort?)
      && trace[n - 2] == PartCall(key, id, bytes, plan[k])
      && (forall t :: 0 <= t < n - 2 ==> client(trace[t]).Ok?)
      && (forall t :: 0 <= t < n ==> !trace[t].Complete?)
  {
    PrefixLayout(key, id, bytes, plan, k + 1, [Abort(key, id)]);
  }

  /** The trace of a run whose parts were all accepted and whose complete request was rejected. */
  lemma PrefixCompleteRejected(client: Client, key: Key, id: UploadId, bytes: Bytes, plan: seq<Part>)
    requires Fits(plan, |bytes|)
    requires client(Initiate(key)).Ok?
    requires forall j :: 0 <= j < |plan| ==> client(PartCall(key, id, bytes, plan[j])).Ok?
    requires client(CompleteCall(client, key, id, bytes, plan)).Err?
    ensures var trace := [Initiate(key)] + PartCalls(key, id, bytes, plan[..|plan|])
                         + [CompleteCall(client, key, id, bytes, plan), Abort(key, id)];
      var n := |trace|;
      && n >= 3
      && trace[n - 1] == Abort(key, id)
      && (forall t :: 0 <= t < n - 1 ==> !trace[t].Abort?)
      && trace[n - 2] == CompleteCall(client, key, id, bytes, plan)
      && (forall t :: 0 <= t < n - 2 ==> client(trace[t]).Ok?)
  {
    PrefixLayout(key, id, bytes, plan, |plan|, [CompleteCall(client, key, id, bytes, plan), Abort(key, id)]);
  }

  /** Uploading the parts of a successful upload, in trace order, reproduces the payload. */
  lemma UploadedBodiesReassemble(client: Client, key: Key, bytes: Bytes)
    requires Upload(client, key, Ok(bytes)).outcome.Ok?
    ensures Flatten(Bodies(Upload(client, key, Ok(bytes)).trace)) == bytes
  {
    SuccessfulUpload(client, key, Ok(bytes));
    var id := client(Initiate(key)).value;
    var plan := Plan(|bytes|, PartSize);
    var parts := PartCalls(key, id, bytes, plan);
    var done := CompleteCall(client, key, id, bytes, plan);
    assert [Initiate(key)] + parts + [done] == [Initiate(key)] + (parts + [done]);
    BodiesAppend([Initiate(key)], parts + [done]);
    BodiesAppend(parts, [done]);
    BodiesOfPartCalls(key, id, bytes, plan);
    assert Bodies([Initiate(key)]) == [] && Bodies([done]) == [];
    assert Bodies(Upload(client, key, Ok(bytes)).trace) == Slices(bytes, plan);
    PlanReassembles(bytes, PartSize);
  }

  lemma {:induction false} BodiesAppend(a: seq<Call>, b: seq<Call>)
    ensures Bodies(a + b) == Bodies(a) + Bodies(b)
  {
    if a == [] {
      assert a + b == b;
    } else {
      assert (a + b)[0] == a[0];
      assert (a + b)[1..] == a[1..] + b;
      assert Bodies(a + b) == BodyOf(a[0]) + Bodies(a[1..] + b);
      BodiesAppend(a[1..], b);
      assert Bodies(a + b) == BodyOf(a[0]) + (Bodies(a[1..]) + Bodies(b));
    }
  }

  lemma {:induction false} BodiesOfPartCalls(key: Key, id: UploadId, bytes: Bytes, plan: seq<Part>)
    requires Fits(plan, |bytes|)
    ensures Bodies(PartCalls(key, id, bytes, plan)) == Slices(bytes, plan)
  {
    if plan != [] {
      BodiesOfPartCalls(key, id, bytes, plan[1..]);
      assert PartCalls(key, id, bytes, plan)[1..] == PartCalls(key, id, bytes, plan[1..]);
    }
  }

  // ---------------------------------------------------------------------------
  // Reading the file after initiation

  /**
    As written, an exception from reading the file, which happens after the
    upload was initiated and outside the try block, propagates without an
    abort: the initiated upload is left open.
   */
  lemma ReadFailureLeavesUploadOpen(client: Client, key: Key, e: Error)
    requires client(Initiate(key)).Ok?
    ensures Upload(client, key, Err(e)) == Run(Err(e), [Initiate(key)])
    ensures !Released(client, Upload(client, key, Err(e)))
  {
  }

  /** Once the file has been read, every initiated upload is released. */
  lemma UploadReleasesAfterRead(client: Client, key: Key, bytes: Bytes)
    ensures Released(client, Upload(client, key, Ok(bytes)))
  {
    if client(Initiate(key)).Ok? {
      var id := client(Initiate(key)).value;
      UploadMatchesExpected(client, key, bytes);
      ExpectedLayout(client, key, id, bytes, Plan(|bytes|, PartSize));
    }
  }

  /**
    The upload with the file read before initiation: a read failure then
    throws before any request is issued.
   */
  function UploadReadFirst(client: Client, key: Key, file: Result<Bytes>): Run
  {
    match file
    case Err(e) => Run(Err(e), [])
    case Ok(_) => Upload(client, key, file)
  }

  /** Reading first, no initiated upload is ever left open, whatever the client and the file do. */
  lemma ReadFirstAlwaysReleases(client: Client, key: Key, file: Result<Bytes>)
    ensures Released(client, UploadReadFirst(client, key, file))
  {
    if file.Ok? {
      UploadReleasesAfterRead(client, key, file.value);
    }
  }

  // ---------------------------------------------------------------------------
  // An abort that throws

  /** A client that accepts everything except part uploads and aborts. */
  function RejectingClient(call: Call): Result<string> {
    match call
    case UploadPart(_, _, _, _) => Err(Error("part rejected"))
    case Abort(_, _) => Err(Error("abort rejected"))
    case _ => Ok("u")
  }

  /**
    As written, an exception thrown by the abort in the catch clause escapes
    instead of the exception that caused the abort: uploading one byte through
    `RejectingClient` throws the abort's exception, although the request that
    failed was the part upload just before the abort.
   */
  lemma AbortFailureMasksCause()
    ensures var run := Upload(RejectingClient, "k", Ok([0]));
      && run.trace == [Initiate("k"), UploadPart("k", "u", 1, [0]), Abort("k", "u")]
      && RejectingClient(run.trace[1]) == Err(Error("part rejected"))
      && run.outcome == Err(Error("abort rejected"))
  {
    var bytes: Bytes := [0];
    var plan := Plan(|bytes|, PartSize);
    PlanShape(|bytes|, PartSize);
    assert |plan| == 1 && plan[0] == Part(1, 0, 1);
    var part := UploadPart("k", "u", 1, [0]);
    assert bytes[0..1] == [0];
    assert PartCall("k", "u", bytes, plan[0]) == part;
    assert FirstRejected(RejectingClient, "k", "u", bytes, plan) == 0;
    assert plan[..1] == plan;
    assert PartCalls("k", "u", bytes, plan) == [part];
    UploadMatchesExpected(RejectingClient, "k", bytes);
  }

  /**
    The catch clause with the abort's own failure kept secondary: abort the
    upload with the same key and upload id, then rethrow the caught exception
    whatever the abort replies.
   */
  function AbortKeepingCause(key: Key, id: UploadId, trace: seq<Call>, e: Error): Run {
    Run(Err(e), trace + [Abort(key, id)])
  }

  /** The try block of `Transfer` with `AbortKeepingCause` as its catch clause. */
  function TransferKeepingCause(client: Client, key: Key, id: UploadId, bytes: Bytes): Run
  {
    var plan := Plan(|bytes|, PartSize);
    var sent := SendParts(client, key, id, bytes, plan);
    match sent.result
    case Err(e) => AbortKeepingCause(key, id, sent.trace, e)
    case Ok(parts) =>
      var done := Complete(key, id, parts);
      match client(done)
      case Err(e) => AbortKeepingCause(key, id, sent.trace + [done], e)
      case Ok(_) => Run(Ok(CompleteMessage), sent.trace + [done])
  }

  /** `Upload` with `TransferKeepingCause` as its try block. */
  function UploadKeepingCause(client: Client, key: Key, file: Result<Bytes>): Run {
    var init := Initiate(key);
    match client(init)
    case Err(e) => Run(Err(e), [init])
    case Ok(id) =>
      match file
      case Err(e) => Run(Err(e), [init])
      case Ok(bytes) =>
        var t := TransferKeepingCause(client, key, id, bytes);
        Run(t.outcome, [init] + t.trace)
  }

  /**
    The corrected try block issues the requests of `Transfer`, and returns
    what it returns whenever the abort succeeds; when it throws, it throws
    the exception of the request just before its closing abort.
   */
  lemma TransferKeepingCauseCases(client: Client, key: Key, id: UploadId, bytes: Bytes)
    ensures var kept := TransferKeepingCause(client, key, id, bytes);
      var n := |kept.trace|;
      && kept.trace == Transfer(client, key, id, bytes).trace
      && (client(Abort(key, id)).Ok? ==> kept == Transfer(client, key, id, bytes))
      && (kept.outcome.Err? ==> n >= 2 && kept.trace[n - 1] == Abort(key, id) && kept.outcome == client(kept.trace[n - 2]))
  {
    SendPartsFailsLast(client, key, id, bytes, Plan(|bytes|, PartSize));
  }

  /** When the part loop throws, it throws the client's reply to the last request it issued. */
  lemma SendPartsFailsLast(client: Client, key: Key, id: UploadId, bytes: Bytes, plan: seq<Part>)
    requires Fits(plan, |bytes|)
    ensures var sent := SendParts(client, key, id, bytes, plan);
      sent.result.Err? ==> |sent.trace| > 0 && client(sent.trace[|sent.trace| - 1]) == Err(sent.result.error)
  {
    var k := FirstRejected(client, key, id, bytes, plan);
    SendPartsCases(client, key, id, bytes, plan);
    if k < |plan| {
      var parts := PartCalls(key, id, bytes, plan[..k + 1]);
      assert parts[k] == PartCall(key, id, bytes, plan[k]);
    }
  }

  /**
    Keeping the cause changes nothing but the outcome of a failed abort: the
    requests are those of `Upload`, and when the upload fails after its
    parts were attempted, it throws the exception of the request that failed
    just before the abort, never the abort's own.
   */
  lemma KeepingCauseReportsFailedRequest(client: Client, key: Key, bytes: Bytes)
    requires client(Initiate(key)).Ok?
    ensures var run := UploadKeepingCause(client, key, Ok(bytes));
      var n := |run.trace|;
      && run.trace == Upload(client, key, Ok(bytes)).trace
      && (client(Abort(key, client(Initiate(key)).value)).Ok? ==> run == Upload(client, key, Ok(bytes)))
      && (run.outcome.Err? ==> n >= 3 && run.trace[n - 1].Abort? && run.outcome == client(run.trace[n - 2]))
  {
    var id := client(Initiate(key)).value;
    UploadUnfold(client, key, bytes);
    TransferKeepingCauseCases(client, key, id, bytes);
  }

  // ---------------------------------------------------------------------------
  // Growing the part loop by one iteration

  lemma AfterNothing(rest: Sent)
    ensures After([], [], rest) == rest
  {
    assert [] + rest.trace == rest.trace;
    if rest.result.Ok? {
      assert [] + rest.result.value == rest.result.value;
    }
  }

  lemma AfterAfter(done: seq<CompletedPart>, calls: seq<Call>, more: seq<CompletedPart>, moreCalls: seq<Call>, rest: Sent)
    ensures After(done, calls, After(more, moreCalls, rest)) == After(done + more, calls + moreCalls, rest)
  {
    assert calls + (moreCalls + rest.trace) == calls + moreCalls + rest.trace;
    if rest.result.Ok? {
      assert done + (more + rest.result.value) == done + more + rest.result.value;
    }
  }

  /** One iteration of the part loop, started at part index i. */
  lemma SendPartsStep(client: Client, key: Key, id: UploadId, bytes: Bytes, plan: seq<Part>, i: nat)
    requires Fits(plan, |bytes|) && i < |plan|
    ensures var call := PartCall(key, id, bytes, plan[i]);
      SendParts(client, key, id, bytes, plan[i..])
      == match client(call)
         case Err(e) => Sent(Err(e), [call])
         case Ok(etag) =>
           After([CompletedPart(plan[i].number, etag)], [call], SendParts(client, key, id, bytes, plan[i + 1..]))
  {
    assert plan[i..][0] == plan[i] && plan[i..][1..] == plan[i + 1..];
  }
}
