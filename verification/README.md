# Multipart upload to S3, modelled in Dafny

This project models `S3Service.multipartUpload`, the large-file upload of a
Spring Boot S3 demo service. The service reads the whole file into memory.
It initiates an S3 multipart upload, then cuts the payload into parts of
5 MiB, the last one possibly shorter. It uploads the parts one after another
with part numbers 1, 2, ..., collects the ETag the client returns for each,
and completes the upload with the list of (part number, ETag) pairs. If a
part upload or the complete request throws, the catch clause aborts the
upload and rethrows.

Modules:

- `Results` (`results.dfy`): the exception type and `Result`/`Option`.
- `ChunkPlanner` (`chunk_planner.dfy`): the part loop as a plan of numbered
  byte ranges. It includes the arithmetic of the loop guard and the part
  sizes, the part buffers cut from the payload, and a reference chunking
  (`Split`) that the plan is proved to agree with.
- `UploadProtocol` (`upload_protocol.dfy`): the protocol as pure functions.
  The S3 client is an oracle `Client = Call -> Result<string>` that answers
  each request with a value or an exception. A run is the outcome (the
  returned string or the escaping exception) together with the trace of
  requests issued, in order. `Upload` follows the Java control flow
  (initiate, read the file, the part loop, complete, catch/abort/rethrow).
  `Expected` is an independent closed form of the same run, built from the
  index of the first rejected part. The lemmas prove that the two agree and
  state the protocol's properties over the trace.
- `S3Service` (`s3_service.dfy`): the method as an imperative loop. It uses
  the Java guard `i * partSize < bytes.length`, and it is proved to produce
  exactly the run of `UploadProtocol.Upload`.

The client is a function of the request, so the same request always gets
the same reply. Within one upload no request repeats: part numbers are
distinct, and there is at most one complete and at most one abort. So this
covers every sequence of replies a real client could give to one call of
the method. The file read (`file.getBytes()`) is an input `Result<Bytes>`:
the bytes read, or the exception the read threw.

## Model

| member | source | states |
|---|---|---|
| ChunkPlanner.Plan | src/main/java/com/example/s3demo/service/S3Service.java:161-171 | the parts the loop plans are numbered 1, 2, ... in loop order, and each is a well-formed byte range inside the payload |
| ChunkPlanner.PlanFromShape | src/main/java/com/example/s3demo/service/S3Service.java:161-163 | from loop index i on, part j covers [(i+j)·size, min((i+j)·size + size, length)) with number i+j+1, and the loop runs exactly until the guard fails |
| ChunkPlanner.PlanShape | src/main/java/com/example/s3demo/service/S3Service.java:158-171 | the plan has one part per iteration of the loop guard `i * partSize < bytes.length`, and part j is the range iteration j computes, numbered j+1 |
| ChunkPlanner.PlanIndex | src/main/java/com/example/s3demo/service/S3Service.java:161 | the loop guard holds at index i exactly when i is the index of a planned part |
| ChunkPlanner.PartCount | src/main/java/com/example/s3demo/service/S3Service.java:158-161 | the plan has ceil(length / size) parts, and none exactly when the payload is empty |
| ChunkPlanner.PlanTiles | src/main/java/com/example/s3demo/service/S3Service.java:161-165 | the parts tile the payload: the first starts at 0, each ends where the next starts, the last ends at the payload length, none is empty, none overlap |
| ChunkPlanner.PartSizes | src/main/java/com/example/s3demo/service/S3Service.java:158-164 | every part but the last is exactly one part size; the last holds length mod size bytes, or a full part size when that remainder is 0 |
| ChunkPlanner.TwoFullParts | src/main/java/com/example/s3demo/service/S3Service.java:158-163 | a payload of exactly two part sizes gives two full parts, numbered 1 and 2 |
| ChunkPlanner.OneShortPart | src/main/java/com/example/s3demo/service/S3Service.java:158-163 | a payload one byte short of a part size gives one short part |
| ChunkPlanner.Slices | src/main/java/com/example/s3demo/service/S3Service.java:164-165 | one part buffer per planned part, holding exactly the payload bytes of its range |
| ChunkPlanner.Split | src/main/java/com/example/s3demo/service/S3Service.java:158-165 | the reference chunking takes non-empty chunks of at most one part size, and all chunks but the last are full |
| ChunkPlanner.SplitReassembles | src/main/java/com/example/s3demo/service/S3Service.java:161-165 | concatenating the reference chunks gives back the payload |
| ChunkPlanner.SlicesFromMatchSplit | src/main/java/com/example/s3demo/service/S3Service.java:161-165 | from any loop index on, the loop's part buffers are the reference chunks of the rest of the payload |
| ChunkPlanner.PlanMatchesSplit | src/main/java/com/example/s3demo/service/S3Service.java:161-165 | the loop's part buffers are exactly the reference chunks of the payload |
| ChunkPlanner.PlanReassembles | src/main/java/com/example/s3demo/service/S3Service.java:161-165 | concatenating the part buffers in part order gives back the payload: no byte is lost, repeated or reordered |
| UploadProtocol.SendPartsFailsLast | src/main/java/com/example/s3demo/service/S3Service.java:167-176 | when the part loop throws, the exception is the client's reply to the last upload request the loop issued |
| UploadProtocol.FirstRejected | src/main/java/com/example/s3demo/service/S3Service.java:174-177 | the index of the first part whose upload the client rejects: every part before it is accepted, and it is rejected unless every part is accepted |
| UploadProtocol.SendPartsCases | src/main/java/com/example/s3demo/service/S3Service.java:161-177 | the part loop uploads the parts in order up to the first rejected one and stops there with its exception; if none is rejected it yields all (number, ETag) pairs |
| UploadProtocol.Upload | src/main/java/com/example/s3demo/service/S3Service.java:147-157 | every run starts with the initiate request; a rejected initiation is thrown directly, with no further request |
| UploadProtocol.TransferWhenRejected | src/main/java/com/example/s3demo/service/S3Service.java:160-195 | when a part is rejected, the try block issues the uploads up to and including that part, then the abort, and throws the part's exception unless the abort throws its own |
| UploadProtocol.TransferWhenAccepted | src/main/java/com/example/s3demo/service/S3Service.java:160-197 | when every part is accepted, the try block issues all uploads, then the complete with the collected list, then an abort only if the complete is rejected; the outcome follows the catch clause |
| UploadProtocol.UploadMatchesExpected | src/main/java/com/example/s3demo/service/S3Service.java:147-198 | once initiation and the read succeed, the upload issues exactly the requests of the closed form (initiate, attempted part uploads, ending) and has its outcome |
| UploadProtocol.UploadSucceedsIff | src/main/java/com/example/s3demo/service/S3Service.java:147-197 | the upload returns normally exactly when initiation, the read, every part upload and the complete request all succeed |
| UploadProtocol.SuccessfulUpload | src/main/java/com/example/s3demo/service/S3Service.java:160-197 | a successful upload returns "Multipart upload complete" after exactly: initiate, one upload per part in order, one complete with the collected list; it never aborts |
| UploadProtocol.PartsUploadedInOrder | src/main/java/com/example/s3demo/service/S3Service.java:161-176 | part uploads come first, without gaps: the request at trace position t uploads part number t, whose body is the t-th part buffer of the payload |
| UploadProtocol.CompleteRequest | src/main/java/com/example/s3demo/service/S3Service.java:176-188 | a complete is issued only right after the last part and only when all parts were accepted; its list holds parts 1..n in ascending order, each with the ETag returned for that part's upload |
| UploadProtocol.SameSession | src/main/java/com/example/s3demo/service/S3Service.java:153-193 | every request after the initiation names the same key and the upload id the initiation returned, and none initiates again |
| UploadProtocol.FailedUploadAbortsOnce | src/main/java/com/example/s3demo/service/S3Service.java:189-195 | when a part upload or the complete fails, the upload is aborted exactly once, as its last request; the failed request comes just before the abort; every earlier request succeeded; no complete follows a failed part; the failed request's exception is thrown unless the abort throws its own |
| UploadProtocol.UploadedBodiesReassemble | src/main/java/com/example/s3demo/service/S3Service.java:161-175 | the bodies of the part uploads of a successful upload, concatenated in trace order, are the payload |
| UploadProtocol.ReadFailureLeavesUploadOpen | src/main/java/com/example/s3demo/service/S3Service.java:153-160 | as written, an exception from reading the file after initiation escapes with no abort, leaving the initiated upload open |
| UploadProtocol.UploadReleasesAfterRead | src/main/java/com/example/s3demo/service/S3Service.java:160-196 | once the file has been read, every initiated upload ends with an abort or with a complete the client accepted |
| UploadProtocol.ReadFirstAlwaysReleases | src/main/java/com/example/s3demo/service/S3Service.java:153-196 | reading first, no initiated upload is left open, whatever the client and the file do |
| UploadProtocol.AbortFailureMasksCause | src/main/java/com/example/s3demo/service/S3Service.java:189-195 | as written, a rejected abort replaces the caught exception: one byte, a rejected part and a rejected abort make the upload throw the abort's exception |
| UploadProtocol.TransferKeepingCauseCases | src/main/java/com/example/s3demo/service/S3Service.java:189-195 | with the catch clause corrected to rethrow the caught exception whatever the abort replies, the try block issues the same requests, returns the same result whenever the abort succeeds, and a failure ends with the abort and throws the exception of the request just before it |
| UploadProtocol.KeepingCauseReportsFailedRequest | src/main/java/com/example/s3demo/service/S3Service.java:189-195 | with the corrected catch clause, the requests are unchanged, and a failed upload throws the exception of the request just before the abort, never the abort's own |
| S3Service.MultipartUpload | src/main/java/com/example/s3demo/service/S3Service.java:147-198 | the method, written as the Java loop with the catch clause as an explicit failure value, returns or throws exactly what the functional model does, after issuing the same requests in the same order |
| S3Service.UploadParts | src/main/java/com/example/s3demo/service/S3Service.java:161-177 | the loop `for (i = 0; i * partSize < bytes.length; i++)` produces exactly the part loop of the functional model: the same uploads, the same collected list, or the same exception |

## Left out

- The other operations of `S3Service` are not modelled: buckets, single-shot put, get, list, delete, presigned URLs and lifecycle configuration. The REST controller, the Spring configuration and the tests are not modelled either.
- The AWS SDK, the network and the bucket are not modelled. Every request goes to the same configured bucket, so the bucket adds nothing to the trace. The client is the oracle parameter `Client`.
- Upload ids and ETags are opaque strings chosen by the client. The replies to the complete and abort requests are only checked for success, as the Java code ignores their values.
- The backend's own rules are not modelled, such as the minimum part size or whether an empty part list is accepted. An empty payload plans no parts and sends a complete with an empty list; whether that succeeds is the client's reply.
- ChunkPlanner.Plan: uses unbounded integers. In Java, `start + partSize` overflows 32-bit `int` at part 410, that is, for payloads over 409 × 5 MiB bytes. There the real method throws inside the try block and aborts, while the model plans more parts.
- The Java code catches `Exception` only. Other throwables (`Error`s) would skip the abort. The model has a single kind of failure.
- An abort that fails should not hide the failure that caused it. The code lets it do so (`UploadProtocol.AbortAndRethrow`), and the model follows the code. The corrected behaviour is under Findings.
- Memory use (the whole file in memory, one copy per part buffer), logging, timeouts and concurrency are not modelled. The method runs sequentially.

## Findings

| source | as written | input that shows it | evidently intended | confidence | as-written member | corrected member |
|---|---|---|---|---|---|---|
| src/main/java/com/example/s3demo/service/S3Service.java:153-160 | `file.getBytes()` runs after the upload is initiated and outside the try block, so a read exception escapes without an abort | initiation succeeds and reading the file throws | read the file before initiating (or inside the try block), so no initiated upload is left open; `UploadReadFirst` reads first | medium, not executed | UploadProtocol.ReadFailureLeavesUploadOpen | UploadProtocol.ReadFirstAlwaysReleases |
| src/main/java/com/example/s3demo/service/S3Service.java:189-195 | an exception thrown by `abortMultipartUpload` in the catch clause escapes instead of the caught exception | a one-byte payload, a client that rejects the part upload and the abort | the original failure propagates and the abort's failure is secondary; `AbortKeepingCause`, the catch clause of `UploadKeepingCause`, rethrows the caught exception whatever the abort does | medium, not executed | UploadProtocol.AbortFailureMasksCause | UploadProtocol.KeepingCauseReportsFailedRequest |
