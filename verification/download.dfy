/** Downloading one file with resume: the `.part` file, the server's three answers, and an interruption anywhere. */
module Download {
  import opened Prelude
  import opened HttpRange

  const CHUNK_BYTES := 1024 * 1024

  type Files = map<string, Bytes>

  function PartPath(target: string): string {
    target + ".part"
  }

  // ----- the server -----

  datatype Response = NotSatisfiable | Full(body: Bytes) | Partial(body: Bytes)

  /** What the server answers for a file: LFS objects are always sent whole. */
  function Respond(remote: Bytes, lfs: bool, range: Option<string>): Response {
    Answer(remote, lfs, ParseRange(range, |remote|))
  }

  function Answer(remote: Bytes, lfs: bool, window: Window): Response
    requires Inside(window, |remote|)
  {
    if lfs || window.WholeFile? then Full(remote)
    else if window.Unsatisfiable? || window.end < window.start then NotSatisfiable
    else Partial(remote[window.start..window.end + 1])
  }

  /** The answer to a client that has this many bytes. */
  function AnswerTo(remote: Bytes, lfs: bool, existing: nat): Response {
    if lfs || existing == 0 then Full(remote)
    else if existing >= |remote| then NotSatisfiable
    else Partial(remote[existing..])
  }

  lemma RespondToClient(remote: Bytes, lfs: bool, existing: nat)
    ensures Respond(remote, lfs, RangeHeader(existing)) == AnswerTo(remote, lfs, existing)
  {
    ClientRangeIsUnderstood(existing, |remote|);
    var window := ParseRange(RangeHeader(existing), |remote|);
    AnswerExact(remote, lfs, existing, window);
  }

  lemma AnswerExact(remote: Bytes, lfs: bool, existing: nat, window: Window)
    requires window == if existing == 0 then WholeFile
                       else if existing >= |remote| then Unsatisfiable
                       else Between(existing, |remote| - 1)
    ensures Answer(remote, lfs, window) == AnswerTo(remote, lfs, existing)
  {
    assert existing < |remote| ==> remote[existing..|remote|] == remote[existing..];
  }

  // ----- the client -----

  /** How a request ends: an error status or no connection, a break in the body, a crash before the rename, or well. */
  datatype Fate = Rejected | Broken(chunks: nat) | Killed | Whole

  datatype FileOutcome = FileOutcome(path: string, bytesDownloaded: nat, resumed: bool)

  datatype TransferError = RequestFailed | Interrupted

  /** The bytes left by an earlier attempt, if any. */
  function Leftover(files: Files, target: string): Bytes {
    if PartPath(target) in files then files[PartPath(target)] else []
  }

  /** The server honours the range that the leftover asks for. */
  predicate Resumes(leftover: Bytes, remote: Bytes, lfs: bool) {
    !lfs && 0 < |leftover| < |remote|
  }

  /** What a transfer that runs to its end puts at the target. */
  function Completed(leftover: Bytes, remote: Bytes, lfs: bool): Bytes {
    if Resumes(leftover, remote, lfs) then leftover + remote[|leftover|..] else remote
  }

  /**
   The result is the remote content exactly when the leftover is not used or is a prefix of it: the client takes no
   notice of a change of the file between two runs.
   */
  lemma CompletedIff(leftover: Bytes, remote: Bytes, lfs: bool)
    ensures Completed(leftover, remote, lfs) == remote <==> !Resumes(leftover, remote, lfs) || leftover <= remote
  {
    if Resumes(leftover, remote, lfs) {
      var all := leftover + remote[|leftover|..];
      assert all[..|leftover|] == leftover;
      assert leftover <= remote ==> all == remote;
    }
  }

  class LocalDirectory {
    var files: Files
    /** Requests made so far, each with its fate. */
    var requests: nat
    const fates: nat -> Fate

    constructor (files: Files, fates: nat -> Fate)
      ensures this.files == files && this.fates == fates && requests == 0
    {
      this.files, this.fates, this.requests := files, fates, 0;
    }

    /**
     Streams one file to its target. When it succeeds, the target holds the leftover continued or the whole remote
     content and the `.part` file is gone; when it fails, the target is as before and the `.part` file is as before or
     holds the beginning of what would have come out.
     */
    method TransferOne(remote: Bytes, lfs: bool, target: string) returns (r: Result<FileOutcome, TransferError>)
      modifies this
      ensures var leftover, part := old(Leftover(files, target)), PartPath(target);
              var result := Completed(leftover, remote, lfs);
              && (r.Ok? ==> files == (old(files) - {part})[target := result]
                            && r.value == FileOutcome(target, |result|, Resumes(leftover, remote, lfs)))
              && (r.Err? ==> files - {part} == old(files) - {part}
                             && (Leftover(files, target) == leftover || Leftover(files, target) <= result))
      decreases |Leftover(files, target)|
    {
      var part := PartPath(target);
      var existing := if part in files then |files[part]| else 0;
      var fate := fates(requests);
      requests := requests + 1;
      if fate.Rejected? {
        return Err(RequestFailed);
      }
      RespondToClient(remote, lfs, existing);
      var response := Respond(remote, lfs, RangeHeader(existing));
      if response.NotSatisfiable? {
        files := files - {part};
        r := TransferOne(remote, lfs, target);
        return;
      }
      r := ReceiveBody(remote, lfs, target, response, existing, fate);
    }

    /** The answer is written to the `.part` file, and the file moved to the target when it is complete. */
    method ReceiveBody(ghost remote: Bytes, ghost lfs: bool, target: string, response: Response, offset: nat,
                       fate: Fate)
      returns (r: Result<FileOutcome, TransferError>)
      requires response == AnswerTo(remote, lfs, offset) && !response.NotSatisfiable?
      requires offset == |Leftover(files, target)|
      modifies `files
      ensures var leftover, part := old(Leftover(files, target)), PartPath(target);
              var result := Completed(leftover, remote, lfs);
              && (r.Ok? ==> files == (old(files) - {part})[target := result]
                            && r.value == FileOutcome(target, |result|, Resumes(leftover, remote, lfs)))
              && (r.Err? ==> files - {part} == old(files) - {part} && Leftover(files, target) <= result)
    {
      var part, existing := PartPath(target), offset;
      var resumed := false;
      if response.Full? {
        files := files[part := []];
        existing := 0;
      } else {
        resumed := existing > 0;
      }
      ghost var start := files[part];
      var written, whole := WriteBody(part, response.body, fate);
      assert files - {part} == old(files) - {part};
      TransferredSoFar(old(Leftover(files, target)), remote, lfs, response, start, written);
      if !whole || fate.Killed? {
        return Err(Interrupted);
      }
      files := (files - {part})[target := files[part]];
      r := Ok(FileOutcome(target, existing + written, resumed));
    }

    /** Appends the body chunk by chunk until it ends or the connection breaks. */
    method WriteBody(part: string, body: Bytes, fate: Fate) returns (written: nat, whole: bool)
      requires part in files
      modifies `files
      ensures written <= |body| && files == old(files)[part := old(files)[part] + body[..written]]
      ensures whole ==> written == |body|
      ensures !fate.Broken? ==> whole
    {
      written := 0;
      var chunk := 0;
      assert files[part] + body[..0] == files[part];
      assert files[part := files[part]] == files;
      while written < |body|
        invariant written <= |body| && files == old(files)[part := old(files)[part] + body[..written]]
      {
        if fate.Broken? && fate.chunks == chunk {
          return written, false;
        }
        var size := if |body| - written < CHUNK_BYTES then |body| - written else CHUNK_BYTES;
        assert body[..written] + body[written..written + size] == body[..written + size];
        Associative(old(files)[part], body[..written], body[written..written + size]);
        files := files[part := files[part] + body[written..written + size]];
        written := written + size;
        chunk := chunk + 1;
      }
      whole := true;
    }
  }

  /** What has been written is the beginning of the result, and all of it once the body is complete. */
  lemma TransferredSoFar(leftover: Bytes, remote: Bytes, lfs: bool, response: Response, start: Bytes, written: nat)
    requires response == AnswerTo(remote, lfs, |leftover|)
    requires !response.NotSatisfiable? && start == (if response.Full? then [] else leftover)
    requires written <= |response.body|
    ensures var result := Completed(leftover, remote, lfs);
            && start + response.body[..written] <= result
            && (written == |response.body| ==> start + response.body[..written] == result)
            && |start| + |response.body| == |result|
  {
    assert response.body[..|response.body|] == response.body;
    var result := Completed(leftover, remote, lfs);
    assert start + response.body == result;
    assert start + response.body[..written] == result[..|start| + written];
  }
}
