/**
 * The HTTP front end's two pieces of logic around an encoding: the sanity checks that turn a
 * request body into an encoding request, and the removal of a finished job's assets from the
 * remote object storage.
 */
module Server {
  import opened Wrappers
  import opened Errors
  import opened Text
  import opened Encoders
  import opened Presets
  import opened Assets
  import opened EncodeBox

  /** `parseBody` (JSON decoding of a raw request or of a Dapr event) is not part of this model. */
  type BodyParser = string -> Result<EncodingRequest, Failure>

  /**
   * `makeEncodingRequest`: a missing body, then a parse error, then an empty job id, then an
   * empty audio list is rejected, in that order; anything else is the parsed request as it is.
   */
  function MakeEncodingRequest(body: Option<string>, parseBody: BodyParser): (r: Result<EncodingRequest, Failure>)
    ensures body.None? ==> r == Err(NoBodyProvided)
    ensures body.Some? && parseBody(body.value).Err? ==> r == Err(parseBody(body.value).error)
    ensures r.Ok? <==> (body.Some? && parseBody(body.value).Ok?
      && parseBody(body.value).value.jobId != "" && |parseBody(body.value).value.audiosKeys| > 0)
    ensures r.Ok? ==> r.value == parseBody(body.value).value
    ensures r.Err? && body.Some? && parseBody(body.value).Ok? ==>
      r.error == (if parseBody(body.value).value.jobId == "" then NoRecordId else NoAudioTrack)
  {
    match body
    case None => Err(NoBodyProvided)
    case Some(from) =>
      match parseBody(from)
      case Err(e) => Err(e)
      case Ok(eReq) =>
        if eReq.jobId == "" then Err(NoRecordId)
        else if |eReq.audiosKeys| == 0 then Err(NoAudioTrack)
        else Ok(eReq)
  }

  /**
   * The checks do not exclude a request naming both a video and an image: it is accepted here
   * and refused only when the encoder is chosen.
   */
  lemma VideoAndImagePassValidation(body: string, parseBody: BodyParser, ac: seq<Asset>, output: string, sfx: Suffixes, audiosOnly: AudiosOnlyRecipe)
    requires parseBody(body).Ok?
    requires var req := parseBody(body).value;
      req.jobId != "" && |req.audiosKeys| > 0 && req.videoKey != "" && req.imageKey != ""
    requires Layout(ac) == Planned(parseBody(body).value)
    ensures MakeEncodingRequest(Some(body), parseBody).Ok?
    ensures SetupEnc(parseBody(body).value, ac, output, sfx, audiosOnly) == Err(NoSuitableEncoder)
  {
  }

  /** A request the checks accept never fails to find an encoder for lack of audio. */
  lemma AcceptedRequestHasAudio(body: Option<string>, parseBody: BodyParser, ac: seq<Asset>, output: string, sfx: Suffixes, audiosOnly: AudiosOnlyRecipe)
    requires MakeEncodingRequest(body, parseBody).Ok?
    requires Layout(ac) == Planned(MakeEncodingRequest(body, parseBody).value)
    ensures var req := MakeEncodingRequest(body, parseBody).value;
      SetupEnc(req, ac, output, sfx, audiosOnly) == Err(NoSuitableEncoder) <==> req.videoKey != "" && req.imageKey != ""
  {
  }

  /**
   * The collection of an accepted request holds at least its audio tracks, so the wait for its
   * download tasks is never the blocked one.
   */
  lemma AcceptedRequestDownloadReturns(body: Option<string>, parseBody: BodyParser, ac: seq<Asset>)
    requires MakeEncodingRequest(body, parseBody).Ok?
    requires Layout(ac) == Planned(MakeEncodingRequest(body, parseBody).value)
    ensures |ac| >= |MakeEncodingRequest(body, parseBody).value.audiosKeys| > 0
  {
    PlannedLength(MakeEncodingRequest(body, parseBody).value);
  }

  // ---------------------------------------------------------------- deleting from the object store

  /** What the object store answers to the deletion of a key: nothing, or an error. */
  type Deleter = string -> Option<Failure>

  /** The keys deleted after a job, in order: the video if set, every audio, then the image if set. */
  function StoredKeys(req: EncodingRequest): seq<string> {
    (if req.videoKey != "" then [req.videoKey] else []) + req.audiosKeys
    + (if req.imageKey != "" then [req.imageKey] else [])
  }

  /** The keys whose deletion fails, in the order they were tried. */
  function Failing(keys: seq<string>, delete: Deleter): (r: seq<string>)
    ensures |r| <= |keys|
  {
    if |keys| == 0 then []
    else
      var last := keys[|keys| - 1];
      Failing(keys[..|keys| - 1], delete) + (if delete(last).Some? then [last] else [])
  }

  /** A key is listed exactly when it was tried and its deletion failed. */
  lemma {:induction false} FailingMembers(keys: seq<string>, delete: Deleter)
    ensures forall k :: k in Failing(keys, delete) <==> k in keys && delete(k).Some?
  {
    if |keys| > 0 {
      var init, last := keys[..|keys| - 1], keys[|keys| - 1];
      assert keys == init + [last];
      FailingMembers(init, delete);
    }
  }

  lemma {:induction false} FailingAppend(a: seq<string>, b: seq<string>, delete: Deleter)
    ensures Failing(a + b, delete) == Failing(a, delete) + Failing(b, delete)
    decreases |b|
  {
    if |b| == 0 {
      assert a + b == a;
    } else {
      var b' := b[..|b| - 1];
      assert (a + b)[..|a + b| - 1] == a + b';
      FailingAppend(a, b', delete);
    }
  }

  /** No key is listed exactly when every deletion succeeds. */
  lemma NoFailures(keys: seq<string>, delete: Deleter)
    ensures Failing(keys, delete) == [] <==> forall k :: k in keys ==> delete(k).None?
  {
    var r := Failing(keys, delete);
    FailingMembers(keys, delete);
    if r != [] {
      assert r[0] in r;
    }
  }

  function DeleteMessage(failures: seq<string>): string {
    "failed to delete \"" + Join(failures, ", ") + "\" from remote object storage"
  }

  /** Appends the key when deleting it fails. */
  method TryDelete(key: string, delete: Deleter, failures: seq<string>) returns (failures': seq<string>)
    ensures failures' == failures + Failing([key], delete)
  {
    assert [key][..0] == [];
    failures' := failures;
    var err := delete(key);
    if err.Some? {
      failures' := failures' + [key];
    }
  }

  /**
   * `cleanUpFromObjectStore`: every stored key is tried, the failures do not stop the others,
   * and the error lists every key that could not be deleted, in order, or is absent when all
   * were deleted.
   */
  method CleanUpFromObjectStore(req: EncodingRequest, delete: Deleter) returns (err: Option<Failure>)
    ensures err.None? <==> forall k :: k in StoredKeys(req) ==> delete(k).None?
    ensures err.Some? ==> err.value == DeleteFailed(DeleteMessage(Failing(StoredKeys(req), delete)))
  {
    var failures: seq<string> := [];
    if req.videoKey != "" {
      failures := TryDelete(req.videoKey, delete, failures);
    }
    ghost var video := failures;
    assert video == Failing(if req.videoKey != "" then [req.videoKey] else [], delete);
    for i := 0 to |req.audiosKeys|
      invariant failures == video + Failing(req.audiosKeys[..i], delete)
    {
      failures := TryDelete(req.audiosKeys[i], delete, failures);
      FailingSnoc(req.audiosKeys, i, delete);
    }
    assert req.audiosKeys[..|req.audiosKeys|] == req.audiosKeys;
    ghost var audios := failures;
    if req.imageKey != "" {
      failures := TryDelete(req.imageKey, delete, failures);
    }
    assert failures == audios + Failing(if req.imageKey != "" then [req.imageKey] else [], delete);
    StoredKeysFailing(req, delete);
    assert failures == Failing(StoredKeys(req), delete);
    NoFailures(StoredKeys(req), delete);
    if |failures| > 0 {
      err := Some(DeleteFailed(DeleteMessage(failures)));
    } else {
      err := None;
    }
  }

  lemma FailingSnoc(keys: seq<string>, i: int, delete: Deleter)
    requires 0 <= i < |keys|
    ensures Failing(keys[..i + 1], delete) == Failing(keys[..i], delete) + Failing([keys[i]], delete)
  {
    assert keys[..i + 1] == keys[..i] + [keys[i]];
    FailingAppend(keys[..i], [keys[i]], delete);
  }

  lemma StoredKeysFailing(req: EncodingRequest, delete: Deleter)
    ensures Failing(StoredKeys(req), delete) ==
      Failing(if req.videoKey != "" then [req.videoKey] else [], delete) + Failing(req.audiosKeys, delete)
      + Failing(if req.imageKey != "" then [req.imageKey] else [], delete)
  {
    var video := if req.videoKey != "" then [req.videoKey] else [];
    var image := if req.imageKey != "" then [req.imageKey] else [];
    FailingAppend(video + req.audiosKeys, image, delete);
    FailingAppend(video, req.audiosKeys, delete);
  }

  /** The keys removed from the object store are the keys of the collection the job downloaded, in order. */
  lemma StoredKeysArePlanned(req: EncodingRequest)
    ensures StoredKeys(req) == seq(|Planned(req)|, i requires 0 <= i < |Planned(req)| => Planned(req)[i].0)
  {
    var p := Planned(req);
    var v := if req.videoKey != "" then [req.videoKey] else [];
    PlannedLength(req);
    assert |StoredKeys(req)| == |p|;
    forall i | 0 <= i < |p| ensures StoredKeys(req)[i] == p[i].0 {
      if i < |v| {
      } else if i < |v| + |req.audiosKeys| {
        assert p[i] == AudioPlan(req.audiosKeys)[i - |v|];
      }
    }
  }
}
