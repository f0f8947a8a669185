/**
 * The encode box: fetching a request's assets from the object store with retries and an
 * exponential wait, choosing the ffmpeg recipe for the downloaded files, and removing the
 * local copies afterwards.
 */
module EncodeBox {
  import opened Wrappers
  import opened Errors
  import opened Text
  import opened Encoders
  import opened Presets
  import opened PresetProperties
  import opened FluentBuilder
  import opened Assets
  import opened ConsoleParser

  /** The attempt counter and the retry bound are signed 8-bit integers in the program. */
  newtype Int8 = x: int | -128 <= x < 128

  /**
   * What the object store answers to the attempt-th download of a key: the local path of the
   * fetched file, or an error.
   */
  type Downloader = (string, nat) -> Result<string, Failure>

  function Pow2(k: nat): (r: nat)
    ensures r >= 1
  {
    if k == 0 then 1 else 2 * Pow2(k - 1)
  }

  /** The waits after the failed attempts 0 .. n-1, in seconds: 2^attempt each. */
  function Backoff(n: nat): (r: seq<nat>)
    ensures |r| == n
  {
    if n == 0 then [] else Backoff(n - 1) + [Pow2(n - 1)]
  }

  /** The wait after failed attempt i is 2^i seconds. */
  lemma {:induction false} BackoffWaits(n: nat)
    ensures forall i :: 0 <= i < n ==> Backoff(n)[i] == Pow2(i)
  {
    if n > 0 {
      BackoffWaits(n - 1);
    }
  }

  function Total(ds: seq<nat>): nat {
    if |ds| == 0 then 0 else Total(ds[..|ds| - 1]) + ds[|ds| - 1]
  }

  /** n failed attempts wait 2^n - 1 seconds altogether. */
  lemma {:induction false} BackoffTotal(n: nat)
    ensures Total(Backoff(n)) == Pow2(n) - 1
  {
    if n > 0 {
      var b, b' := Backoff(n), Backoff(n - 1);
      assert b[..n - 1] == b';
      BackoffTotal(n - 1);
    }
  }

  /** Eleven failed attempts (a bound of 10) wait 2047 seconds, a little over half an hour. */
  lemma ElevenAttemptsWait(n: nat)
    requires n == 11
    ensures Total(Backoff(n)) == 2047
  {
    BackoffTotal(n);
    assert Pow2(n) == 2048 by {
      assert Pow2(n - 1) == 1024 by {
        assert Pow2(5) == 32;
        assert Pow2(10) == 1024;
      }
    }
  }

  /** `time.Second`: a `time.Duration` counts nanoseconds in an int64. */
  const Second: int := 1_000_000_000

  /**
   * `int64(math.Pow(2, float64(attempt)))`. The power is exact below 2^63; from attempt 63 on
   * the conversion is out of range and gives the smallest int64, as it does on amd64.
   */
  function DelaySecs(attempt: nat): (r: int)
    ensures attempt < 63 ==> r == Pow2(attempt)
  {
    if attempt < 63 then Pow2(attempt) else -0x8000_0000_0000_0000
  }

  /** `time.Duration(delaySecs) * time.Second`: the int64 product, wrapping around. */
  function SleepNanos(attempt: nat): (r: int)
    ensures InSignedRange(r, Bits64)
  {
    WrapInt64(DelaySecs(attempt) * Second)
  }

  /** The durations handed to `time.Sleep` after the failed attempts 0 .. n-1. */
  function Sleeps(n: nat): (r: seq<int>)
    ensures |r| == n
  {
    if n == 0 then [] else Sleeps(n - 1) + [SleepNanos(n - 1)]
  }

  lemma {:induction false} Pow2Monotone(i: nat, j: nat)
    requires i <= j
    ensures Pow2(i) <= Pow2(j)
  {
    if i < j {
      Pow2Monotone(i, j - 1);
    }
  }

  lemma {:induction false} Pow2Add(a: nat, b: nat)
    ensures Pow2(a + b) == Pow2(a) * Pow2(b)
  {
    if a > 0 {
      Pow2Add(a - 1, b);
    }
  }

  lemma Pow2Eleven()
    ensures Pow2(11) == 2048
  {
    assert Pow2(5) == 32;
    assert Pow2(10) == 1024;
  }

  lemma Pow2ThirtyThree()
    ensures Pow2(33) == 8_589_934_592 && Pow2(34) == 17_179_869_184
  {
    Pow2Eleven();
    Pow2Add(11, 11);
    Pow2Add(22, 11);
  }

  /** Up to attempt 33 the sleep is the back-off in seconds, exactly. */
  lemma SleepIsBackoff(attempt: nat)
    requires attempt <= 33
    ensures SleepNanos(attempt) == Pow2(attempt) * Second > 0
  {
    Pow2Monotone(attempt, 33);
    Pow2ThirtyThree();
  }

  /** With at most 34 failed attempts every sleep is its back-off in nanoseconds. */
  lemma {:induction false} SleepsFollowBackoff(n: nat)
    requires n <= 34
    ensures forall i :: 0 <= i < n ==> Sleeps(n)[i] == Backoff(n)[i] * Second
  {
    if n > 0 {
      SleepsFollowBackoff(n - 1);
      SleepIsBackoff(n - 1);
      BackoffWaits(n);
      assert Sleeps(n)[..n - 1] == Sleeps(n - 1);
    }
  }

  /**
   * From attempt 34 on the product leaves int64: after attempt 34 the duration is negative,
   * and `time.Sleep` returns at once for it.
   */
  lemma SleepWrapsAtThirtyFour(attempt: nat)
    requires attempt == 34
    ensures SleepNanos(attempt) < 0 < Pow2(attempt) * Second
  {
    Pow2ThirtyThree();
  }

  /** The first attempt among from .. last whose download succeeds, if any. */
  function FirstSuccess(download: Downloader, key: string, from: nat, last: int): (r: Option<nat>)
    ensures r.Some? ==> from <= r.value <= last && download(key, r.value).Ok?
    ensures r.Some? ==> forall j :: from <= j < r.value ==> download(key, j).Err?
    ensures r.None? <==> forall j :: from <= j <= last ==> download(key, j).Err?
    decreases last + 1 - from
  {
    if from > last then None
    else if download(key, from).Ok? then Some(from)
    else FirstSuccess(download, key, from + 1, last)
  }

  /** Where an asset's path is once its download task has finished. */
  function PathAfterDownload(download: Downloader, key: string, maxRetry: Int8, before: string): string {
    match FirstSuccess(download, key, 0, maxRetry as int)
    case Some(k) => download(key, k).value
    case None => before
  }

  /** How many attempts of a key fail before the retry loop stops: all of them when none succeeds. */
  function FailedAttempts(download: Downloader, key: string, maxRetry: Int8): (r: nat)
    requires 0 <= maxRetry
    ensures r <= maxRetry as nat + 1
    ensures forall j :: 0 <= j < r ==> download(key, j).Err?
    ensures r <= maxRetry as nat ==> download(key, r).Ok?
  {
    match FirstSuccess(download, key, 0, maxRetry as int)
    case Some(k) => k
    case None => maxRetry as nat + 1
  }

  /**
   * The retry loop of one download task: up to maxRetry + 1 attempts, stopping at the first
   * success, with a sleep of 2^attempt seconds, as an int64 count of nanoseconds, after every
   * failed attempt (the last one included). On success the asset's path is the downloaded one; once every attempt has
   * failed the path is left alone and the last attempt's error is returned. `sleeps` lists the
   * durations handed to `time.Sleep`, in nanoseconds, in order.
   */
  method DownloadAsset(asset: Asset, maxRetry: Int8, download: Downloader) returns (err: Option<Failure>, sleeps: seq<int>)
    requires 0 <= maxRetry < 127
    modifies asset
    ensures err.None? <==> FirstSuccess(download, asset.key, 0, maxRetry as int).Some?
    ensures err.Some? ==> err.value == download(asset.key, maxRetry as nat).error
    ensures asset.path == PathAfterDownload(download, asset.key, maxRetry, old(asset.path))
    ensures sleeps == Sleeps(FailedAttempts(download, asset.key, maxRetry))
  {
    var pathPtr: Option<string> := None;
    var lastErr: Option<Failure> := None;
    sleeps := [];
    var attempts: Int8 := 0;
    ghost var first := FirstSuccess(download, asset.key, 0, maxRetry as int);
    while attempts <= maxRetry
      invariant 0 <= attempts <= maxRetry + 1
      invariant first == FirstSuccess(download, asset.key, attempts as nat, maxRetry as int)
      invariant attempts == 0 ==> lastErr == None && pathPtr == None
      invariant attempts > 0 ==> pathPtr == None && lastErr == Some(download(asset.key, attempts as nat - 1).error)
      invariant sleeps == Sleeps(attempts as nat)
      invariant asset.path == old(asset.path)
    {
      var outcome := download(asset.key, attempts as nat);
      if outcome.Ok? {
        pathPtr, lastErr := Some(outcome.value), None;
        break;
      }
      pathPtr, lastErr := None, Some(outcome.error);
      sleeps := sleeps + [SleepNanos(attempts as nat)];
      attempts := attempts + 1;
    }
    if lastErr.Some? {
      err := lastErr;
      return;
    }
    asset.path := pathPtr.value;
    err := None;
  }

  /** The counter's increment as the program performs it, wrapping from 127 to -128. */
  function Int8Succ(a: Int8): (r: Int8)
    ensures a < 127 ==> r as int == a as int + 1
    ensures a == 127 ==> r == -128
  {
    if a == 127 then -128 else a + 1
  }

  /** The counter after n increments from 0. */
  function CounterAfter(n: nat): Int8 {
    if n == 0 then 0 else Int8Succ(CounterAfter(n - 1))
  }

  /**
   * With a bound of 127 the loop guard holds for every counter value, and the counter comes
   * back to where it started every 256 increments.
   */
  lemma {:induction false} CounterCycles(maxRetry: Int8, n: nat)
    requires maxRetry == 127
    ensures CounterAfter(n) <= maxRetry
    ensures CounterAfter(n + 256) == CounterAfter(n)
  {
    if n == 0 {
      CounterFromZero(256);
    } else {
      CounterCycles(maxRetry, n - 1);
    }
  }

  lemma {:induction false} CounterFromZero(n: nat)
    requires n <= 256
    ensures CounterAfter(n) as int == if n < 128 then n else n - 256
  {
    if n > 0 {
      CounterFromZero(n - 1);
    }
  }

  /** The keys of a collection, in order. */
  function Keys(assets: seq<Asset>): (r: seq<string>)
    ensures |r| == |assets| && forall i :: 0 <= i < |assets| ==> r[i] == assets[i].key
  {
    seq(|assets|, i requires 0 <= i < |assets| => assets[i].key)
  }

  /**
   * The error of the first key, in order, whose every attempt fails: for a non-empty
   * collection, `downloadAssets` succeeds exactly when each key has a successful attempt.
   */
  function FirstFailure(download: Downloader, keys: seq<string>, maxRetry: Int8): (r: Option<Failure>)
    requires 0 <= maxRetry
    ensures r.None? <==> forall i :: 0 <= i < |keys| ==> FirstSuccess(download, keys[i], 0, maxRetry as int).Some?
    ensures r.Some? ==> exists i :: 0 <= i < |keys| && FailsFrom(download, keys, maxRetry, i) && r.value == download(keys[i], maxRetry as nat).error
  {
    if |keys| == 0 then None
    else
      var init := keys[..|keys| - 1];
      var before := FirstFailure(download, init, maxRetry);
      var last := keys[|keys| - 1];
      assert forall i :: 0 <= i < |init| ==> init[i] == keys[i];
      if before.Some? then
        assert exists i :: 0 <= i < |keys| && FailsFrom(download, keys, maxRetry, i) && before.value == download(keys[i], maxRetry as nat).error by {
          var i :| 0 <= i < |init| && FailsFrom(download, init, maxRetry, i) && before.value == download(init[i], maxRetry as nat).error;
          assert FailsFrom(download, keys, maxRetry, i);
        }
        before
      else if FirstSuccess(download, last, 0, maxRetry as int).None? then
        assert FailsFrom(download, keys, maxRetry, |keys| - 1);
        Some(download(last, maxRetry as nat).error)
      else None
  }

  /** Key i is the first, in order, whose every attempt fails. */
  predicate FailsFrom(download: Downloader, keys: seq<string>, maxRetry: Int8, i: nat)
    requires i < |keys|
  {
    FirstSuccess(download, keys[i], 0, maxRetry as int).None?
    && forall j :: 0 <= j < i ==> FirstSuccess(download, keys[j], 0, maxRetry as int).Some?
  }

  /** Extending the keys by one: an earlier failure stays the first, else the new key's failure is. */
  lemma FirstFailureStep(download: Downloader, keys: seq<string>, maxRetry: Int8, i: nat)
    requires 0 <= maxRetry && i < |keys|
    ensures var before := FirstFailure(download, keys[..i], maxRetry);
      FirstFailure(download, keys[..i + 1], maxRetry) ==
        if before.Some? then before
        else if FirstSuccess(download, keys[i], 0, maxRetry as int).None? then Some(download(keys[i], maxRetry as nat).error)
        else None
  {
    assert keys[..i + 1][..i] == keys[..i];
    assert keys[..i + 1][i] == keys[i];
  }

  /**
   * How the wait for the download tasks ends. The waiting loop only leaves its `select` on an
   * error or once a success has been counted, so with no asset at all it never returns.
   */
  datatype BatchOutcome = Blocked | Returned(err: Option<Failure>)

  /**
   * The outcome of the wait for a collection with these keys: blocked when there is none,
   * otherwise success exactly when every key has a successful attempt, and else the first
   * failing key's error, wrapped.
   */
  function BatchOutcomeOf(download: Downloader, keys: seq<string>, maxRetry: Int8): (r: BatchOutcome)
    requires 0 <= maxRetry
    ensures r.Blocked? <==> |keys| == 0
    ensures r == Returned(None) <==>
      |keys| > 0 && forall i :: 0 <= i < |keys| ==> FirstSuccess(download, keys[i], 0, maxRetry as int).Some?
    ensures r.Returned? && r.err.Some? ==>
      exists i :: 0 <= i < |keys| && FailsFrom(download, keys, maxRetry, i)
        && r.err.value == DownloadFailed(download(keys[i], maxRetry as nat).error)
  {
    if |keys| == 0 then Blocked
    else match FirstFailure(download, keys, maxRetry)
      case None => Returned(None)
      case Some(e) => Returned(Some(DownloadFailed(e)))
  }

  /**
   * `downloadAssets`, one task after the other: every asset's retry loop runs to its end, each
   * successful asset takes its downloaded path, and the error of the first asset that could not
   * be fetched is reported, wrapped. An empty collection starts no task, and the wait blocks.
   */
  method DownloadAssets(assets: seq<Asset>, maxRetry: Int8, download: Downloader) returns (outcome: BatchOutcome)
    requires 0 <= maxRetry < 127
    requires Distinct(assets)
    modifies set a | a in assets
    ensures outcome == BatchOutcomeOf(download, Keys(assets), maxRetry)
    ensures forall i :: 0 <= i < |assets| ==>
      assets[i].path == PathAfterDownload(download, assets[i].key, maxRetry, old(assets[i].path))
  {
    var firstErr: Option<Failure> := None;
    for i := 0 to |assets|
      invariant firstErr == FirstFailure(download, Keys(assets)[..i], maxRetry)
      invariant forall k :: 0 <= k < i ==>
        assets[k].path == PathAfterDownload(download, assets[k].key, maxRetry, old(assets[k].path))
      invariant forall k :: i <= k < |assets| ==> assets[k].path == old(assets[k].path)
    {
      var e, _ := DownloadAsset(assets[i], maxRetry, download);
      FirstFailureStep(download, Keys(assets), maxRetry, i);
      if firstErr.None? && e.Some? {
        firstErr := e;
      }
    }
    assert Keys(assets)[..|assets|] == Keys(assets);
    if |assets| == 0 {
      outcome := Blocked;
    } else {
      outcome := Returned(match firstErr case None => None case Some(e) => Some(DownloadFailed(e)));
    }
  }

  /**
   * `cleanUpAssets`: the file at every asset's path is removed, in order, and every path is
   * reset to "" whether or not the removal succeeded. `removed` lists the paths handed to the
   * file system.
   */
  method CleanUpAssets(assets: seq<Asset>) returns (removed: seq<string>)
    requires Distinct(assets)
    modifies set a | a in assets
    ensures |removed| == |assets| && forall i :: 0 <= i < |assets| ==> removed[i] == old(assets[i].path)
    ensures forall i :: 0 <= i < |assets| ==> assets[i].path == ""
  {
    removed := [];
    for i := 0 to |assets|
      invariant |removed| == i
      invariant forall k :: 0 <= k < i ==> removed[k] == old(assets[k].path) && assets[k].path == ""
      invariant forall k :: i <= k < |assets| ==> assets[k].path == old(assets[k].path)
    {
      removed := removed + [assets[i].path];
      assets[i].path := "";
    }
  }

  /** After a clean-up no role has a path left but the empty one. */
  lemma CleanedCollectionHasNoPaths(assets: seq<Asset>, m: AssetMedia)
    requires forall i :: 0 <= i < |assets| ==> assets[i].path == ""
    ensures forall p :: p in PathsOf(assets, m) ==> p == ""
  {
    PathsOfEach(assets, m);
  }

  // ---------------------------------------------------------------- choosing the encoder

  /** `GetAudiosOnlyEnc` is not part of this model: the recipe for audio paths and an output. */
  type AudiosOnlyRecipe = (seq<string>, string) -> Result<Encoder, Failure>

  /** A recipe's error is wrapped; an encoder is passed through. */
  function WrapRecipe(built: Result<Encoder, Failure>): (r: Result<Encoder, Failure>)
    ensures r.Ok? <==> built.Ok?
    ensures r.Ok? ==> r.value == built.value
    ensures r.Err? ==> r.error == EncoderCreation(built.error)
  {
    match built
    case Ok(enc) => Ok(enc)
    case Err(e) => Err(EncoderCreation(e))
  }

  predicate VideoOnly(req: EncodingRequest) {
    req.videoKey != "" && req.imageKey == ""
  }

  predicate ImageOnly(req: EncodingRequest) {
    req.imageKey != "" && req.videoKey == ""
  }

  /**
   * `setupEnc` for the collection made from the request: the first video path (or image path)
   * and all the audio paths go to the matching recipe. `sfx` stands for the random suffixes the
   * filter constructors draw.
   */
  function SetupEnc(req: EncodingRequest, assets: seq<Asset>, output: string, sfx: Suffixes, audiosOnly: AudiosOnlyRecipe): (r: Result<Encoder, Failure>)
    requires Layout(assets) == Planned(req)
    reads set a | a in assets
    ensures r == Err(NoSuitableEncoder) <==> |req.audiosKeys| == 0 || (req.videoKey != "" && req.imageKey != "")
    ensures r.Err? && r.error != NoSuitableEncoder ==> r.error.EncoderCreation?
    ensures |req.audiosKeys| > 0 && (VideoOnly(req) || ImageOnly(req)) ==> (r.Ok? <==> output != "")
  {
    CollectionPathCounts(req, assets);
    if |req.audiosKeys| == 0 then Err(NoSuitableEncoder)
    else if VideoOnly(req) then
      WrapRecipe(VideoRecipe(PathsOf(assets, Video)[0], PathsOf(assets, Audio), output, sfx))
    else if ImageOnly(req) then
      WrapRecipe(ImageRecipe(PathsOf(assets, Image)[0], PathsOf(assets, Audio), output, sfx))
    else if req.imageKey == "" && req.videoKey == "" then
      WrapRecipe(audiosOnly(PathsOf(assets, Audio), output))
    else Err(NoSuitableEncoder)
  }

  // ---------------------------------------------------------------- paths of a planned collection

  lemma {:induction false} PathsOfAppend(a: seq<Asset>, b: seq<Asset>, m: AssetMedia)
    ensures PathsOf(a + b, m) == PathsOf(a, m) + PathsOf(b, m)
    decreases |b|
  {
    if |b| == 0 {
      assert a + b == a;
    } else {
      var b' := b[..|b| - 1];
      assert (a + b)[..|a + b| - 1] == a + b';
      assert (a + b)[|a + b| - 1] == b[|b| - 1];
      PathsOfAppend(a, b', m);
    }
  }

  /** Each path of a role is the path of some asset. */
  lemma {:induction false} PathsOfEach(ac: seq<Asset>, m: AssetMedia)
    ensures forall p :: p in PathsOf(ac, m) ==> exists i :: 0 <= i < |ac| && ac[i].path == p
  {
    if |ac| > 0 {
      PathsOfEach(ac[..|ac| - 1], m);
      forall p | p in PathsOf(ac, m) ensures exists i :: 0 <= i < |ac| && ac[i].path == p {
        if p in PathsOf(ac[..|ac| - 1], m) {
          var i :| 0 <= i < |ac| - 1 && ac[..|ac| - 1][i].path == p;
          assert ac[i].path == p;
        } else {
          assert ac[|ac| - 1].path == p;
        }
      }
    }
  }

  /** The paths of all the assets, in order. */
  function AllPaths(ac: seq<Asset>): (r: seq<string>)
    reads set a | a in ac
    ensures |r| == |ac| && forall i :: 0 <= i < |ac| ==> r[i] == ac[i].path
  {
    if |ac| == 0 then [] else AllPaths(ac[..|ac| - 1]) + [ac[|ac| - 1].path]
  }

  /** The paths of a run of assets that all have the role, in order. */
  lemma {:induction false} PathsOfAll(ac: seq<Asset>, m: AssetMedia)
    requires forall i :: 0 <= i < |ac| ==> ac[i].media == m
    ensures PathsOf(ac, m) == AllPaths(ac)
  {
    if |ac| > 0 {
      PathsOfAll(ac[..|ac| - 1], m);
    }
  }

  lemma {:induction false} PathsOfNone(ac: seq<Asset>, m: AssetMedia)
    requires forall i :: 0 <= i < |ac| ==> ac[i].media != m
    ensures PathsOf(ac, m) == []
  {
    if |ac| > 0 {
      PathsOfNone(ac[..|ac| - 1], m);
    }
  }

  lemma PathsOfThree(head: seq<Asset>, mid: seq<Asset>, tail: seq<Asset>, m: AssetMedia)
    ensures PathsOf(head + mid + tail, m) == PathsOf(head, m) + PathsOf(mid, m) + PathsOf(tail, m)
  {
    PathsOfAppend(head + mid, tail, m);
    PathsOfAppend(head, mid, m);
  }

  /** A collection made from a request: up to one video first, the audios, up to one image last. */
  lemma PlannedRoles(req: EncodingRequest, ac: seq<Asset>)
    requires Layout(ac) == Planned(req)
    ensures var v, n := Role(req.videoKey != ""), |req.audiosKeys|;
      |ac| == v + n + Role(req.imageKey != "")
      && (forall i :: 0 <= i < v ==> ac[i].media == Video)
      && (forall i :: v <= i < v + n ==> ac[i].media == Audio)
      && (forall i :: v + n <= i < |ac| ==> ac[i].media == Image)
  {
    PlannedLength(req);
    var v, n := Role(req.videoKey != ""), |req.audiosKeys|;
    forall i | 0 <= i < |ac| ensures Layout(ac)[i].1 == ac[i].media {
    }
  }

  /** The audio paths of a collection made from a request: the paths of the assets after the video. */
  function AudioPathsOf(req: EncodingRequest, ac: seq<Asset>): (r: seq<string>)
    requires Layout(ac) == Planned(req)
    reads set a | a in ac
    ensures var v := Role(req.videoKey != "");
      |r| == |req.audiosKeys| && forall i :: 0 <= i < |r| ==> r[i] == ac[v + i].path
  {
    PlannedLength(req);
    var v := Role(req.videoKey != "");
    AllPaths(ac[v..v + |req.audiosKeys|])
  }

  /** Where exactly the assets lo .. hi-1 have the role, its paths are theirs. */
  lemma PathsOfSplit(ac: seq<Asset>, lo: nat, hi: nat, m: AssetMedia)
    requires lo <= hi <= |ac|
    ensures PathsOf(ac, m) == PathsOf(ac[..lo], m) + PathsOf(ac[lo..hi], m) + PathsOf(ac[hi..], m)
  {
    assert ac == ac[..lo] + ac[lo..hi] + ac[hi..];
    PathsOfThree(ac[..lo], ac[lo..hi], ac[hi..], m);
  }

  lemma RunPaths(ac: seq<Asset>, lo: nat, hi: nat, m: AssetMedia)
    requires lo <= hi <= |ac|
    requires forall i :: lo <= i < hi ==> ac[i].media == m
    requires forall i :: 0 <= i < |ac| && (i < lo || hi <= i) ==> ac[i].media != m
    ensures PathsOf(ac, m) == AllPaths(ac[lo..hi])
  {
    var head, mid, tail := ac[..lo], ac[lo..hi], ac[hi..];
    PathsOfSplit(ac, lo, hi, m);
    assert PathsOf(head, m) == [] by {
      forall i | 0 <= i < |head| ensures head[i].media != m {
        assert head[i] == ac[i];
      }
      PathsOfNone(head, m);
    }
    assert PathsOf(mid, m) == AllPaths(mid) by {
      forall i | 0 <= i < |mid| ensures mid[i].media == m {
        assert mid[i] == ac[lo + i];
      }
      PathsOfAll(mid, m);
    }
    assert PathsOf(tail, m) == [] by {
      forall i | 0 <= i < |tail| ensures tail[i].media != m {
        assert tail[i] == ac[hi + i];
      }
      PathsOfNone(tail, m);
    }
    ConcatEmpty(AllPaths(mid));
  }

  /** In a collection made from a request, the audios are exactly the assets after the video and before the image. */
  lemma AudioRun(req: EncodingRequest, ac: seq<Asset>)
    requires Layout(ac) == Planned(req)
    ensures var v, n := Role(req.videoKey != ""), |req.audiosKeys|;
      v + n <= |ac|
      && (forall i :: v <= i < v + n ==> ac[i].media == Audio)
      && (forall i :: 0 <= i < |ac| && (i < v || v + n <= i) ==> ac[i].media != Audio)
  {
    PlannedRoles(req, ac);
  }

  lemma AudioPathsPlanned(req: EncodingRequest, ac: seq<Asset>)
    requires Layout(ac) == Planned(req)
    ensures PathsOf(ac, Audio) == AudioPathsOf(req, ac)
  {
    var v, n := Role(req.videoKey != ""), |req.audiosKeys|;
    AudioRun(req, ac);
    RunPaths(ac, v, v + n, Audio);
    assert AudioPathsOf(req, ac) == AllPaths(ac[v..v + n]);
  }

  lemma VideoPathPlanned(req: EncodingRequest, ac: seq<Asset>)
    requires Layout(ac) == Planned(req) && req.videoKey != ""
    ensures PathsOf(ac, Video) == [ac[0].path]
  {
    PlannedRoles(req, ac);
    RunPaths(ac, 0, 1, Video);
  }

  lemma ImagePathPlanned(req: EncodingRequest, ac: seq<Asset>)
    requires Layout(ac) == Planned(req) && req.imageKey != ""
    ensures PathsOf(ac, Image) == [ac[|ac| - 1].path]
  {
    PlannedRoles(req, ac);
    RunPaths(ac, |ac| - 1, |ac|, Image);
  }

  /** For a collection made from a request: where the video, audio and image paths come from. */
  lemma PathsOfPlanned(req: EncodingRequest, ac: seq<Asset>)
    requires Layout(ac) == Planned(req)
    ensures PathsOf(ac, Audio) == AudioPathsOf(req, ac)
    ensures req.videoKey != "" ==> PathsOf(ac, Video) == [ac[0].path]
    ensures req.imageKey != "" ==> PathsOf(ac, Image) == [ac[|ac| - 1].path]
  {
    AudioPathsPlanned(req, ac);
    if req.videoKey != "" {
      VideoPathPlanned(req, ac);
    }
    if req.imageKey != "" {
      ImagePathPlanned(req, ac);
    }
  }

  /**
   * With a video and no image, the encoder's command line reads the video file first (the
   * first asset), then every audio track's file in request order, then the graph that
   * concatenates, normalises, resamples and mixes the tracks, the mapping and the output.
   */
  lemma SetupEncVideoCommand(req: EncodingRequest, ac: seq<Asset>, output: string, sfx: Suffixes, audiosOnly: AudiosOnlyRecipe)
    requires Layout(ac) == Planned(req)
    requires |req.audiosKeys| > 0 && VideoOnly(req) && output != ""
    ensures var r := SetupEnc(req, ac, output, sfx, audiosOnly);
      var audios := AudioPathsOf(req, ac);
      var g := VideoGraph(|audios|, sfx);
      r.Ok? && GetCommandLine(r.value) ==
      Join(["ffmpeg", "-i", ac[0].path] + AudioPieces(audios)
           + [Flag, "\"" + GraphArgument(g) + "\""] + ["-map 0:v", MapOption("mixed_" + sfx.mix)] + [output], " ")
  {
    PathsOfPlanned(req, ac);
    VideoCommand(ac[0].path, AudioPathsOf(req, ac), output, sfx);
  }

  /** With an image and no video, the command line loops the picture (the last asset) under the audio tracks. */
  lemma SetupEncImageCommand(req: EncodingRequest, ac: seq<Asset>, output: string, sfx: Suffixes, audiosOnly: AudiosOnlyRecipe)
    requires Layout(ac) == Planned(req)
    requires |req.audiosKeys| > 0 && ImageOnly(req) && output != ""
    ensures var r := SetupEnc(req, ac, output, sfx, audiosOnly);
      var audios := AudioPathsOf(req, ac);
      var g := AudioChain(|audios|, sfx);
      r.Ok? && GetCommandLine(r.value) ==
      Join(["ffmpeg", "-loop 1", "-i", ac[|ac| - 1].path] + AudioPieces(audios)
           + [Flag, "\"" + GraphArgument(g) + "\""]
           + (StillImageOptions + ["-map 0:v", MapOption("norm_" + sfx.resample)]) + [output], " ")
  {
    PathsOfPlanned(req, ac);
    ImageCommand(ac[|ac| - 1].path, AudioPathsOf(req, ac), output, sfx);
  }

  /** With neither a video nor an image, the audio-only recipe gets every audio path in request order. */
  lemma SetupEncAudiosOnly(req: EncodingRequest, ac: seq<Asset>, output: string, sfx: Suffixes, audiosOnly: AudiosOnlyRecipe)
    requires Layout(ac) == Planned(req)
    requires |req.audiosKeys| > 0 && req.videoKey == "" && req.imageKey == ""
    ensures SetupEnc(req, ac, output, sfx, audiosOnly) == WrapRecipe(audiosOnly(AudioPathsOf(req, ac), output))
  {
    PathsOfPlanned(req, ac);
  }

  /**
   * Downloading a collection and then choosing the encoder: when every asset's download
   * succeeds, the paths the recipe is given are the downloaded ones.
   */
  lemma DownloadedPathsReachEncoder(req: EncodingRequest, ac: seq<Asset>, download: Downloader, maxRetry: Int8)
    requires Layout(ac) == Planned(req) && 0 <= maxRetry
    requires FirstFailure(download, Keys(ac), maxRetry).None?
    requires forall i :: 0 <= i < |ac| ==> ac[i].path == PathAfterDownload(download, ac[i].key, maxRetry, "")
    ensures var v := Role(req.videoKey != "");
      forall i :: 0 <= i < |req.audiosKeys| ==>
        var k := FirstSuccess(download, req.audiosKeys[i], 0, maxRetry as int);
        k.Some? && AudioPathsOf(req, ac)[i] == download(req.audiosKeys[i], k.value).value
  {
    PlannedLength(req);
    var v := Role(req.videoKey != "");
    forall i | 0 <= i < |req.audiosKeys|
      ensures var k := FirstSuccess(download, req.audiosKeys[i], 0, maxRetry as int);
        k.Some? && AudioPathsOf(req, ac)[i] == download(req.audiosKeys[i], k.value).value
    {
      assert Layout(ac)[v + i] == Planned(req)[v + i];
      assert Keys(ac)[v + i] == req.audiosKeys[i];
    }
  }
}
