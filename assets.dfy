/**
 * The assets of an encoding request: the files to fetch from the object store, each with the
 * storage key it is fetched by, the local path it lands at, and its role in the encoding.
 */
module Assets {

  /** `AssetMedia`: the role of a file in the encoding. */
  datatype AssetMedia = Video | Audio | Image

  /** The `iota` values the program gives the three roles. */
  function MediaTag(m: AssetMedia): (r: int)
    ensures 0 <= r <= 2
  {
    match m
    case Video => 0
    case Audio => 1
    case Image => 2
  }

  /** No two roles share a tag. */
  lemma MediaTagsDistinct(m: AssetMedia, n: AssetMedia)
    ensures MediaTag(m) == MediaTag(n) <==> m == n
  {
  }

  /**
   * `EncodingRequest`: the job id, the storage keys of the video, the audio tracks and the
   * still image (an empty key meaning "none"), and the one encoding option.
   */
  datatype EncodingRequest = EncodingRequest(
    jobId: string,
    videoKey: string,
    audiosKeys: seq<string>,
    imageKey: string,
    deleteAssetsFromObjStore: bool)

  /** `Asset`: the key and the role are fixed when the asset is made; the path is filled in later. */
  class Asset {
    const key: string
    const media: AssetMedia
    var path: string

    constructor(key: string, media: AssetMedia)
      ensures this.key == key && this.media == media && path == ""
    {
      this.key := key;
      this.media := media;
      path := "";
    }
  }

  /** What a collection is made of, key and role of each asset in order. */
  function Layout(ac: seq<Asset>): (r: seq<(string, AssetMedia)>)
    ensures |r| == |ac| && forall i :: 0 <= i < |ac| ==> r[i] == (ac[i].key, ac[i].media)
  {
    seq(|ac|, i requires 0 <= i < |ac| => (ac[i].key, ac[i].media))
  }

  function AudioPlan(keys: seq<string>): (r: seq<(string, AssetMedia)>)
    ensures |r| == |keys| && forall i :: 0 <= i < |keys| ==> r[i] == (keys[i], Audio)
  {
    seq(|keys|, i requires 0 <= i < |keys| => (keys[i], Audio))
  }

  function VideoPlan(req: EncodingRequest): seq<(string, AssetMedia)> {
    if req.videoKey != "" then [(req.videoKey, Video)] else []
  }

  function ImagePlan(req: EncodingRequest): seq<(string, AssetMedia)> {
    if req.imageKey != "" then [(req.imageKey, Image)] else []
  }

  /** The collection a request asks for: the video if its key is set, every audio in order, then the image if set. */
  function Planned(req: EncodingRequest): seq<(string, AssetMedia)> {
    VideoPlan(req) + AudioPlan(req.audiosKeys) + ImagePlan(req)
  }

  predicate Distinct(ac: seq<Asset>) {
    forall i, j :: 0 <= i < j < |ac| ==> ac[i] != ac[j]
  }

  /** `NewAssetCollectionFrom`: one new asset per planned entry, each with an empty path. */
  method NewAssetCollectionFrom(req: EncodingRequest) returns (ac: seq<Asset>)
    ensures Layout(ac) == Planned(req)
    ensures Distinct(ac)
    ensures forall i :: 0 <= i < |ac| ==> fresh(ac[i]) && ac[i].path == ""
  {
    ac := [];
    if req.videoKey != "" {
      var v := new Asset(req.videoKey, Video);
      ac := ac + [v];
    }
    assert Layout(ac) == VideoPlan(req);
    for i := 0 to |req.audiosKeys|
      invariant Layout(ac) == VideoPlan(req) + AudioPlan(req.audiosKeys[..i])
      invariant Distinct(ac)
      invariant forall k :: 0 <= k < |ac| ==> fresh(ac[k]) && ac[k].path == ""
    {
      var a := new Asset(req.audiosKeys[i], Audio);
      assert a !in ac;
      DistinctSnoc(ac, a);
      LayoutSnoc(ac, a);
      AudioPlanSnoc(req.audiosKeys, i);
      assert Layout(ac + [a]) == VideoPlan(req) + AudioPlan(req.audiosKeys[..i + 1]);
      ac := ac + [a];
    }
    assert req.audiosKeys[..|req.audiosKeys|] == req.audiosKeys;
    assert Layout(ac) == VideoPlan(req) + AudioPlan(req.audiosKeys);
    if req.imageKey != "" {
      var m := new Asset(req.imageKey, Image);
      assert m !in ac;
      DistinctSnoc(ac, m);
      LayoutSnoc(ac, m);
      ac := ac + [m];
    }
  }

  lemma LayoutSnoc(ac: seq<Asset>, a: Asset)
    ensures Layout(ac + [a]) == Layout(ac) + [(a.key, a.media)]
  {
  }

  lemma DistinctSnoc(ac: seq<Asset>, a: Asset)
    requires Distinct(ac) && a !in ac
    ensures Distinct(ac + [a])
  {
  }

  lemma AudioPlanSnoc(keys: seq<string>, i: int)
    requires 0 <= i < |keys|
    ensures AudioPlan(keys[..i + 1]) == AudioPlan(keys[..i]) + [(keys[i], Audio)]
  {
  }

  function Role(b: bool): nat {
    if b then 1 else 0
  }

  /** One asset per set key, one per audio track. */
  lemma PlannedLength(req: EncodingRequest)
    ensures |Planned(req)| == Role(req.videoKey != "") + |req.audiosKeys| + Role(req.imageKey != "")
  {
  }

  /** The entries of a given role, in order. */
  function OfMedia(entries: seq<(string, AssetMedia)>, m: AssetMedia): (r: seq<string>)
    ensures |r| <= |entries|
  {
    if |entries| == 0 then []
    else
      var last := entries[|entries| - 1];
      OfMedia(entries[..|entries| - 1], m) + (if last.1 == m then [last.0] else [])
  }

  lemma {:induction false} OfMediaAppend(a: seq<(string, AssetMedia)>, b: seq<(string, AssetMedia)>, m: AssetMedia)
    ensures OfMedia(a + b, m) == OfMedia(a, m) + OfMedia(b, m)
    decreases |b|
  {
    if |b| == 0 {
      assert a + b == a;
    } else {
      var b' := b[..|b| - 1];
      assert (a + b)[..|a + b| - 1] == a + b';
      assert (a + b)[|a + b| - 1] == b[|b| - 1];
      OfMediaAppend(a, b', m);
    }
  }

  lemma {:induction false} OfMediaAudioPlan(keys: seq<string>, m: AssetMedia)
    ensures OfMedia(AudioPlan(keys), m) == if m == Audio then keys else []
    decreases |keys|
  {
    if |keys| > 0 {
      var init := keys[..|keys| - 1];
      assert AudioPlan(keys)[..|keys| - 1] == AudioPlan(init);
      OfMediaAudioPlan(init, m);
      assert init + [keys[|keys| - 1]] == keys;
    }
  }

  lemma OfMediaSingle(key: string, n: AssetMedia, m: AssetMedia)
    ensures OfMedia([(key, n)], m) == if n == m then [key] else []
  {
    assert [(key, n)][..0] == [];
  }

  lemma OfMediaPlanned(req: EncodingRequest, m: AssetMedia)
    ensures OfMedia(Planned(req), m) == OfMedia(VideoPlan(req), m) + OfMedia(AudioPlan(req.audiosKeys), m) + OfMedia(ImagePlan(req), m)
  {
    var v, a, i := VideoPlan(req), AudioPlan(req.audiosKeys), ImagePlan(req);
    OfMediaAppend(v + a, i, m);
    OfMediaAppend(v, a, m);
  }

  lemma OfMediaVideoPlan(req: EncodingRequest, m: AssetMedia)
    ensures OfMedia(VideoPlan(req), m) == if req.videoKey != "" && m == Video then [req.videoKey] else []
  {
    if req.videoKey != "" {
      OfMediaSingle(req.videoKey, Video, m);
    }
  }

  lemma OfMediaImagePlan(req: EncodingRequest, m: AssetMedia)
    ensures OfMedia(ImagePlan(req), m) == if req.imageKey != "" && m == Image then [req.imageKey] else []
  {
    if req.imageKey != "" {
      OfMediaSingle(req.imageKey, Image, m);
    }
  }

  /** The entries of one role in a request's collection. */
  lemma PlannedOfMedia(req: EncodingRequest, m: AssetMedia)
    ensures OfMedia(Planned(req), m) ==
      (if req.videoKey != "" && m == Video then [req.videoKey] else [])
      + (if m == Audio then req.audiosKeys else [])
      + (if req.imageKey != "" && m == Image then [req.imageKey] else [])
  {
    OfMediaPlanned(req, m);
    OfMediaVideoPlan(req, m);
    OfMediaAudioPlan(req.audiosKeys, m);
    OfMediaImagePlan(req, m);
  }

  lemma ConcatEmpty(x: seq<string>)
    ensures [] + x + [] == x && x + [] == x && [] + x == x
  {
  }

  /**
   * The roles of a request's collection: its audio keys are exactly the request's, in order,
   * and there is one video and one image key exactly when those keys are set.
   */
  lemma PlannedByMedia(req: EncodingRequest)
    ensures OfMedia(Planned(req), Audio) == req.audiosKeys
    ensures OfMedia(Planned(req), Video) == if req.videoKey != "" then [req.videoKey] else []
    ensures OfMedia(Planned(req), Image) == if req.imageKey != "" then [req.imageKey] else []
  {
    PlannedOfMedia(req, Audio);
    ConcatEmpty(req.audiosKeys);
    PlannedOfMedia(req, Video);
    ConcatEmpty(if req.videoKey != "" then [req.videoKey] else []);
    PlannedOfMedia(req, Image);
    ConcatEmpty(if req.imageKey != "" then [req.imageKey] else []);
  }

  /** The paths of the assets of a role, in collection order. */
  function PathsOf(ac: seq<Asset>, m: AssetMedia): (r: seq<string>)
    reads set a | a in ac
  {
    if |ac| == 0 then []
    else
      var last := ac[|ac| - 1];
      PathsOf(ac[..|ac| - 1], m) + (if last.media == m then [last.path] else [])
  }

  /** One path per asset of the role. */
  lemma {:induction false} PathsOfCount(ac: seq<Asset>, m: AssetMedia)
    ensures |PathsOf(ac, m)| == |OfMedia(Layout(ac), m)|
  {
    if |ac| > 0 {
      assert Layout(ac)[..|ac| - 1] == Layout(ac[..|ac| - 1]);
      PathsOfCount(ac[..|ac| - 1], m);
    }
  }

  /** `findPaths`, for the three predicates its callers pass: the paths of one role, in order. */
  method FindPaths(ac: seq<Asset>, m: AssetMedia) returns (ret: seq<string>)
    ensures ret == PathsOf(ac, m)
  {
    ret := [];
    for i := 0 to |ac|
      invariant ret == PathsOf(ac[..i], m)
    {
      assert ac[..i + 1][..i] == ac[..i];
      if ac[i].media == m {
        ret := ret + [ac[i].path];
      }
    }
    assert ac[..|ac|] == ac;
  }

  method VideosPaths(ac: seq<Asset>) returns (ret: seq<string>)
    ensures ret == PathsOf(ac, Video)
  {
    ret := FindPaths(ac, Video);
  }

  method AudiosPaths(ac: seq<Asset>) returns (ret: seq<string>)
    ensures ret == PathsOf(ac, Audio)
  {
    ret := FindPaths(ac, Audio);
  }

  method ImagesPaths(ac: seq<Asset>) returns (ret: seq<string>)
    ensures ret == PathsOf(ac, Image)
  {
    ret := FindPaths(ac, Image);
  }

  /**
   * For a collection made from a request there are as many audio paths as audio keys, and
   * one video (image) path exactly when the video (image) key is set.
   */
  lemma CollectionPathCounts(req: EncodingRequest, ac: seq<Asset>)
    requires Layout(ac) == Planned(req)
    ensures |PathsOf(ac, Audio)| == |req.audiosKeys|
    ensures |PathsOf(ac, Video)| == Role(req.videoKey != "")
    ensures |PathsOf(ac, Image)| == Role(req.imageKey != "")
  {
    PlannedByMedia(req);
    PathsOfCount(ac, Audio);
    PathsOfCount(ac, Video);
    PathsOfCount(ac, Image);
  }
}
