/**
 * The videos-page generator. It reads every artist file the artist-page
 * generator wrote (not `index.json`), keeps the artists with at least three
 * songs that carry a usable YouTube id, samples up to five of those songs
 * per artist at a fixed stride, orders the artists by how many such songs
 * they have (most first) and writes all the samples, artist after artist,
 * to one `videos.json`.
 *
 * The script has no error handling: an unreadable directory or file, a
 * file that is not JSON, or a record of the wrong shape stops the run
 * before anything is written, which the model returns as `Thrown`.
 */
module VideosPage {
  import opened JsValue
  import opened JsString
  import opened Sorting
  import opened Files

  const MaxVideosPerArtist: nat := 5
  const MinVideosToQualify: nat := 3
  const UnknownArtistSlug: string := "desconocido"
  const IndexName: string := "index.json"
  const ThumbnailHost: string := "https://i.ytimg.com/vi/"

  /* ---------------------------------------------------------------------- */
  /* The artist files                                                        */
  /* ---------------------------------------------------------------------- */

  /** `f.endsWith(".json") && f !== "index.json"`, in listing order. */
  function ArtistFiles(listing: seq<DirEntry>): (r: seq<DirEntry>)
    ensures forall i :: 0 <= i < |r| ==> IsJsonName(r[i].name) && r[i].name != IndexName && r[i] in listing
    ensures forall e :: e in listing && IsJsonName(e.name) && e.name != IndexName ==> e in r
  {
    if listing == [] then []
    else
      var rest := ArtistFiles(listing[1..]);
      assert forall e :: e in listing[1..] ==> e in listing;
      if IsJsonName(listing[0].name) && listing[0].name != IndexName then [listing[0]] + rest else rest
  }

  /* ---------------------------------------------------------------------- */
  /* withVideo                                                               */
  /* ---------------------------------------------------------------------- */

  /** A song whose `youtubeId` is a string of more than five characters. */
  predicate IsVideoSong(s: Value) {
    s.Obj? && "youtubeId" in s.fields && s.fields["youtubeId"].Str? && |s.fields["youtubeId"].s| > 5
  }

  /** A song reading whose `youtubeId` throws. */
  predicate Nullish(s: Value) {
    s.Null? || s.Undefined?
  }

  /**
   * `songs.filter((s) => s.youtubeId && typeof s.youtubeId === "string" &&
   * s.youtubeId.length > 5)`: the video songs, in order; a `null` song makes
   * the filter throw.
   */
  function WithVideo(songs: seq<Value>): (r: Completion<seq<Value>>)
    ensures r.Normal? <==> forall i :: 0 <= i < |songs| ==> !Nullish(songs[i])
    ensures r.Normal? ==> |r.value| <= |songs|
    ensures r.Normal? ==> forall i :: 0 <= i < |r.value| ==> IsVideoSong(r.value[i]) && r.value[i] in songs
    ensures r.Normal? ==> forall s :: s in songs && IsVideoSong(s) ==> s in r.value
  {
    if songs == [] then Normal([])
    else
      var youtubeId :- Field(songs[0], "youtubeId");
      var rest :- WithVideo(songs[1..]);
      assert forall s :: s in songs[1..] ==> s in songs;
      assert forall i :: 1 <= i < |songs| ==> songs[i] == songs[1..][i - 1];
      Normal((if Truthy(youtubeId) && youtubeId.Str? && |youtubeId.s| > 5 then [songs[0]] else []) + rest)
  }

  /* ---------------------------------------------------------------------- */
  /* Sampling                                                                */
  /* ---------------------------------------------------------------------- */

  /** `Math.max(1, Math.floor(k / 5))` */
  function Step(k: nat): (r: nat)
    ensures r >= 1
  {
    if k / MaxVideosPerArtist >= 1 then k / MaxVideosPerArtist else 1
  }

  /** The positions the sampling loop visits: `0, step, 2·step, …` while below `k`, at most five. */
  function Positions(k: nat): (r: seq<nat>)
    ensures |r| == Min(MaxVideosPerArtist, k)
    ensures forall j :: 0 < j < |r| ==> r[j - 1] < r[j]
  {
    seq(Min(MaxVideosPerArtist, k), j => j * Step(k))
  }

  /**
   * There are `min(5, k)` positions, strictly increasing and all below `k`,
   * so they pick distinct songs.
   */
  lemma PositionsFacts(k: nat)
    ensures |Positions(k)| == Min(MaxVideosPerArtist, k)
    ensures forall j :: 0 <= j < |Positions(k)| ==> Positions(k)[j] < k
    ensures forall i, j :: 0 <= i < j < |Positions(k)| ==> Positions(k)[i] < Positions(k)[j]
  {
    var p := Positions(k);
    forall j | 0 <= j < |p| ensures p[j] < k {
      PositionBelow(k, j);
    }
    forall i, j | 0 <= i < j < |p| ensures p[i] < p[j] {
      MulStrict(i, j, Step(k));
    }
  }

  lemma PositionBelow(k: nat, j: nat)
    requires j < Min(MaxVideosPerArtist, k)
    ensures j * Step(k) < k
  {
    if k / MaxVideosPerArtist >= 1 {
      var q := k / MaxVideosPerArtist;
      assert k >= MaxVideosPerArtist * q;
      MulLe(j, MaxVideosPerArtist - 1, q);
    }
  }

  lemma MulLe(a: nat, b: nat, c: nat)
    requires a <= b
    ensures a * c <= b * c
  {
  }

  lemma MulStrict(a: nat, b: nat, c: nat)
    requires a < b && c >= 1
    ensures a * c < b * c
  {
    assert b * c == a * c + (b - a) * c;
  }

  /** One entry of `videos.json`. */
  datatype Video = Video(
    youtubeId: string,
    title: Value,
    slug: Value,
    artist: Value,
    artistSlug: Value,
    album: Value,
    thumbnailUrl: Value)

  /**
   * What every listed video satisfies: an id of more than five characters,
   * a thumbnail that is not empty, and an album that is `null` or truthy.
   */
  predicate VideoValid(v: Video) {
    |v.youtubeId| > MaxVideosPerArtist && Truthy(v.thumbnailUrl) && (v.album.Null? || Truthy(v.album))
  }

  /**
   * `v` is the entry of the video song `s`: the id, title and slug of the
   * song, its album or `null` when that is falsy, and its thumbnail or, when
   * that is falsy, the high-quality thumbnail of the id.
   */
  predicate EntryOf(v: Video, s: Value) {
    && IsVideoSong(s)
    && v.youtubeId == s.fields["youtubeId"].s
    && v.title == Prop(s.fields, "title") && v.slug == Prop(s.fields, "slug")
    && v.album == (if Truthy(Prop(s.fields, "album")) then Prop(s.fields, "album") else Null)
    && v.thumbnailUrl ==
      (if Truthy(Prop(s.fields, "thumbnailUrl")) then Prop(s.fields, "thumbnailUrl")
       else Str(ThumbnailHost + v.youtubeId + "/hqdefault.jpg"))
  }

  /** JavaScript `a || b`. */
  function Or(a: Value, b: Value): (r: Value)
    ensures Truthy(a) ==> r == a
    ensures !Truthy(a) ==> r == b
  {
    if Truthy(a) then a else b
  }

  /**
   * The entry of a video song: its fields as they are, a falsy album as
   * `null`, and a falsy thumbnail replaced by the high-quality thumbnail of
   * the id (not percent-encoded here).
   */
  function VideoOf(s: Value, name: Value, artistSlug: Value): (r: Video)
    requires IsVideoSong(s)
    ensures VideoValid(r)
    ensures r.youtubeId == s.fields["youtubeId"].s
    ensures r.title == Prop(s.fields, "title") && r.slug == Prop(s.fields, "slug")
    ensures r.album == (if Truthy(Prop(s.fields, "album")) then Prop(s.fields, "album") else Null)
    ensures r.thumbnailUrl ==
      (if Truthy(Prop(s.fields, "thumbnailUrl")) then Prop(s.fields, "thumbnailUrl")
       else Str(ThumbnailHost + r.youtubeId + "/hqdefault.jpg"))
    ensures r.artist == name && r.artistSlug == artistSlug
    ensures EntryOf(r, s)
  {
    var id := s.fields["youtubeId"].s;
    Video(id, Prop(s.fields, "title"), Prop(s.fields, "slug"), name, artistSlug,
      Or(Prop(s.fields, "album"), Null),
      Or(Prop(s.fields, "thumbnailUrl"), Str(ThumbnailHost + id + "/hqdefault.jpg")))
  }

  /** The videos the sampling loop picks from `withVideo`. */
  function Sample(withVideo: seq<Value>, name: Value, artistSlug: Value): (r: seq<Video>)
    requires forall i :: 0 <= i < |withVideo| ==> IsVideoSong(withVideo[i])
    ensures |r| == Min(MaxVideosPerArtist, |withVideo|)
  {
    PositionsFacts(|withVideo|);
    var positions := Positions(|withVideo|);
    seq(|positions|, j requires 0 <= j < |positions| => VideoOf(withVideo[positions[j]], name, artistSlug))
  }

  /**
   * Every sampled video is valid, names the artist it was sampled for, and
   * is the entry of the song at its stride position.
   */
  lemma SampleValid(withVideo: seq<Value>, name: Value, artistSlug: Value)
    requires forall i :: 0 <= i < |withVideo| ==> IsVideoSong(withVideo[i])
    ensures var r := Sample(withVideo, name, artistSlug);
      forall j :: 0 <= j < |r| ==> VideoValid(r[j]) && r[j].artist == name && r[j].artistSlug == artistSlug
    ensures var r := Sample(withVideo, name, artistSlug);
      forall j :: 0 <= j < |r| ==> Positions(|withVideo|)[j] < |withVideo| && EntryOf(r[j], withVideo[Positions(|withVideo|)[j]])
  {
    PositionsFacts(|withVideo|);
  }

  /**
   * The loop `for (i = 0; i < withVideo.length && picked.length < 5; i +=
   * step)` pushing the entry of `withVideo[i]`.
   */
  method PickVideos(withVideo: seq<Value>, name: Value, artistSlug: Value) returns (picked: seq<Video>)
    requires forall i :: 0 <= i < |withVideo| ==> IsVideoSong(withVideo[i])
    ensures picked == Sample(withVideo, name, artistSlug)
  {
    var k := |withVideo|;
    var step := Step(k);
    ghost var positions := Positions(k);
    ghost var sample := Sample(withVideo, name, artistSlug);
    PositionsFacts(k);
    picked := [];
    var i := 0;
    while i < k && |picked| < MaxVideosPerArtist
      invariant |picked| <= |positions|
      invariant |picked| < |positions| ==> i == positions[|picked|]
      invariant |picked| == |positions| ==> |picked| == MaxVideosPerArtist || i >= k
      invariant picked == sample[..|picked|]
      decreases MaxVideosPerArtist - |picked|
    {
      PositionNext(k, |picked|);
      assert sample[|picked|] == VideoOf(withVideo[i], name, artistSlug);
      assert sample[..|picked| + 1] == sample[..|picked|] + [sample[|picked|]];
      picked := picked + [VideoOf(withVideo[i], name, artistSlug)];
      i := i + step;
    }
    assert sample[..|picked|] == sample;
  }

  /**
   * The loop's `i += step` moves from one position to the next, and past
   * the last one it either has five videos or has run off the end.
   */
  lemma PositionNext(k: nat, j: nat)
    requires j < |Positions(k)|
    ensures j + 1 < |Positions(k)| ==> Positions(k)[j + 1] == Positions(k)[j] + Step(k)
    ensures j + 1 == |Positions(k)| ==> j + 1 == MaxVideosPerArtist || Positions(k)[j] + Step(k) >= k
  {
    assert (j + 1) * Step(k) == j * Step(k) + Step(k);
    if k < MaxVideosPerArtist {
      assert Step(k) == 1;
    }
  }

  /* ---------------------------------------------------------------------- */
  /* Buckets                                                                 */
  /* ---------------------------------------------------------------------- */

  /** One artist's entry of `artistBuckets`. */
  datatype Bucket = Bucket(artist: Value, artistSlug: Value, videoCount: nat, videos: seq<Video>)

  /**
   * The body of the file loop for one artist file: no bucket for the
   * unknown artist or for fewer than three video songs; a thrown error for
   * a file that cannot be read or parsed, a `null` record, songs that are
   * not an array, or a `null` song.
   */
  function ReadBucket(e: DirEntry): (r: Completion<Option<Bucket>>)
    ensures r.Normal? && r.value.Some? ==> BucketValid(r.value.value)
  {
    var data :- ReadJson(e.node);
    var slug :- Field(data, "slug");
    if slug == Str(UnknownArtistSlug) then Normal(None)
    else
      var songs := Field(data, "songs").value;
      if !songs.Arr? then Thrown
      else
        var withVideo :- WithVideo(songs.items);
        if |withVideo| < MinVideosToQualify then Normal(None)
        else
          var name := Field(data, "name").value;
          SampleValid(withVideo, name, slug);
          Normal(Some(Bucket(name, slug, |withVideo|, Sample(withVideo, name, slug))))
  }

  /** The songs of an artist file: its `songs` array when it has one. */
  function FileSongs(e: DirEntry): seq<Value> {
    if e.node.File? && e.node.content.Json? && e.node.content.value.Obj?
      && "songs" in e.node.content.value.fields && e.node.content.value.fields["songs"].Arr?
    then e.node.content.value.fields["songs"].items
    else []
  }

  /** `v` is the entry of one of `songs`. */
  predicate EntryOfOneOf(v: Video, songs: seq<Value>) {
    exists s :: s in songs && EntryOf(v, s)
  }

  /** Every video of the bucket is the entry of one of the file's songs. */
  predicate BucketFrom(b: Bucket, e: DirEntry) {
    forall j :: 0 <= j < |b.videos| ==> EntryOfOneOf(b.videos[j], FileSongs(e))
  }

  /** A bucket's videos are entries of the songs of the file it was read from. */
  lemma ReadBucketFrom(e: DirEntry)
    requires ReadBucket(e).Normal? && ReadBucket(e).value.Some?
    ensures BucketFrom(ReadBucket(e).value.value, e)
  {
    var data := e.node.content.value;
    var slug := Field(data, "slug").value;
    var songs := Field(data, "songs").value;
    assert data.Obj? && "songs" in data.fields && songs == data.fields["songs"] && songs.Arr?;
    var withVideo := WithVideo(songs.items).value;
    var b := ReadBucket(e).value.value;
    var name := Field(data, "name").value;
    assert b.videos == Sample(withVideo, name, slug);
    SampleValid(withVideo, name, slug);
    forall j | 0 <= j < |b.videos| ensures EntryOfOneOf(b.videos[j], FileSongs(e)) {
      var s := withVideo[Positions(|withVideo|)[j]];
      assert FileSongs(e) == songs.items && s in songs.items;
      assert EntryOf(b.videos[j], s);
    }
  }

  /** `artistBuckets` after the loop over `files`, or `Thrown` when one of them stops the run. */
  function Buckets(files: seq<DirEntry>): (r: Completion<seq<Bucket>>)
    ensures r.Normal? ==> |r.value| <= |files|
  {
    if files == [] then Normal([])
    else
      var earlier :- Buckets(files[..|files| - 1]);
      var bucket :- ReadBucket(files[|files| - 1]);
      Normal(earlier + if bucket.Some? then [bucket.value] else [])
  }

  lemma BucketsStep(files: seq<DirEntry>, i: nat)
    requires i < |files|
    ensures Buckets(files[..i + 1]) ==
      if Buckets(files[..i]).Thrown? || ReadBucket(files[i]).Thrown? then Thrown
      else Normal(Buckets(files[..i]).value + if ReadBucket(files[i]).value.Some? then [ReadBucket(files[i]).value.value] else [])
  {
    assert files[..i + 1][..i] == files[..i];
  }

  /** What every bucket satisfies. */
  predicate BucketValid(b: Bucket) {
    && b.artistSlug != Str(UnknownArtistSlug)
    && b.videoCount >= MinVideosToQualify
    && |b.videos| == Min(MaxVideosPerArtist, b.videoCount)
    && forall j :: 0 <= j < |b.videos| ==> VideoValid(b.videos[j]) && b.videos[j].artist == b.artist && b.videos[j].artistSlug == b.artistSlug
  }

  lemma {:induction false} BucketsValid(files: seq<DirEntry>)
    requires Buckets(files).Normal?
    ensures forall i :: 0 <= i < |Buckets(files).value| ==> BucketValid(Buckets(files).value[i])
  {
    if files != [] {
      BucketsValid(files[..|files| - 1]);
    }
  }

  /** The bucket was read from one of the files. */
  predicate ReadFromOneOf(b: Bucket, files: seq<DirEntry>) {
    exists f :: f in files && BucketFrom(b, f)
  }

  /** Every bucket was read from one of the files. */
  lemma {:induction false} BucketsFrom(files: seq<DirEntry>)
    requires Buckets(files).Normal?
    ensures forall i :: 0 <= i < |Buckets(files).value| ==> ReadFromOneOf(Buckets(files).value[i], files)
  {
    if files != [] {
      var init, last := files[..|files| - 1], files[|files| - 1];
      assert Buckets(init).Normal?;
      BucketsFrom(init);
      var earlier := Buckets(init).value;
      var all := Buckets(files).value;
      forall i | 0 <= i < |all| ensures ReadFromOneOf(all[i], files) {
        if i < |earlier| {
          assert all[i] == earlier[i] && ReadFromOneOf(earlier[i], init);
          var f :| f in init && BucketFrom(earlier[i], f);
          assert f in files;
        } else {
          ReadBucketFrom(last);
          assert BucketFrom(all[i], last);
        }
      }
    }
  }

  /** Once a file stops the run, no later file resumes it. */
  lemma {:induction false} BucketsThrownPrefix(files: seq<DirEntry>, n: nat)
    requires n <= |files| && Buckets(files[..n]).Thrown?
    ensures Buckets(files).Thrown?
  {
    if n < |files| {
      var init := files[..|files| - 1];
      assert init[..n] == files[..n];
      BucketsThrownPrefix(init, n);
    } else {
      assert files[..n] == files;
    }
  }

  /* ---------------------------------------------------------------------- */
  /* videos.json                                                             */
  /* ---------------------------------------------------------------------- */

  datatype VideosDoc = VideosDoc(totalVideos: nat, totalArtists: nat, generatedAt: string, videos: seq<Video>)

  function VideoCount(b: Bucket): int {
    b.videoCount
  }

  /** `(a, b) => b.videoCount - a.videoCount`: more videos first. */
  function MoreFirst(a: int, b: int): bool {
    a >= b
  }

  lemma MoreFirstPreorder()
    ensures TotalPreorder(MoreFirst)
  {
  }

  /** `artistBuckets.flatMap((b) => b.videos)` */
  function Flatten(buckets: seq<Bucket>): (r: seq<Video>)
    ensures forall i, v :: 0 <= i < |buckets| && v in buckets[i].videos ==> v in r
  {
    if buckets == [] then [] else Flatten(buckets[..|buckets| - 1]) + buckets[|buckets| - 1].videos
  }

  /** The number of videos sampled from buckets of these sizes: five, or all when fewer. */
  function SampledCount(buckets: seq<Bucket>): nat {
    if buckets == [] then 0
    else SampledCount(buckets[..|buckets| - 1]) + Min(MaxVideosPerArtist, buckets[|buckets| - 1].videoCount)
  }

  /** `videos.json` for an artist directory listing, or `Thrown`. */
  function VideosOutput(listing: seq<DirEntry>, now: string): (r: Completion<VideosDoc>)
    ensures r.Normal? <==> Buckets(ArtistFiles(listing)).Normal?
    ensures r.Normal? ==> r.value.totalArtists <= |ArtistFiles(listing)| && r.value.totalVideos == |r.value.videos|
  {
    var buckets :- Buckets(ArtistFiles(listing));
    var sorted := SortBy(buckets, VideoCount, MoreFirst);
    var allVideos := Flatten(sorted);
    Normal(VideosDoc(|allVideos|, |sorted|, now, allVideos))
  }

  /** Every flattened video is valid and comes from a bucket it names as its artist. */
  lemma {:induction false} FlattenValid(buckets: seq<Bucket>, v: Video)
    requires forall i :: 0 <= i < |buckets| ==> BucketValid(buckets[i])
    requires v in Flatten(buckets)
    ensures VideoValid(v)
    ensures exists i :: 0 <= i < |buckets| && v in buckets[i].videos && v.artistSlug == buckets[i].artistSlug
  {
    var last := buckets[|buckets| - 1];
    if v in last.videos {
      var j :| 0 <= j < |last.videos| && last.videos[j] == v;
      assert BucketValid(last);
    } else {
      FlattenValid(buckets[..|buckets| - 1], v);
      var i :| 0 <= i < |buckets| - 1 && v in buckets[..|buckets| - 1][i].videos && v.artistSlug == buckets[..|buckets| - 1][i].artistSlug;
      assert buckets[i] == buckets[..|buckets| - 1][i];
    }
  }

  lemma {:induction false} FlattenCount(buckets: seq<Bucket>)
    requires forall i :: 0 <= i < |buckets| ==> BucketValid(buckets[i])
    ensures |Flatten(buckets)| == SampledCount(buckets)
  {
    if buckets != [] {
      FlattenCount(buckets[..|buckets| - 1]);
    }
  }

  /** Every listed video is the entry of a song of one of the artist files. */
  lemma VideosOutputSources(listing: seq<DirEntry>, now: string)
    requires VideosOutput(listing, now).Normal?
    ensures forall v :: v in VideosOutput(listing, now).value.videos ==>
      exists f, s :: f in ArtistFiles(listing) && s in FileSongs(f) && EntryOf(v, s)
  {
    var files := ArtistFiles(listing);
    var buckets := Buckets(files).value;
    var sorted := SortBy(buckets, VideoCount, MoreFirst);
    BucketsValid(files);
    BucketsFrom(files);
    forall i | 0 <= i < |sorted| ensures BucketValid(sorted[i]) && ReadFromOneOf(sorted[i], files) {
      assert sorted[i] in multiset(buckets);
      assert sorted[i] in buckets;
      var k :| 0 <= k < |buckets| && buckets[k] == sorted[i];
    }
    forall v | v in Flatten(sorted) ensures exists f, s :: f in files && s in FileSongs(f) && EntryOf(v, s) {
      FlattenValid(sorted, v);
      var i :| 0 <= i < |sorted| && v in sorted[i].videos && v.artistSlug == sorted[i].artistSlug;
      assert ReadFromOneOf(sorted[i], files);
      var f :| f in files && BucketFrom(sorted[i], f);
      var j :| 0 <= j < |sorted[i].videos| && sorted[i].videos[j] == v;
      assert EntryOfOneOf(sorted[i].videos[j], FileSongs(f));
      var s :| s in FileSongs(f) && EntryOf(sorted[i].videos[j], s);
    }
  }

  /**
   * The artists are ordered by video count, most first, artists with equal
   * counts in the order their files were read; `totalArtists` counts them,
   * none is the unknown artist, and `totalVideos` is the number of videos
   * listed: five per artist, or all of an artist's video songs when fewer;
   * each listed video is the entry of a song of one of the artist files.
   */
  lemma VideosOutputFacts(listing: seq<DirEntry>, now: string, count: int)
    requires VideosOutput(listing, now).Normal?
    ensures var buckets := Buckets(ArtistFiles(listing)).value;
      var sorted := SortBy(buckets, VideoCount, MoreFirst);
      var doc := VideosOutput(listing, now).value;
      && SortedBy(sorted, VideoCount, MoreFirst)
      && multiset(sorted) == multiset(buckets)
      && Tied(sorted, VideoCount, MoreFirst, count) == Tied(buckets, VideoCount, MoreFirst, count)
      && doc.totalArtists == |sorted|
      && (forall i :: 0 <= i < |sorted| ==> BucketValid(sorted[i]))
      && doc.videos == Flatten(sorted)
      && doc.totalVideos == SampledCount(sorted)
      && (forall v :: v in doc.videos ==> VideoValid(v) && v.artistSlug != Str(UnknownArtistSlug))
      && (forall v :: v in doc.videos ==>
            exists f, s :: f in ArtistFiles(listing) && s in FileSongs(f) && EntryOf(v, s))
  {
    var buckets := Buckets(ArtistFiles(listing)).value;
    var sorted := SortBy(buckets, VideoCount, MoreFirst);
    MoreFirstPreorder();
    SortBySorted(buckets, VideoCount, MoreFirst);
    SortByStable(buckets, VideoCount, MoreFirst, count);
    BucketsValid(ArtistFiles(listing));
    forall i | 0 <= i < |sorted| ensures BucketValid(sorted[i]) {
      assert sorted[i] in multiset(buckets);
    }
    FlattenCount(sorted);
    forall v | v in Flatten(sorted) ensures VideoValid(v) && v.artistSlug != Str(UnknownArtistSlug) {
      FlattenValid(sorted, v);
    }
    VideosOutputSources(listing, now);
  }

  /* ---------------------------------------------------------------------- */
  /* The run                                                                 */
  /* ---------------------------------------------------------------------- */

  /**
   * The script: `Thrown` when the directory cannot be listed or a file
   * stops the run; otherwise `videos.json` as `VideosOutput` describes it.
   */
  method GenerateVideosPage(listing: Option<seq<DirEntry>>, now: string) returns (r: Completion<VideosDoc>)
    ensures listing.None? ==> r.Thrown?
    ensures listing.Some? ==> r == VideosOutput(listing.value, now)
  {
    if listing.None? {
      return Thrown;
    }
    var files := ArtistFiles(listing.value);
    var artistBuckets: seq<Bucket> := [];
    for i := 0 to |files|
      invariant Buckets(files[..i]) == Normal(artistBuckets)
    {
      BucketsStep(files, i);
      ghost var before := artistBuckets;
      var bucket := ReadBucket(files[i]);
      if bucket.Thrown? {
        BucketsThrownPrefix(files, i + 1);
        return Thrown;
      }
      if bucket.value.Some? {
        artistBuckets := artistBuckets + [bucket.value.value];
      }
      assert Buckets(files[..i]).value == before;
      assert artistBuckets == before + if bucket.value.Some? then [bucket.value.value] else [];
      assert Buckets(files[..i + 1]).value == before + if bucket.value.Some? then [bucket.value.value] else [];
    }
    assert files[..|files|] == files;
    artistBuckets := SortBy(artistBuckets, VideoCount, MoreFirst);
    var allVideos := Flatten(artistBuckets);
    r := Normal(VideosDoc(|allVideos|, |artistBuckets|, now, allVideos));
  }
}
