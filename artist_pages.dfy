/**
 * The artist-page generator. It reads every song post, credits each song to
 * every author named in its `author` field (grouped by the author's slug,
 * the first spelling met naming the artist), then replaces every `.json`
 * file of the output directory by one `{slug}.json` per artist, in name
 * order, and an `index.json` listing the artists.
 *
 * The song-post directory is a listing (`None` when it cannot be read), the
 * output directory a map from file names to what they hold, the clock the
 * string `now`, and collation the total preorder `collate`.
 */
module ArtistPages {
  import opened JsValue
  import opened JsString
  import opened Sorting
  import opened Files
  import ScriptHelpers
  import SongPosts
  import HomePages

  const PreviewMax: int := 180
  const IndexName: string := "index.json"

  /* ---------------------------------------------------------------------- */
  /* songData                                                                */
  /* ---------------------------------------------------------------------- */

  /** What an artist page shows of a song. */
  datatype ArtistSong = ArtistSong(
    slug: string,
    title: string,
    author: string,
    album: Option<string>,
    metaDescription: string,
    lyricsPreview: string,
    youtubeId: Option<string>,
    thumbnailUrl: Option<string>,
    generatedAt: Option<string>)

  function SongTitle(s: ArtistSong): string {
    s.title
  }

  /**
   * The body of the loop up to `songData`: `None` when the trimmed slug or
   * title is empty (the `continue`), a thrown error when `raw` is `null` or
   * a field it trims is a truthy non-string. The author and the meta
   * description are only read once slug and title are known to be there.
   */
  function ExtractSongData(raw: Value): (r: Completion<Option<ArtistSong>>)
    ensures r.Thrown? <==>
      || raw.Null? || raw.Undefined?
      || NoTrim(SongPosts.RawField(raw, "slug")) || NoTrim(SongPosts.RawField(raw, "title"))
      || (&& !Blank(SongPosts.RawField(raw, "slug")) && !Blank(SongPosts.RawField(raw, "title"))
          && (NoTrim(SongPosts.RawField(raw, "author")) || NoTrim(SongPosts.RawField(raw, "meta_description"))))
    ensures r == Normal(None) <==>
      && !raw.Null? && !raw.Undefined?
      && !NoTrim(SongPosts.RawField(raw, "slug")) && !NoTrim(SongPosts.RawField(raw, "title"))
      && (Blank(SongPosts.RawField(raw, "slug")) || Blank(SongPosts.RawField(raw, "title")))
    ensures r.Normal? && r.value.Some? ==>
      var s := r.value.value;
      s.slug != [] && IsTrimmed(s.slug) && s.title != [] && IsTrimmed(s.title) && IsTrimmed(s.author)
  {
    if raw.Null? || raw.Undefined? then Thrown
    else
      var songSlug :- TrimOr(SongPosts.RawField(raw, "slug"), "");
      var title :- TrimOr(SongPosts.RawField(raw, "title"), "");
      if songSlug == [] || title == [] then Normal(None)
      else
        var authorRaw :- TrimOr(SongPosts.RawField(raw, "author"), SongPosts.UnknownAuthor);
        var youtubeId := ScriptHelpers.TrimmedString(SongPosts.RawField(raw, "youtube_id"));
        var metaDescription :- TrimOr(SongPosts.RawField(raw, "meta_description"), "");
        Normal(Some(ArtistSong(
          songSlug,
          title,
          authorRaw,
          ScriptHelpers.NonBlankString(SongPosts.RawField(raw, "album")),
          metaDescription,
          ScriptHelpers.LyricsPreview(SongPosts.RawField(raw, "lyrics"), PreviewMax),
          if youtubeId.Some? && youtubeId.value != [] then youtubeId else None,
          ScriptHelpers.BuildThumbnailUrl(youtubeId),
          ScriptHelpers.TrimmedString(SongPosts.RawField(raw, "generated_at")))))
  }

  /**
   * An artist page describes a song as the home page does, except that its
   * preview is cut at 180 characters instead of 220: the two generators
   * keep, skip and fail on the same records.
   */
  lemma SongDataAgreesWithHome(raw: Value)
    ensures ExtractSongData(raw).Thrown? <==> HomePages.ExtractHomeFields(raw).Thrown?
    ensures ExtractSongData(raw) == Normal(None) <==> HomePages.ExtractHomeFields(raw) == Normal(None)
    ensures ExtractSongData(raw).Normal? && ExtractSongData(raw).value.Some? ==>
      var s := ExtractSongData(raw).value.value;
      var h := HomePages.ExtractHomeFields(raw).value.value;
      s == ArtistSong(h.slug, h.title, h.author, h.album, h.metaDescription,
        ScriptHelpers.LyricsPreview(SongPosts.RawField(raw, "lyrics"), PreviewMax),
        h.youtubeId, h.thumbnailUrl, h.generatedAt)
  {
    var r := ExtractSongData(raw);
    var h := HomePages.ExtractHomeFields(raw);
    assert r.Thrown? <==> h.Thrown?;
    assert r == Normal(None) <==> h == Normal(None);
    if r.Normal? && r.value.Some? {
      SongDataFields(raw);
    }
  }

  /** The fields both generators read from a record they keep. */
  lemma SongDataFields(raw: Value)
    requires ExtractSongData(raw).Normal? && ExtractSongData(raw).value.Some?
    ensures HomePages.ExtractHomeFields(raw).Normal? && HomePages.ExtractHomeFields(raw).value.Some?
    ensures var s := ExtractSongData(raw).value.value;
      var h := HomePages.ExtractHomeFields(raw).value.value;
      s == ArtistSong(h.slug, h.title, h.author, h.album, h.metaDescription,
        ScriptHelpers.LyricsPreview(SongPosts.RawField(raw, "lyrics"), PreviewMax),
        h.youtubeId, h.thumbnailUrl, h.generatedAt)
  {
    var r := ExtractSongData(raw);
    var slug := TrimOr(SongPosts.RawField(raw, "slug"), "");
    var title := TrimOr(SongPosts.RawField(raw, "title"), "");
    var author := TrimOr(SongPosts.RawField(raw, "author"), SongPosts.UnknownAuthor);
    var youtubeId := ScriptHelpers.TrimmedString(SongPosts.RawField(raw, "youtube_id"));
    var metaDescription := TrimOr(SongPosts.RawField(raw, "meta_description"), "");
    assert slug.Normal? && title.Normal? && author.Normal? && metaDescription.Normal?;
    var album := ScriptHelpers.NonBlankString(SongPosts.RawField(raw, "album"));
    var id := if youtubeId.Some? && youtubeId.value != [] then youtubeId else None;
    var thumbnail := ScriptHelpers.BuildThumbnailUrl(youtubeId);
    var generatedAt := ScriptHelpers.TrimmedString(SongPosts.RawField(raw, "generated_at"));
    var s := ArtistSong(slug.value, title.value, author.value, album, metaDescription.value,
      ScriptHelpers.LyricsPreview(SongPosts.RawField(raw, "lyrics"), PreviewMax), id, thumbnail, generatedAt);
    assert r == Normal(Some(s));
    var h := HomePages.HomeSong(slug.value, title.value, author.value,
      ScriptHelpers.SplitAuthors(Str(author.value)), album, metaDescription.value,
      ScriptHelpers.LyricsPreview(SongPosts.RawField(raw, "lyrics"), HomePages.PreviewMax), id, thumbnail, generatedAt);
    assert HomePages.ExtractHomeFields(raw) == Normal(Some(h));
  }

  /** The song a file contributes: none when it cannot be read or parsed, throws, or lacks slug or title. */
  function SongOfFile(e: DirEntry): Option<ArtistSong> {
    match ReadJson(e.node)
    case Thrown => None
    case Normal(raw) =>
      match ExtractSongData(raw)
      case Normal(Some(s)) => Some(s)
      case _ => None
  }

  /** `skipped` after the loop: the files that contribute no song. */
  function Skipped(files: seq<DirEntry>): (r: nat)
    ensures r <= |files|
  {
    if files == [] then 0
    else Skipped(files[..|files| - 1]) + if SongOfFile(files[|files| - 1]).None? then 1 else 0
  }

  /** The songs the files contribute, in file order. */
  function Contributed(files: seq<DirEntry>): seq<ArtistSong> {
    if files == [] then []
    else
      var s := SongOfFile(files[|files| - 1]);
      Contributed(files[..|files| - 1]) + if s.Some? then [s.value] else []
  }

  /** Every file is either skipped or contributes one song. */
  lemma {:induction false} SkippedComplement(files: seq<DirEntry>)
    ensures Skipped(files) + |Contributed(files)| == |files|
  {
    if files != [] {
      SkippedComplement(files[..|files| - 1]);
    }
  }

  /* ---------------------------------------------------------------------- */
  /* Crediting songs to artists                                              */
  /* ---------------------------------------------------------------------- */

  /**
   * One author name of one song, with the slug the name gets (the script's
   * `slugify` has the same text as the library's).
   */
  datatype Credit = Credit(name: string, slug: string, song: ArtistSong)

  /** The credits of `song` to each of `names`, in order. */
  function NameCredits(names: seq<string>, song: ArtistSong): (r: seq<Credit>)
    ensures |r| == |names|
  {
    CreditsWith(names, song, SongPosts.Slugify)
  }

  /** The credits of `song` to each of `names`, each with the slug `slugOf` gives it. */
  function CreditsWith(names: seq<string>, song: ArtistSong, slugOf: string -> string): (r: seq<Credit>)
    ensures |r| == |names|
  {
    if names == [] then []
    else CreditsWith(names[..|names| - 1], song, slugOf) + [Credit(names[|names| - 1], slugOf(names[|names| - 1]), song)]
  }

  /** Every credit carries the slug of its name. */
  ghost predicate SlugsOfNames(credits: seq<Credit>) {
    forall i :: 0 <= i < |credits| ==> credits[i].slug == SongPosts.Slugify(credits[i].name)
  }

  /** The `i`-th credit is the `i`-th name's, with that name's slug. */
  lemma {:induction false} CreditsWithAt(names: seq<string>, song: ArtistSong, slugOf: string -> string, i: nat)
    requires i < |names|
    ensures CreditsWith(names, song, slugOf)[i] == Credit(names[i], slugOf(names[i]), song)
  {
    var init := names[..|names| - 1];
    if i < |init| {
      CreditsWithAt(init, song, slugOf, i);
      assert names[i] == init[i];
    }
  }

  lemma NameCreditsSlugs(names: seq<string>, song: ArtistSong)
    ensures SlugsOfNames(NameCredits(names, song))
  {
    var credits := NameCredits(names, song);
    forall i | 0 <= i < |credits| ensures credits[i].slug == SongPosts.Slugify(credits[i].name) {
      CreditsWithAt(names, song, SongPosts.Slugify, i);
      assert credits[i] == Credit(names[i], SongPosts.Slugify(names[i]), song);
    }
  }

  lemma {:induction false} CreditsSlugsOfNames(files: seq<DirEntry>)
    ensures SlugsOfNames(Credits(files))
  {
    if files != [] {
      CreditsSlugsOfNames(files[..|files| - 1]);
      var e := files[|files| - 1];
      if SongOfFile(e).Some? {
        NameCreditsSlugs(ScriptHelpers.SplitAuthors(Str(SongOfFile(e).value.author)), SongOfFile(e).value);
      }
    }
  }

  /** The credits a file contributes: one per name of `splitAuthors(authorRaw)`. */
  function FileCredits(e: DirEntry): seq<Credit> {
    match SongOfFile(e)
    case None => []
    case Some(s) => NameCredits(ScriptHelpers.SplitAuthors(Str(s.author)), s)
  }

  /** The credits of `files`, in file order. */
  function Credits(files: seq<DirEntry>): seq<Credit> {
    if files == [] then [] else Credits(files[..|files| - 1]) + FileCredits(files[|files| - 1])
  }

  /** Reference definition: the songs credited under `slug`, once per crediting name, in order. */
  function SongsFor(credits: seq<Credit>, slug: string): seq<ArtistSong> {
    if credits == [] then []
    else
      var c := credits[|credits| - 1];
      SongsFor(credits[..|credits| - 1], slug) + if c.slug == slug then [c.song] else []
  }

  /** Reference definition: the first name credited under `slug`. */
  function FirstName(credits: seq<Credit>, slug: string): Option<string> {
    if credits == [] then None
    else
      var c := credits[|credits| - 1];
      var earlier := FirstName(credits[..|credits| - 1], slug);
      if earlier.Some? then earlier else if c.slug == slug then Some(c.name) else None
  }

  /** A slug has a first name exactly when some song is credited under it. */
  lemma {:induction false} FirstNameSongs(credits: seq<Credit>, slug: string)
    ensures FirstName(credits, slug).None? <==> SongsFor(credits, slug) == []
  {
    if credits != [] {
      FirstNameSongs(credits[..|credits| - 1], slug);
    }
  }

  /** The first name of a slug is a name with that slug. */
  lemma {:induction false} FirstNameSlug(credits: seq<Credit>, slug: string)
    requires SlugsOfNames(credits) && FirstName(credits, slug).Some?
    ensures SongPosts.Slugify(FirstName(credits, slug).value) == slug
  {
    var init := credits[..|credits| - 1];
    if FirstName(init, slug).Some? {
      assert SlugsOfNames(init) by {
        forall i | 0 <= i < |init| ensures init[i] == credits[i] { }
      }
      FirstNameSlug(init, slug);
    }
  }

  /** An artist as the script's `artistMap` holds it. */
  datatype Artist = Artist(name: string, slug: string, songs: seq<ArtistSong>)

  function ArtistName(a: Artist): string {
    a.name
  }

  /** A JavaScript `Map` from slugs: its entries and the order their keys were first set. */
  datatype ArtistMap = ArtistMap(entries: map<string, Artist>, order: seq<string>)

  /** The order lists every key once, and each artist sits under its own slug. */
  ghost predicate MapValid(m: ArtistMap) {
    && (forall i, j :: 0 <= i < j < |m.order| ==> m.order[i] != m.order[j])
    && (forall s :: s in m.entries <==> s in m.order)
    && (forall s :: s in m.entries ==> s != [] && m.entries[s].slug == s)
  }

  /**
   * One turn of the inner loop: nothing for an empty slug; otherwise a new
   * artist under the slug, named by this credit, unless one is there, and
   * the song pushed onto that artist's songs.
   */
  function AddCredit(m: ArtistMap, c: Credit): (r: ArtistMap)
    ensures m.order <= r.order && |r.order| <= |m.order| + 1
    ensures forall s :: s in m.entries ==> s in r.entries
  {
    var slug := c.slug;
    if slug == [] then m
    else
      var m' := if slug in m.entries then m else ArtistMap(m.entries[slug := Artist(c.name, slug, [])], m.order + [slug]);
      var a := m'.entries[slug];
      m'.(entries := m'.entries[slug := a.(songs := a.songs + [c.song])])
  }

  /** `m` once every credit of `credits` is added, in order. */
  function AddAll(m: ArtistMap, credits: seq<Credit>): (r: ArtistMap)
    ensures m.order <= r.order && |r.order| <= |m.order| + |credits|
  {
    if credits == [] then m
    else AddCredit(AddAll(m, credits[..|credits| - 1]), credits[|credits| - 1])
  }

  /** `artistMap` once every credit of `credits` is added. */
  function Group(credits: seq<Credit>): (r: ArtistMap)
    ensures |r.order| <= |credits|
  {
    AddAll(ArtistMap(map[], []), credits)
  }

  lemma {:induction false} AddAllAppend(m: ArtistMap, a: seq<Credit>, b: seq<Credit>)
    ensures AddAll(m, a + b) == AddAll(AddAll(m, a), b)
  {
    if b == [] {
      assert a + b == a;
    } else {
      AddAllAppend(m, a, b[..|b| - 1]);
      assert (a + b)[..|a + b| - 1] == a + b[..|b| - 1];
    }
  }

  lemma AddCreditValid(m: ArtistMap, c: Credit)
    requires MapValid(m)
    ensures MapValid(AddCredit(m, c))
    ensures forall s :: s in AddCredit(m, c).entries <==> s in m.entries || (s == c.slug && s != [])
  {
  }

  lemma AddCreditEntries(m: ArtistMap, c: Credit, s: string)
    requires MapValid(m) && s in AddCredit(m, c).entries
    ensures AddCredit(m, c).entries[s] ==
      if s != c.slug then m.entries[s]
      else if s in m.entries then m.entries[s].(songs := m.entries[s].songs + [c.song])
      else Artist(c.name, s, [c.song])
  {
    if s == c.slug && s !in m.entries {
      assert [] + [c.song] == [c.song];
    }
  }

  /**
   * The artists are exactly the non-empty slugs some song is credited
   * under; each is named by the first name credited under its slug and
   * holds every song credited under it, once per crediting name, in file
   * order.
   */
  lemma {:induction false} GroupSpec(credits: seq<Credit>)
    ensures MapValid(Group(credits))
    ensures forall s :: s in Group(credits).entries <==> s != [] && SongsFor(credits, s) != []
    ensures forall s :: s in Group(credits).entries ==>
      FirstName(credits, s).Some? &&
      Group(credits).entries[s] == Artist(FirstName(credits, s).value, s, SongsFor(credits, s))
  {
    if credits != [] {
      var init, c := credits[..|credits| - 1], credits[|credits| - 1];
      GroupSpec(init);
      var m := Group(init);
      AddCreditValid(m, c);
      forall s ensures s in Group(credits).entries <==> s != [] && SongsFor(credits, s) != [] {
        FirstNameSongs(init, s);
      }
      forall s | s in Group(credits).entries
        ensures FirstName(credits, s).Some?
        ensures Group(credits).entries[s] == Artist(FirstName(credits, s).value, s, SongsFor(credits, s))
      {
        AddCreditEntries(m, c, s);
        FirstNameSongs(init, s);
      }
    }
  }

  /* ---------------------------------------------------------------------- */
  /* Reading and grouping                                                    */
  /* ---------------------------------------------------------------------- */

  lemma FileStep(files: seq<DirEntry>, i: nat)
    requires i < |files|
    ensures Credits(files[..i + 1]) == Credits(files[..i]) + FileCredits(files[i])
    ensures Skipped(files[..i + 1]) == Skipped(files[..i]) + if SongOfFile(files[i]).None? then 1 else 0
  {
    assert files[..i + 1][..i] == files[..i];
  }

  /** The inner loop: the song pushed onto the artist of each of its authors. */
  method CreditSong(m: ArtistMap, authors: seq<string>, song: ArtistSong) returns (artistMap: ArtistMap)
    ensures artistMap == AddAll(m, NameCredits(authors, song))
  {
    artistMap := m;
    for j := 0 to |authors|
      invariant artistMap == AddAll(m, NameCredits(authors[..j], song))
    {
      var artistSlug := SongPosts.Slugify(authors[j]);
      CreditStep(m, authors, song, j);
      ghost var before := artistMap;
      if artistSlug == [] {
        continue;
      }
      if artistSlug !in artistMap.entries {
        artistMap := ArtistMap(artistMap.entries[artistSlug := Artist(authors[j], artistSlug, [])], artistMap.order + [artistSlug]);
      }
      var artist := artistMap.entries[artistSlug];
      artistMap := artistMap.(entries := artistMap.entries[artistSlug := artist.(songs := artist.songs + [song])]);
      assert artistMap == AddCredit(before, Credit(authors[j], artistSlug, song));
    }
    assert authors[..|authors|] == authors;
  }

  lemma CreditStep(m: ArtistMap, authors: seq<string>, song: ArtistSong, j: nat)
    requires j < |authors|
    ensures AddAll(m, NameCredits(authors[..j + 1], song))
      == AddCredit(AddAll(m, NameCredits(authors[..j], song)), Credit(authors[j], SongPosts.Slugify(authors[j]), song))
  {
    assert authors[..j + 1][..j] == authors[..j];
    var credits := NameCredits(authors[..j + 1], song);
    assert credits[..|credits| - 1] == NameCredits(authors[..j], song);
  }

  /**
   * The loop over the sorted file names: every readable song is credited to
   * each of its authors, and `skipped` counts the files that yield no song.
   */
  method GroupArtists(files: seq<DirEntry>) returns (artistMap: ArtistMap, skipped: nat)
    ensures artistMap == Group(Credits(files))
    ensures skipped == Skipped(files)
  {
    artistMap := ArtistMap(map[], []);
    skipped := 0;
    for i := 0 to |files|
      invariant artistMap == Group(Credits(files[..i]))
      invariant skipped == Skipped(files[..i])
    {
      FileStep(files, i);
      var content := ReadJson(files[i].node);
      var songData := if content.Normal? then ExtractSongData(content.value) else Thrown;
      assert SongOfFile(files[i]) == if songData.Normal? && songData.value.Some? then Some(songData.value.value) else None;
      if songData.Thrown? || songData.value.None? {
        assert FileCredits(files[i]) == [];
        assert Credits(files[..i + 1]) == Credits(files[..i]);
        skipped := skipped + 1;
        continue;
      }
      var song := songData.value.value;
      assert FileCredits(files[i]) == NameCredits(ScriptHelpers.SplitAuthors(Str(song.author)), song);
      AddAllAppend(ArtistMap(map[], []), Credits(files[..i]), FileCredits(files[i]));
      artistMap := CreditSong(artistMap, ScriptHelpers.SplitAuthors(Str(song.author)), song);
    }
    assert files[..|files|] == files;
  }

  /* ---------------------------------------------------------------------- */
  /* The artists, in name order                                              */
  /* ---------------------------------------------------------------------- */

  /** `Array.from(artistMap.values())`: the artists in the order their slugs were first set. */
  function Values(m: ArtistMap): seq<Artist>
    requires MapValid(m)
  {
    seq(|m.order|, i requires 0 <= i < |m.order| => m.entries[m.order[i]])
  }

  predicate UniqueSlugs(artists: seq<Artist>) {
    forall i, j :: 0 <= i < j < |artists| ==> artists[i].slug != artists[j].slug
  }

  /** The values are the map's artists, each once. */
  lemma ValuesFacts(m: ArtistMap)
    requires MapValid(m)
    ensures UniqueSlugs(Values(m))
    ensures forall a :: a in Values(m) ==> a.slug in m.entries && m.entries[a.slug] == a
    ensures forall s :: s in m.entries ==> m.entries[s] in Values(m)
  {
    var v := Values(m);
    forall s | s in m.entries ensures m.entries[s] in v {
      var i :| 0 <= i < |m.order| && m.order[i] == s;
      assert v[i] == m.entries[s];
    }
  }

  /** Reordering keeps slugs unique. */
  lemma UniqueSlugsPermutation(s: seq<Artist>, t: seq<Artist>)
    requires UniqueSlugs(s) && multiset(s) == multiset(t)
    ensures UniqueSlugs(t)
  {
    forall i, j | 0 <= i < j < |t| ensures t[i].slug != t[j].slug {
      if t[i].slug == t[j].slug {
        assert t[i] in multiset(s) && t[j] in multiset(s);
        var a :| 0 <= a < |s| && s[a] == t[i];
        var b :| 0 <= b < |s| && s[b] == t[j];
        assert a == b;
        CountAtLeastTwo(t, i, j);
        CountAtMostOne(s, t[i]);
        assert false;
      }
    }
  }

  lemma CountAtLeastTwo(t: seq<Artist>, i: nat, j: nat)
    requires i < j < |t| && t[i] == t[j]
    ensures multiset(t)[t[i]] >= 2
  {
    assert t == t[..j] + [t[j]] + t[j + 1..];
    assert t[..j][i] == t[i];
  }

  lemma {:induction false} CountAtMostOne(s: seq<Artist>, x: Artist)
    requires UniqueSlugs(s)
    ensures multiset(s)[x] <= 1
  {
    if s != [] {
      var init := s[..|s| - 1];
      assert s == init + [s[|s| - 1]];
      assert UniqueSlugs(init);
      CountAtMostOne(init, x);
      if s[|s| - 1] == x {
        assert x !in init;
      }
    }
  }

  /* ---------------------------------------------------------------------- */
  /* One artist file                                                         */
  /* ---------------------------------------------------------------------- */

  /** `{slug}.json` */
  datatype ArtistPage = ArtistPage(
    name: string,
    slug: string,
    songCount: nat,
    thumbnailUrl: Option<string>,
    songs: seq<ArtistSong>)

  /** A truthy `thumbnailUrl`. */
  predicate HasThumbnail(s: ArtistSong) {
    s.thumbnailUrl.Some? && s.thumbnailUrl.value != []
  }

  /** `songs.find((s) => s.thumbnailUrl)` */
  function FindWithThumbnail(songs: seq<ArtistSong>): (r: Option<ArtistSong>)
    ensures r.None? <==> forall i :: 0 <= i < |songs| ==> !HasThumbnail(songs[i])
    ensures r.Some? ==> HasThumbnail(r.value)
  {
    if songs == [] then None
    else if HasThumbnail(songs[0]) then Some(songs[0])
    else
      assert forall i :: 1 <= i < |songs| ==> songs[i] == songs[1..][i - 1];
      FindWithThumbnail(songs[1..])
  }

  /**
   * `(songs.find((s) => s.thumbnailUrl) || songs[0])?.thumbnailUrl || null`:
   * no thumbnail exactly when no song has one.
   */
  function RepresentativeThumbnail(songs: seq<ArtistSong>): (r: Option<string>)
    ensures r.None? <==> forall i :: 0 <= i < |songs| ==> !HasThumbnail(songs[i])
    ensures r.Some? ==> r.value != []
  {
    var representative := match FindWithThumbnail(songs)
      case Some(s) => Some(s)
      case None => if songs == [] then None else Some(songs[0]);
    if representative.Some? && HasThumbnail(representative.value) then representative.value.thumbnailUrl else None
  }

  /** The thumbnail is that of the first song that has one. */
  lemma {:induction false} RepresentativeIsFirst(songs: seq<ArtistSong>, k: nat)
    requires k < |songs| && HasThumbnail(songs[k])
    requires forall j :: 0 <= j < k ==> !HasThumbnail(songs[j])
    ensures RepresentativeThumbnail(songs) == songs[k].thumbnailUrl
  {
    FindFirst(songs, k);
  }

  lemma {:induction false} FindFirst(songs: seq<ArtistSong>, k: nat)
    requires k < |songs| && HasThumbnail(songs[k])
    requires forall j :: 0 <= j < k ==> !HasThumbnail(songs[j])
    ensures FindWithThumbnail(songs) == Some(songs[k])
  {
    if k > 0 {
      assert songs[1..][k - 1] == songs[k];
      forall j | 0 <= j < k - 1 ensures !HasThumbnail(songs[1..][j]) {
        assert songs[1..][j] == songs[j + 1];
      }
      FindFirst(songs[1..], k - 1);
    }
  }

  /** Reordering the songs does not change whether one has a thumbnail. */
  lemma NoThumbnailPermutation(xs: seq<ArtistSong>, ys: seq<ArtistSong>)
    requires multiset(xs) == multiset(ys)
    ensures (forall i :: 0 <= i < |xs| ==> !HasThumbnail(xs[i])) <==> (forall i :: 0 <= i < |ys| ==> !HasThumbnail(ys[i]))
  {
    forall i | 0 <= i < |xs| ensures xs[i] in ys {
      assert xs[i] in multiset(ys);
    }
    forall i | 0 <= i < |ys| ensures ys[i] in xs {
      assert ys[i] in multiset(xs);
    }
  }

  /** An artist's file: its songs sorted by title, counted, and a representative thumbnail. */
  function PageOf(a: Artist, collate: (string, string) -> bool): (r: ArtistPage)
    ensures r.name == a.name && r.slug == a.slug && r.songCount == |a.songs|
    ensures multiset(r.songs) == multiset(a.songs)
    ensures r.thumbnailUrl.None? <==> forall i :: 0 <= i < |a.songs| ==> !HasThumbnail(a.songs[i])
  {
    var songs := SortBy(a.songs, SongTitle, collate);
    NoThumbnailPermutation(songs, a.songs);
    ArtistPage(a.name, a.slug, |songs|, RepresentativeThumbnail(songs), songs)
  }

  /* ---------------------------------------------------------------------- */
  /* index.json                                                              */
  /* ---------------------------------------------------------------------- */

  datatype ArtistSummary = ArtistSummary(name: string, slug: string, songCount: nat, thumbnailUrl: Option<string>)

  datatype ArtistIndex = ArtistIndex(totalArtists: nat, generatedAt: string, artists: seq<ArtistSummary>)

  /** An entry of `index.json`, computed again from the artist's (by now sorted) songs. */
  function Summary(p: ArtistPage): (r: ArtistSummary)
    ensures r.name == p.name && r.slug == p.slug && r.songCount == |p.songs|
    ensures r.thumbnailUrl.None? <==> forall i :: 0 <= i < |p.songs| ==> !HasThumbnail(p.songs[i])
  {
    ArtistSummary(p.name, p.slug, |p.songs|, RepresentativeThumbnail(p.songs))
  }

  function Summaries(pages: seq<ArtistPage>): (r: seq<ArtistSummary>)
    ensures |r| == |pages|
  {
    seq(|pages|, i requires 0 <= i < |pages| => Summary(pages[i]))
  }

  /** Each entry of the index repeats what its artist's file says. */
  lemma SummariesMatchPages(artists: seq<Artist>, collate: (string, string) -> bool)
    ensures var pages := PagesOf(artists, collate);
      forall i :: 0 <= i < |pages| ==>
        Summaries(pages)[i] == ArtistSummary(pages[i].name, pages[i].slug, pages[i].songCount, pages[i].thumbnailUrl)
  {
    var pages := PagesOf(artists, collate);
    forall i | 0 <= i < |pages|
      ensures Summaries(pages)[i] == ArtistSummary(pages[i].name, pages[i].slug, pages[i].songCount, pages[i].thumbnailUrl)
    {
      PagesOfAt(artists, collate, i);
    }
  }

  /* ---------------------------------------------------------------------- */
  /* The whole listing                                                       */
  /* ---------------------------------------------------------------------- */

  /** The credits of the song-post files, read in name order. */
  function ListingCredits(listing: seq<DirEntry>, collate: (string, string) -> bool): seq<Credit> {
    Credits(SortBy(JsonEntries(listing), NameOf, collate))
  }

  /** The artists of a listing, in name order. */
  function SortedArtists(listing: seq<DirEntry>, collate: (string, string) -> bool): seq<Artist> {
    var m := Group(ListingCredits(listing, collate));
    GroupSpec(ListingCredits(listing, collate));
    SortBy(Values(m), ArtistName, collate)
  }

  /** `artists.map(pageOf)` */
  function MapPages(artists: seq<Artist>, pageOf: Artist -> ArtistPage): (r: seq<ArtistPage>)
    ensures |r| == |artists|
  {
    if artists == [] then []
    else MapPages(artists[..|artists| - 1], pageOf) + [pageOf(artists[|artists| - 1])]
  }

  lemma {:induction false} MapPagesAt(artists: seq<Artist>, pageOf: Artist -> ArtistPage, i: nat)
    requires i < |artists|
    ensures MapPages(artists, pageOf)[i] == pageOf(artists[i])
  {
    var last := |artists| - 1;
    if i < last {
      assert artists[..last][i] == artists[i];
      MapPagesAt(artists[..last], pageOf, i);
    }
  }

  function PageFn(collate: (string, string) -> bool): Artist -> ArtistPage {
    a => PageOf(a, collate)
  }

  /** `artists.map(...)`: the file of each artist, in order. */
  function PagesOf(artists: seq<Artist>, collate: (string, string) -> bool): (r: seq<ArtistPage>)
    ensures |r| == |artists|
  {
    MapPages(artists, PageFn(collate))
  }

  lemma PagesOfAt(artists: seq<Artist>, collate: (string, string) -> bool, i: nat)
    requires i < |artists|
    ensures PagesOf(artists, collate)[i] == PageOf(artists[i], collate)
  {
    MapPagesAt(artists, PageFn(collate), i);
  }

  /** The artist files of a listing, in name order. */
  function ArtistPagesOf(listing: seq<DirEntry>, collate: (string, string) -> bool): (r: seq<ArtistPage>)
    ensures |r| == |SortedArtists(listing, collate)|
  {
    PagesOf(SortedArtists(listing, collate), collate)
  }

  /** The artists are in name order, and no two share a slug. */
  lemma ArtistPagesOrdered(listing: seq<DirEntry>, collate: (string, string) -> bool)
    requires TotalPreorder(collate)
    ensures var pages := ArtistPagesOf(listing, collate);
      && (forall i, j :: 0 <= i < j < |pages| ==> collate(pages[i].name, pages[j].name))
      && (forall i, j :: 0 <= i < j < |pages| ==> pages[i].slug != pages[j].slug)
  {
    var credits := ListingCredits(listing, collate);
    GroupSpec(credits);
    var m := Group(credits);
    ValuesFacts(m);
    var artists := SortedArtists(listing, collate);
    SortBySorted(Values(m), ArtistName, collate);
    UniqueSlugsPermutation(Values(m), artists);
    var pages := ArtistPagesOf(listing, collate);
    forall i | 0 <= i < |pages|
      ensures pages[i].name == artists[i].name && pages[i].slug == artists[i].slug
    {
      PagesOfAt(artists, collate, i);
    }
  }

  /**
   * Each artist file is the artist of a non-empty slug: named by the first
   * author name with that slug, which slugifies to it, and holding, sorted
   * by title, every song credited under the slug once per crediting name.
   */
  lemma ArtistPageContents(listing: seq<DirEntry>, collate: (string, string) -> bool, i: nat)
    requires TotalPreorder(collate)
    requires i < |ArtistPagesOf(listing, collate)|
    ensures var credits := ListingCredits(listing, collate);
      var p := ArtistPagesOf(listing, collate)[i];
      && p.slug != []
      && FirstName(credits, p.slug) == Some(p.name)
      && SongPosts.Slugify(p.name) == p.slug
      && multiset(p.songs) == multiset(SongsFor(credits, p.slug))
      && SortedBy(p.songs, SongTitle, collate)
      && p.songCount == |SongsFor(credits, p.slug)|
  {
    var credits := ListingCredits(listing, collate);
    GroupSpec(credits);
    var m := Group(credits);
    ValuesFacts(m);
    var artists := SortedArtists(listing, collate);
    assert artists[i] in multiset(Values(m));
    var a := artists[i];
    assert m.entries[a.slug] == a;
    CreditsSlugsOfNames(SortBy(JsonEntries(listing), NameOf, collate));
    FirstNameSlug(credits, a.slug);
    SortBySorted(a.songs, SongTitle, collate);
    PagesOfAt(artists, collate, i);
  }

  /** Every song credited under a slug is among that slug's songs. */
  lemma {:induction false} SongsForContains(credits: seq<Credit>, k: nat)
    requires k < |credits|
    ensures credits[k].song in SongsFor(credits, credits[k].slug)
  {
    var init := credits[..|credits| - 1];
    if k < |init| {
      assert init[k] == credits[k];
      SongsForContains(init, k);
    }
  }

  /** Every author name with a non-empty slug has an artist file. */
  lemma ArtistPagesCover(listing: seq<DirEntry>, collate: (string, string) -> bool, k: nat)
    requires k < |ListingCredits(listing, collate)|
    requires ListingCredits(listing, collate)[k].slug != []
    ensures exists i :: (0 <= i < |ArtistPagesOf(listing, collate)| &&
      ArtistPagesOf(listing, collate)[i].slug == ListingCredits(listing, collate)[k].slug)
  {
    var credits := ListingCredits(listing, collate);
    var slug := credits[k].slug;
    GroupSpec(credits);
    var m := Group(credits);
    ValuesFacts(m);
    SongsForContains(credits, k);
    assert slug in m.entries;
    var artists := SortedArtists(listing, collate);
    assert m.entries[slug] in multiset(artists);
    var i :| 0 <= i < |artists| && artists[i] == m.entries[slug];
    PagesOfAt(artists, collate, i);
    assert ArtistPagesOf(listing, collate)[i].slug == slug;
  }

  /* ---------------------------------------------------------------------- */
  /* The output directory                                                    */
  /* ---------------------------------------------------------------------- */

  /** A file of the output directory: one this generator writes, or any other. */
  datatype ArtistFile = Other(content: Content) | PageFile(page: ArtistPage) | IndexFile(index: ArtistIndex)

  lemma FileNameFacts(slug: string, other: string)
    ensures IsJsonName(FileName(slug))
    ensures FileName(slug) == FileName(other) ==> slug == other
  {
    var f, g := FileName(slug), FileName(other);
    assert f[..|slug|] == slug;
    assert g[..|other|] == other;
  }

  /** The output directory once every `.json` file is deleted. */
  function WithoutJson(dir: map<string, ArtistFile>): (r: map<string, ArtistFile>)
    ensures forall n :: n in r <==> n in dir && !IsJsonName(n)
    ensures forall n :: n in r ==> r[n] == dir[n]
  {
    map n | n in dir && !IsJsonName(n) :: dir[n]
  }

  /** The output directory once the files of `pages` are written, in order. */
  function WithArtistPages(dir: map<string, ArtistFile>, pages: seq<ArtistPage>): (r: map<string, ArtistFile>)
    ensures forall n :: n in dir ==> n in r
    ensures forall n :: n in r ==> (n in dir && r[n] == dir[n]) || (IsJsonName(n) && r[n].PageFile?)
  {
    if pages == [] then dir
    else WithArtistPages(dir, pages[..|pages| - 1])[FileName(pages[|pages| - 1].slug) := PageFile(pages[|pages| - 1])]
  }

  lemma WithArtistPagesAppend(dir: map<string, ArtistFile>, pages: seq<ArtistPage>, p: ArtistPage)
    ensures WithArtistPages(dir, pages + [p]) == WithArtistPages(dir, pages)[FileName(p.slug) := PageFile(p)]
  {
    assert (pages + [p])[..|pages|] == pages;
  }

  /** The names of the artist files. */
  function FileNames(pages: seq<ArtistPage>): (r: seq<string>)
    ensures |r| == |pages|
  {
    if pages == [] then [] else FileNames(pages[..|pages| - 1]) + [FileName(pages[|pages| - 1].slug)]
  }

  /** The output directory after a run that found the artists `pages`. */
  function ArtistOutput(dir: map<string, ArtistFile>, pages: seq<ArtistPage>, now: string): (r: map<string, ArtistFile>)
    ensures IndexName in r && r[IndexName].IndexFile?
    ensures r[IndexName].index.totalArtists == |r[IndexName].index.artists| == |pages|
    ensures forall n :: n in r && IsJsonName(n) ==> r[n].PageFile? || r[n].IndexFile?
  {
    WithArtistPages(WithoutJson(dir), pages)[IndexName := IndexFile(ArtistIndex(|pages|, now, Summaries(pages)))]
  }

  lemma {:induction false} WithArtistPagesKeys(dir: map<string, ArtistFile>, pages: seq<ArtistPage>)
    ensures forall n :: n in WithArtistPages(dir, pages) <==> n in dir || n in FileNames(pages)
  {
    if pages != [] {
      WithArtistPagesKeys(dir, pages[..|pages| - 1]);
    }
  }

  /** Distinct slugs: each artist's file holds that artist. */
  lemma {:induction false} WithArtistPagesWritten(dir: map<string, ArtistFile>, pages: seq<ArtistPage>, i: nat)
    requires i < |pages|
    requires forall i, j :: 0 <= i < j < |pages| ==> pages[i].slug != pages[j].slug
    ensures FileName(pages[i].slug) in WithArtistPages(dir, pages)
    ensures WithArtistPages(dir, pages)[FileName(pages[i].slug)] == PageFile(pages[i])
  {
    var last := |pages| - 1;
    if i < last {
      var init := pages[..last];
      assert init[i] == pages[i];
      WithArtistPagesWritten(dir, init, i);
      FileNameFacts(pages[i].slug, pages[last].slug);
    }
  }

  lemma {:induction false} WithArtistPagesKept(dir: map<string, ArtistFile>, pages: seq<ArtistPage>, n: string)
    requires n in dir && !IsJsonName(n)
    ensures n in WithArtistPages(dir, pages) && WithArtistPages(dir, pages)[n] == dir[n]
  {
    if pages != [] {
      WithArtistPagesKept(dir, pages[..|pages| - 1], n);
      FileNameFacts(pages[|pages| - 1].slug, pages[|pages| - 1].slug);
    }
  }

  lemma {:induction false} FileNamesJson(pages: seq<ArtistPage>)
    ensures forall n :: n in FileNames(pages) ==> IsJsonName(n)
  {
    if pages != [] {
      FileNamesJson(pages[..|pages| - 1]);
      FileNameFacts(pages[|pages| - 1].slug, pages[|pages| - 1].slug);
    }
  }

  lemma IndexNameJson()
    ensures IsJsonName(IndexName)
  {
    assert IndexName[|IndexName| - 5..] == ".json";
  }

  /**
   * After a run each artist's file holds that artist, and `index.json`
   * lists the artists; it is written last, so it wins over an artist whose
   * slug is `index`.
   */
  lemma ArtistOutputWritten(dir: map<string, ArtistFile>, pages: seq<ArtistPage>, now: string)
    requires forall i, j :: 0 <= i < j < |pages| ==> pages[i].slug != pages[j].slug
    ensures var out := ArtistOutput(dir, pages, now);
      && (forall i :: 0 <= i < |pages| && FileName(pages[i].slug) != IndexName ==>
            FileName(pages[i].slug) in out && out[FileName(pages[i].slug)] == PageFile(pages[i]))
      && IndexName in out && out[IndexName] == IndexFile(ArtistIndex(|pages|, now, Summaries(pages)))
  {
    var clean := WithoutJson(dir);
    forall i | 0 <= i < |pages|
      ensures FileName(pages[i].slug) in WithArtistPages(clean, pages)
      ensures WithArtistPages(clean, pages)[FileName(pages[i].slug)] == PageFile(pages[i])
    {
      WithArtistPagesWritten(clean, pages, i);
    }
  }

  /** After a run the `.json` files are exactly `index.json` and the artists' files. */
  lemma ArtistOutputJson(dir: map<string, ArtistFile>, pages: seq<ArtistPage>, now: string)
    ensures var out := ArtistOutput(dir, pages, now);
      forall n :: n in out && IsJsonName(n) <==> n == IndexName || n in FileNames(pages)
  {
    WithArtistPagesKeys(WithoutJson(dir), pages);
    FileNamesJson(pages);
    IndexNameJson();
  }

  /** A run keeps every file that is not `.json` and adds no other. */
  lemma ArtistOutputKept(dir: map<string, ArtistFile>, pages: seq<ArtistPage>, now: string)
    ensures var out := ArtistOutput(dir, pages, now);
      && (forall n :: n in dir && !IsJsonName(n) ==> n in out && out[n] == dir[n])
      && (forall n :: n in out ==> n in dir || IsJsonName(n))
  {
    var clean := WithoutJson(dir);
    WithArtistPagesKeys(clean, pages);
    FileNamesJson(pages);
    IndexNameJson();
    forall n | n in dir && !IsJsonName(n)
      ensures n in WithArtistPages(clean, pages) && WithArtistPages(clean, pages)[n] == dir[n]
    {
      WithArtistPagesKept(clean, pages, n);
    }
  }

  /* ---------------------------------------------------------------------- */
  /* The run                                                                 */
  /* ---------------------------------------------------------------------- */

  /** The loop deleting every `.json` file of the output directory. */
  method RemoveJsonFiles(dir: map<string, ArtistFile>) returns (out: map<string, ArtistFile>)
    ensures out == WithoutJson(dir)
  {
    var existing := set n | n in dir && IsJsonName(n);
    var pending := existing;
    out := dir;
    while pending != {}
      invariant pending <= existing
      invariant out == map n | n in dir && (!IsJsonName(n) || n in pending) :: dir[n]
      decreases pending
    {
      var stale :| stale in pending;
      out := map n | n in out && n != stale :: out[n];
      pending := pending - {stale};
    }
  }

  /**
   * The loop writing one file per artist: each artist's songs sorted by
   * title, with the count and the representative thumbnail.
   */
  method WriteArtistFiles(dir: map<string, ArtistFile>, artists: seq<Artist>, collate: (string, string) -> bool)
    returns (out: map<string, ArtistFile>, pages: seq<ArtistPage>)
    ensures pages == PagesOf(artists, collate)
    ensures out == WithArtistPages(dir, pages)
  {
    out := dir;
    pages := [];
    for k := 0 to |artists|
      invariant pages == PagesOf(artists[..k], collate)
      invariant out == WithArtistPages(dir, pages)
    {
      assert artists[..k + 1][..k] == artists[..k];
      var artist := artists[k];
      var songs := SortBy(artist.songs, SongTitle, collate);
      var artistData := ArtistPage(artist.name, artist.slug, |songs|, RepresentativeThumbnail(songs), songs);
      assert artistData == PageOf(artist, collate);
      assert MapPages(artists[..k + 1], PageFn(collate)) == MapPages(artists[..k], PageFn(collate)) + [artistData];
      out := out[FileName(artist.slug) := PageFile(artistData)];
      WithArtistPagesAppend(dir, pages, artistData);
      pages := pages + [artistData];
    }
    assert artists[..|artists|] == artists;
  }

  /**
   * `main()`: nothing changes when the song-post directory cannot be read;
   * otherwise the output directory becomes `ArtistOutput` of the listing's
   * artists, and `skipped` counts the files that gave no song.
   */
  method GenerateArtistPages(
    source: Option<seq<DirEntry>>, collate: (string, string) -> bool,
    now: string, outDir: map<string, ArtistFile>)
    returns (out: map<string, ArtistFile>, skipped: nat)
    ensures source.None? ==> out == outDir && skipped == 0
    ensures source.Some? ==>
      && out == ArtistOutput(outDir, ArtistPagesOf(source.value, collate), now)
      && skipped == Skipped(SortBy(JsonEntries(source.value), NameOf, collate))
  {
    if source.None? {
      return outDir, 0;
    }
    var files := SortBy(JsonEntries(source.value), NameOf, collate);
    var artistMap;
    artistMap, skipped := GroupArtists(files);
    out := RemoveJsonFiles(outDir);
    GroupSpec(Credits(files));
    var artists := SortBy(Values(artistMap), ArtistName, collate);
    var pages;
    out, pages := WriteArtistFiles(out, artists, collate);
    out := out[IndexName := IndexFile(ArtistIndex(|artists|, now, Summaries(pages)))];
  }
}
