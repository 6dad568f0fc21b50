/**
 * The home-page generator. It reads every song post, keeps the fields the
 * home page shows, sorts the songs by title and writes them in pages
 * `home_0.json`, `home_1.json`, … of a fixed size, plus an `index.json`
 * naming the pages, after deleting the pages a previous run left behind.
 *
 * The song-post directory is a listing (`None` when it cannot be read), the
 * output directory a map from file names to what they hold, the clock the
 * string `now`, and Spanish collation the total preorder `collate`.
 */
module HomePages {
  import opened JsValue
  import opened JsString
  import opened Sorting
  import opened Files
  import ScriptHelpers
  import SongPosts

  const DefaultPerPage: int := 20
  const PerPageFlag: string := "--per-page"
  const PreviewMax: int := 220

  /* ---------------------------------------------------------------------- */
  /* POSTS_PER_PAGE                                                          */
  /* ---------------------------------------------------------------------- */

  /**
   * The value after the first `--per-page`, when there is one and it is not
   * empty (an empty string is falsy and falls back to the default).
   */
  function FlagValue(args: seq<string>): (r: Option<string>)
    ensures r.Some? <==> var i := IndexOf(args, PerPageFlag); i >= 0 && i + 1 < |args| && args[i + 1] != []
    ensures r.Some? ==> r.value != [] && r.value == args[IndexOf(args, PerPageFlag) + 1]
  {
    var i := IndexOf(args, PerPageFlag);
    if i >= 0 && i + 1 < |args| && args[i + 1] != [] then Some(args[i + 1]) else None
  }

  /** The page size: the flag's value read as a page size, 20 without one. */
  function PerPage(args: seq<string>): (r: int)
    ensures r >= 1
    ensures FlagValue(args).None? ==> r == DefaultPerPage
  {
    match FlagValue(args)
    case Some(v) => PageSize(v)
    case None => DefaultPerPage
  }

  /**
   * `Math.max(1, parseInt(value, 10) || 20)`: NaN and 0 are falsy and give
   * 20, a negative number gives 1, and a positive one is the page size.
   */
  function PageSize(value: string): (r: int)
    ensures r >= 1
    ensures ParseInt(value).None? || ParseInt(value) == Some(0) ==> r == DefaultPerPage
    ensures ParseInt(value).Some? && ParseInt(value).value < 0 ==> r == 1
    ensures ParseInt(value).Some? && ParseInt(value).value > 0 ==> r == ParseInt(value).value
  {
    var n := ParseInt(value);
    var v := if n.None? || n.value == 0 then DefaultPerPage else n.value;
    if v >= 1 then v else 1
  }

  /** `--per-page n` with a positive `n` written in decimal sets the page size to `n`. */
  lemma PerPageGiven(args: seq<string>, n: nat)
    requires n >= 1
    requires FlagValue(args) == Some(Decimal(n))
    ensures PerPage(args) == n
  {
    PageSizeDecimal(n);
  }

  /** Without a `--per-page` flag the page size is 20. */
  lemma PerPageDefault(args: seq<string>)
    requires PerPageFlag !in args
    ensures PerPage(args) == DefaultPerPage
  {
    assert FlagValue(args).None?;
  }

  lemma PageSizeDecimal(n: nat)
    requires n >= 1
    ensures Decimal(n) != [] && PageSize(Decimal(n)) == n
  {
    ParseIntDecimal(n);
  }

  /* ---------------------------------------------------------------------- */
  /* extractHomeFields                                                       */
  /* ---------------------------------------------------------------------- */

  /** What the home page needs of a song. */
  datatype HomeSong = HomeSong(
    slug: string,
    title: string,
    author: string,
    authors: seq<string>,
    album: Option<string>,
    metaDescription: string,
    lyricsPreview: string,
    youtubeId: Option<string>,
    thumbnailUrl: Option<string>,
    generatedAt: Option<string>)

  function Title(s: HomeSong): string {
    s.title
  }

  /** What every song the generator keeps satisfies. */
  predicate HomeSongValid(h: HomeSong) {
    && h.slug != [] && IsTrimmed(h.slug)
    && h.title != [] && IsTrimmed(h.title)
    && IsTrimmed(h.author)
    && |h.authors| >= 1
    && (forall i :: 0 <= i < |h.authors| ==> h.authors[i] != [] && IsTrimmed(h.authors[i]))
    && (h.album.Some? ==> h.album.value != [] && IsTrimmed(h.album.value))
    && IsTrimmed(h.metaDescription)
    && (h.youtubeId.Some? ==> h.youtubeId.value != [] && IsTrimmed(h.youtubeId.value))
    && (h.thumbnailUrl.None? <==> h.youtubeId.None?)
    && (h.generatedAt.Some? ==> IsTrimmed(h.generatedAt.value))
  }

  /**
   * `extractHomeFields(raw)`: `None` (the script's `null`) when the trimmed
   * slug or title is empty; a thrown error when `raw` is `null` or a field
   * it trims is a truthy non-string (the author and the meta description
   * are only read once slug and title are known to be there).
   */
  function ExtractHomeFields(raw: Value): (r: Completion<Option<HomeSong>>)
    ensures r.Thrown? <==>
      || raw.Null? || raw.Undefined?
      || NoTrim(SongPosts.RawField(raw, "slug")) || NoTrim(SongPosts.RawField(raw, "title"))
      || (&& !Blank(SongPosts.RawField(raw, "slug")) && !Blank(SongPosts.RawField(raw, "title"))
          && (NoTrim(SongPosts.RawField(raw, "author")) || NoTrim(SongPosts.RawField(raw, "meta_description"))))
    ensures r == Normal(None) <==>
      && !raw.Null? && !raw.Undefined?
      && !NoTrim(SongPosts.RawField(raw, "slug")) && !NoTrim(SongPosts.RawField(raw, "title"))
      && (Blank(SongPosts.RawField(raw, "slug")) || Blank(SongPosts.RawField(raw, "title")))
    ensures r.Normal? && r.value.Some? ==> HomeSongValid(r.value.value)
  {
    if raw.Null? || raw.Undefined? then Thrown
    else
      var slug :- TrimOr(SongPosts.RawField(raw, "slug"), "");
      var title :- TrimOr(SongPosts.RawField(raw, "title"), "");
      if slug == [] || title == [] then Normal(None)
      else
        var author :- TrimOr(SongPosts.RawField(raw, "author"), SongPosts.UnknownAuthor);
        var youtubeId := ScriptHelpers.TrimmedString(SongPosts.RawField(raw, "youtube_id"));
        var metaDescription :- TrimOr(SongPosts.RawField(raw, "meta_description"), "");
        ScriptHelpers.BuildThumbnailUrlAgrees(youtubeId);
        var authors := ScriptHelpers.SplitAuthors(Str(author));
        assert authors == SongPosts.SplitAuthors(author);
        assert |authors| >= 1 && forall i :: 0 <= i < |authors| ==> authors[i] != [] && IsTrimmed(authors[i]);
        Normal(Some(HomeSong(
          slug,
          title,
          author,
          authors,
          ScriptHelpers.NonBlankString(SongPosts.RawField(raw, "album")),
          metaDescription,
          ScriptHelpers.LyricsPreview(SongPosts.RawField(raw, "lyrics"), PreviewMax),
          if youtubeId.Some? && youtubeId.value != [] then youtubeId else None,
          ScriptHelpers.BuildThumbnailUrl(youtubeId),
          ScriptHelpers.TrimmedString(SongPosts.RawField(raw, "generated_at")))))
  }

  /** Where each field of a kept song comes from. */
  lemma HomeFieldsOf(raw: Value)
    requires ExtractHomeFields(raw).Normal? && ExtractHomeFields(raw).value.Some?
    ensures !raw.Null? && !raw.Undefined?
    ensures var h := ExtractHomeFields(raw).value.value;
      && h.slug == SongPosts.ToCleanString(SongPosts.RawField(raw, "slug"))
      && h.title == SongPosts.ToCleanString(SongPosts.RawField(raw, "title"))
      && TrimOr(SongPosts.RawField(raw, "author"), SongPosts.UnknownAuthor) == Normal(h.author)
      && h.authors == SongPosts.SplitAuthors(h.author)
      && h.album == SongPosts.ToNullableString(SongPosts.RawField(raw, "album"))
      && h.metaDescription == SongPosts.ToCleanString(SongPosts.RawField(raw, "meta_description"))
      && h.lyricsPreview == ScriptHelpers.LyricsPreview(SongPosts.RawField(raw, "lyrics"), PreviewMax)
      && h.youtubeId == SongPosts.ToNullableString(SongPosts.RawField(raw, "youtube_id"))
      && h.thumbnailUrl == SongPosts.BuildYouTubeThumbnailUrl(h.youtubeId, SongPosts.HqDefault)
      && h.generatedAt == ScriptHelpers.TrimmedString(SongPosts.RawField(raw, "generated_at"))
  {
    var slug := TrimOr(SongPosts.RawField(raw, "slug"), "");
    var title := TrimOr(SongPosts.RawField(raw, "title"), "");
    var author := TrimOr(SongPosts.RawField(raw, "author"), SongPosts.UnknownAuthor);
    var youtubeId := ScriptHelpers.TrimmedString(SongPosts.RawField(raw, "youtube_id"));
    var metaDescription := TrimOr(SongPosts.RawField(raw, "meta_description"), "");
    assert slug.Normal? && title.Normal? && author.Normal? && metaDescription.Normal?;
    var h := HomeSong(
      slug.value,
      title.value,
      author.value,
      ScriptHelpers.SplitAuthors(Str(author.value)),
      ScriptHelpers.NonBlankString(SongPosts.RawField(raw, "album")),
      metaDescription.value,
      ScriptHelpers.LyricsPreview(SongPosts.RawField(raw, "lyrics"), PreviewMax),
      if youtubeId.Some? && youtubeId.value != [] then youtubeId else None,
      ScriptHelpers.BuildThumbnailUrl(youtubeId),
      ScriptHelpers.TrimmedString(SongPosts.RawField(raw, "generated_at")));
    assert ExtractHomeFields(raw) == Normal(Some(h));
    ScriptHelpers.BuildThumbnailUrlAgrees(youtubeId);
  }

  /** A blank field cleans to the empty string. */
  lemma BlankCleans(v: Value)
    requires Blank(v)
    ensures SongPosts.ToCleanString(v) == []
  {
    if v.Str? && v.s == [] {
      assert Trim(v.s) == [];
    }
  }

  /**
   * The home page shows what the song page shows: of the records the
   * generator does not throw on, it keeps exactly those the library
   * accepts, with the same slug, title, credited authors, album, video,
   * thumbnail and meta description. Two fields differ on blank input: a
   * blank author is `""` here and "Desconocido" there, and a blank date is
   * `""` here and `null` there. `HomeThrowsWherePostAccepts` gives the
   * records the generator throws on but the library accepts.
   */
  lemma HomeFieldsAgreeWithPost(raw: Value)
    requires ExtractHomeFields(raw).Normal?
    ensures ExtractHomeFields(raw).value.Some? <==> SongPosts.ParseSongPost(raw).Normal?
    ensures ExtractHomeFields(raw).value.Some? ==>
      var h := ExtractHomeFields(raw).value.value;
      var p := SongPosts.ParseSongPost(raw).value;
      && h.slug == p.slug && h.title == p.title
      && (h.author == p.author || (h.author == [] && p.author == SongPosts.UnknownAuthor))
      && h.authors == SongPosts.SplitAuthors(p.author)
      && h.album == p.album && h.youtubeId == p.youtubeId && h.thumbnailUrl == p.thumbnailUrl
      && h.metaDescription == p.metaDescription
      && (h.generatedAt == p.generatedAt || (h.generatedAt == Some([]) && p.generatedAt.None?))
  {
    var home := ExtractHomeFields(raw).value;
    if home.None? {
      var slug, title := SongPosts.RawField(raw, "slug"), SongPosts.RawField(raw, "title");
      if Blank(slug) {
        BlankCleans(slug);
      } else {
        BlankCleans(title);
      }
    } else {
      var h := home.value;
      HomeFieldsOf(raw);
      var post := SongPosts.ParseSongPost(raw);
      assert post.Normal?;
      var p := post.value;
      SongPosts.ParsedFields(raw);
      var author := SongPosts.RawField(raw, "author");
      if !Truthy(author) {
        SongPosts.UnknownAuthorTrimmed();
        BlankCleans(author);
        assert h.author == SongPosts.UnknownAuthor == p.author;
      } else if SongPosts.ToCleanString(author) == [] {
        SongPosts.SplitAuthorsPlaceholder(SongPosts.UnknownAuthor);
        SongPosts.SplitAuthorsPlaceholder([]);
        assert SongPosts.AuthorTokens([]) == [] by {
          assert Split([], ',') == [[]];
          assert Trim([]) == [];
        }
      }
    }
  }

  /**
   * The records the generator throws on (and so skips) although the
   * library accepts them: a post with a slug and a title whose author or
   * meta description is a truthy non-string, which `trim` cannot take but
   * `toCleanString` reads as `""`.
   */
  lemma HomeThrowsWherePostAccepts(raw: Value)
    ensures ExtractHomeFields(raw).Thrown? && SongPosts.ParseSongPost(raw).Normal? <==>
      && SongPosts.ParseSongPost(raw).Normal?
      && (NoTrim(SongPosts.RawField(raw, "author")) || NoTrim(SongPosts.RawField(raw, "meta_description")))
  {
    if SongPosts.ParseSongPost(raw).Normal? {
      var slug, title := SongPosts.RawField(raw, "slug"), SongPosts.RawField(raw, "title");
      assert slug.Str? && !AllSpace(slug.s) && title.Str? && !AllSpace(title.s);
      assert !NoTrim(slug) && !NoTrim(title) && !Blank(slug) && !Blank(title);
    }
  }

  /* ---------------------------------------------------------------------- */
  /* Reading the song posts                                                  */
  /* ---------------------------------------------------------------------- */

  /** The song a file contributes: none when it cannot be read or parsed, throws, or lacks slug or title. */
  function SongOf(e: DirEntry): (r: seq<HomeSong>)
    ensures |r| <= 1
    ensures r != [] ==> HomeSongValid(r[0])
  {
    match ReadJson(e.node)
    case Thrown => []
    case Normal(raw) =>
      match ExtractHomeFields(raw)
      case Normal(Some(h)) => [h]
      case _ => []
  }

  /** The songs `songOf` yields for `files`, in file order. */
  function CollectBy(files: seq<DirEntry>, songOf: DirEntry -> seq<HomeSong>): seq<HomeSong> {
    if files == [] then [] else CollectBy(files[..|files| - 1], songOf) + songOf(files[|files| - 1])
  }

  lemma {:induction false} CollectByAppend(a: seq<DirEntry>, b: seq<DirEntry>, songOf: DirEntry -> seq<HomeSong>)
    ensures CollectBy(a + b, songOf) == CollectBy(a, songOf) + CollectBy(b, songOf)
  {
    if b != [] {
      CollectByAppend(a, b[..|b| - 1], songOf);
      assert (a + b)[..|a + b| - 1] == a + b[..|b| - 1];
    } else {
      assert a + b == a;
    }
  }

  lemma {:induction false} CollectByLength(files: seq<DirEntry>, songOf: DirEntry -> seq<HomeSong>)
    requires forall e :: |songOf(e)| <= 1
    ensures |CollectBy(files, songOf)| <= |files|
  {
    if files != [] {
      CollectByLength(files[..|files| - 1], songOf);
    }
  }

  /** The songs of `files`, in file order. */
  function Collect(files: seq<DirEntry>): (r: seq<HomeSong>)
    ensures |r| <= |files|
  {
    CollectByLength(files, SongOf);
    CollectBy(files, SongOf)
  }

  /** A file that fails is skipped and the files after it are still read. */
  lemma CollectAppend(a: seq<DirEntry>, b: seq<DirEntry>)
    ensures Collect(a + b) == Collect(a) + Collect(b)
  {
    CollectByAppend(a, b, SongOf);
  }

  /** The loop over the sorted file names, keeping every song the files yield. */
  method CollectSongs(files: seq<DirEntry>) returns (songs: seq<HomeSong>)
    ensures songs == Collect(files)
  {
    songs := [];
    for i := 0 to |files|
      invariant songs == CollectBy(files[..i], SongOf)
    {
      assert files[..i + 1][..i] == files[..i];
      assert CollectBy(files[..i + 1], SongOf) == CollectBy(files[..i], SongOf) + SongOf(files[i]);
      var content := ReadJson(files[i].node);
      if content.Normal? {
        var home := ExtractHomeFields(content.value);
        if home.Normal? && home.value.Some? {
          songs := songs + [home.value.value];
        }
      }
    }
    assert files[..|files|] == files;
  }

  /** The song-post files sorted by name, their songs, then sorted by title. */
  function HomeSongs(listing: seq<DirEntry>, collate: (string, string) -> bool): seq<HomeSong> {
    SortBy(Collect(SortBy(JsonEntries(listing), NameOf, collate)), Title, collate)
  }

  /**
   * The songs are in title order, they are exactly the songs of the
   * readable posts, and there are no more of them than `.json` files.
   */
  lemma HomeSongsOrdered(listing: seq<DirEntry>, collate: (string, string) -> bool)
    requires TotalPreorder(collate)
    ensures var files := SortBy(JsonEntries(listing), NameOf, collate);
      && SortedBy(HomeSongs(listing, collate), Title, collate)
      && multiset(HomeSongs(listing, collate)) == multiset(Collect(files))
      && |HomeSongs(listing, collate)| <= |JsonEntries(listing)|
  {
    var files := SortBy(JsonEntries(listing), NameOf, collate);
    SortBySorted(Collect(files), Title, collate);
  }

  /* ---------------------------------------------------------------------- */
  /* Pagination                                                              */
  /* ---------------------------------------------------------------------- */

  /** One `home_{page}.json`. */
  datatype HomePage = HomePage(
    page: nat,
    totalPages: nat,
    totalSongs: nat,
    perPage: nat,
    from: nat,
    to: int,
    songs: seq<HomeSong>)

  /** `index.json` */
  datatype HomeIndex = HomeIndex(
    totalSongs: nat,
    totalPages: nat,
    perPage: nat,
    generatedAt: string,
    pages: seq<string>)

  /** A file of the output directory: one this generator writes, or any other. */
  datatype HomeFile = Other(content: Content) | PageFile(page: HomePage) | IndexFile(index: HomeIndex)

  /**
   * `Math.max(1, Math.ceil(n / perPage))`: the fewest pages, and at least
   * one, that hold `n` songs.
   */
  function TotalPages(n: nat, perPage: nat): (r: nat)
    requires perPage >= 1
    ensures r >= 1 && n <= r * perPage
    ensures r == 1 || (r - 1) * perPage < n
  {
    if n == 0 then 1 else CeilDiv(n, perPage); (n + perPage - 1) / perPage
  }

  lemma CeilDiv(n: nat, d: nat)
    requires n >= 1 && d >= 1
    ensures var q := (n + d - 1) / d; q >= 1 && n <= q * d && (q - 1) * d < n
  {
    var q, m := (n + d - 1) / d, (n + d - 1) % d;
    assert n + d - 1 == q * d + m && 0 <= m < d;
    assert (q - 1) * d == q * d - d;
  }

  /** Page `page` of the songs, as `home_{page}.json` holds it. */
  function PageData(songs: seq<HomeSong>, perPage: nat, page: nat): (r: HomePage)
    requires perPage >= 1
    ensures r.page == page && r.totalSongs == |songs| && r.perPage == perPage
    ensures |r.songs| <= perPage
    ensures forall i :: 0 <= i < |r.songs| ==> page * perPage + i < |songs| && r.songs[i] == songs[page * perPage + i]
  {
    var start := page * perPage;
    var pageSongs := songs[Min(start, |songs|)..Min(start + perPage, |songs|)];
    HomePage(page, TotalPages(|songs|, perPage), |songs|, perPage, start, start + |pageSongs| - 1, pageSongs)
  }

  /**
   * Every page but the last holds `perPage` songs, the last holds between
   * one and `perPage` (none only when there are no songs at all, and then
   * `to` is -1), and a page's songs are the songs from `from` to `to`.
   */
  lemma PageShape(songs: seq<HomeSong>, perPage: nat, page: nat)
    requires perPage >= 1 && page < TotalPages(|songs|, perPage)
    ensures var d := PageData(songs, perPage, page);
      var last := TotalPages(|songs|, perPage) - 1;
      && d.from == page * perPage <= |songs|
      && d.to == d.from + |d.songs| - 1
      && d.songs == songs[d.from..d.to + 1]
      && (page < last ==> |d.songs| == perPage)
      && (page == last && |songs| > 0 ==> 1 <= |d.songs| <= perPage)
      && (|songs| == 0 ==> last == 0 && d.songs == [] && d.to == -1)
  {
    var t := TotalPages(|songs|, perPage);
    PageStarts(|songs|, perPage, page);
    if page < t - 1 {
      PageStarts(|songs|, perPage, page + 1);
    }
  }

  /** Page `page` starts within the songs, and the next page starts `perPage` later. */
  lemma PageStarts(n: nat, perPage: nat, page: nat)
    requires perPage >= 1 && page < TotalPages(n, perPage)
    ensures page * perPage <= n
    ensures page * perPage + perPage == (page + 1) * perPage
    ensures 0 < n ==> page * perPage < n
  {
    var t := TotalPages(n, perPage);
    MulMono(page, t - 1, perPage);
  }

  lemma MulMono(a: nat, b: nat, c: nat)
    requires a <= b
    ensures a * c <= b * c
  {
  }

  /** The songs of pages `0 .. count - 1`, in page order. */
  function PagesUpTo(songs: seq<HomeSong>, perPage: nat, count: nat): seq<HomeSong>
    requires perPage >= 1
  {
    if count == 0 then [] else PagesUpTo(songs, perPage, count - 1) + PageData(songs, perPage, count - 1).songs
  }

  lemma {:induction false} PagesUpToPrefix(songs: seq<HomeSong>, perPage: nat, count: nat)
    requires perPage >= 1
    ensures PagesUpTo(songs, perPage, count) == songs[..Min(count * perPage, |songs|)]
  {
    if count > 0 {
      PagesUpToPrefix(songs, perPage, count - 1);
      assert (count - 1) * perPage + perPage == count * perPage;
    }
  }

  /** The pages, read in order, give back every song once, in title order. */
  lemma PagesCoverSongs(songs: seq<HomeSong>, perPage: nat)
    requires perPage >= 1
    ensures PagesUpTo(songs, perPage, TotalPages(|songs|, perPage)) == songs
  {
    PagesUpToPrefix(songs, perPage, TotalPages(|songs|, perPage));
  }

  /* ---------------------------------------------------------------------- */
  /* The output directory                                                    */
  /* ---------------------------------------------------------------------- */

  const PagePrefix: string := "home_"
  const JsonSuffix: string := ".json"
  const IndexName: string := "index.json"

  /** `f.startsWith("home_") && f.endsWith(".json")`: what the cleanup deletes. */
  predicate IsPageName(name: string) {
    StartsWith(name, PagePrefix) && EndsWith(name, JsonSuffix)
  }

  /** `home_${page}.json`, a name the cleanup deletes. */
  function PageName(page: nat): (r: string)
    ensures IsPageName(r)
  {
    var r := PagePrefix + Decimal(page) + JsonSuffix;
    assert r[..|PagePrefix|] == PagePrefix;
    assert r[|r| - |JsonSuffix|..] == JsonSuffix;
    r
  }

  /** Page names are the names the cleanup deletes, and distinct pages have distinct names. */
  lemma PageNameFacts(p: nat, q: nat)
    ensures IsPageName(PageName(p))
    ensures PageName(p) == PageName(q) ==> p == q
    ensures PageName(p) != IndexName
  {
    var s, t := PageName(p), PageName(q);
    assert s[..|PagePrefix|] == PagePrefix;
    assert s[|s| - |JsonSuffix|..] == JsonSuffix;
    assert s[|PagePrefix|..|s| - |JsonSuffix|] == Decimal(p);
    assert t[|PagePrefix|..|t| - |JsonSuffix|] == Decimal(q);
    if s == t {
      DecimalInjective(p, q);
    }
    assert s[0] == 'h' && IndexName[0] == 'i';
  }

  /** `Array.from({ length: count }, (_, i) => `home_${i}.json`)` */
  function PageNames(count: nat): (r: seq<string>)
    ensures |r| == count
    ensures forall i :: 0 <= i < count ==> r[i] == PageName(i)
  {
    if count == 0 then [] else PageNames(count - 1) + [PageName(count - 1)]
  }

  /** The output directory once every `home_*.json` file is deleted. */
  function WithoutPages(dir: map<string, HomeFile>): (r: map<string, HomeFile>)
    ensures forall n :: n in r <==> n in dir && !IsPageName(n)
    ensures forall n :: n in r ==> r[n] == dir[n]
  {
    map n | n in dir && !IsPageName(n) :: dir[n]
  }

  /** The output directory once pages `0 .. count - 1` are written. */
  function WithPages(dir: map<string, HomeFile>, songs: seq<HomeSong>, perPage: nat, count: nat): (r: map<string, HomeFile>)
    requires perPage >= 1
    ensures forall n :: n in dir ==> n in r
    ensures forall n :: n in r ==> (n in dir && r[n] == dir[n]) || (IsPageName(n) && r[n].PageFile?)
  {
    if count == 0 then dir
    else WithPages(dir, songs, perPage, count - 1)[PageName(count - 1) := PageFile(PageData(songs, perPage, count - 1))]
  }

  /** The output directory after a run over `songs`. */
  function HomeOutput(dir: map<string, HomeFile>, songs: seq<HomeSong>, perPage: nat, now: string): (r: map<string, HomeFile>)
    requires perPage >= 1
    ensures IndexName in r && r[IndexName].IndexFile? && r[IndexName].index.totalSongs == |songs|
    ensures forall n :: n in r && IsPageName(n) ==> r[n].PageFile?
    ensures forall n :: n in dir && !IsPageName(n) && n != IndexName ==> n in r && r[n] == dir[n]
  {
    assert !IsPageName(IndexName) by {
      assert IndexName[..|PagePrefix|] != PagePrefix by { assert IndexName[0] == 'i'; }
    }
    var total := TotalPages(|songs|, perPage);
    WithPages(WithoutPages(dir), songs, perPage, total)[IndexName := IndexFile(HomeIndex(|songs|, total, perPage, now, PageNames(total)))]
  }

  lemma {:induction false} WithPagesKeys(dir: map<string, HomeFile>, songs: seq<HomeSong>, perPage: nat, count: nat)
    requires perPage >= 1
    ensures forall n :: n in WithPages(dir, songs, perPage, count) <==> n in dir || n in PageNames(count)
  {
    if count > 0 {
      WithPagesKeys(dir, songs, perPage, count - 1);
      assert PageNames(count) == PageNames(count - 1) + [PageName(count - 1)];
    }
  }

  lemma {:induction false} WithPagesWritten(dir: map<string, HomeFile>, songs: seq<HomeSong>, perPage: nat, count: nat)
    requires perPage >= 1
    ensures forall p :: 0 <= p < count ==>
      PageName(p) in WithPages(dir, songs, perPage, count) &&
      WithPages(dir, songs, perPage, count)[PageName(p)] == PageFile(PageData(songs, perPage, p))
  {
    if count > 0 {
      WithPagesWritten(dir, songs, perPage, count - 1);
      forall p | 0 <= p < count - 1
        ensures PageName(p) != PageName(count - 1)
      {
        PageNameFacts(p, count - 1);
      }
    }
  }

  lemma {:induction false} WithPagesKept(dir: map<string, HomeFile>, songs: seq<HomeSong>, perPage: nat, count: nat)
    requires perPage >= 1
    ensures forall n :: n in dir && n !in PageNames(count) ==>
      n in WithPages(dir, songs, perPage, count) && WithPages(dir, songs, perPage, count)[n] == dir[n]
  {
    if count > 0 {
      WithPagesKept(dir, songs, perPage, count - 1);
      assert PageNames(count) == PageNames(count - 1) + [PageName(count - 1)];
    }
  }

  /**
   * After a run the `home_*.json` files are exactly pages `0 .. totalPages
   * - 1`, each holding its page; `index.json` lists those names; and every
   * other file is as it was.
   */
  lemma HomeOutputFacts(dir: map<string, HomeFile>, songs: seq<HomeSong>, perPage: nat, now: string)
    requires perPage >= 1
    ensures var out := HomeOutput(dir, songs, perPage, now);
      var total := TotalPages(|songs|, perPage);
      && (forall p :: 0 <= p < total ==> PageName(p) in out && out[PageName(p)] == PageFile(PageData(songs, perPage, p)))
      && (forall n :: n in out && IsPageName(n) <==> n in PageNames(total))
      && IndexName in out && out[IndexName] == IndexFile(HomeIndex(|songs|, total, perPage, now, PageNames(total)))
      && (forall n :: n in dir && !IsPageName(n) && n != IndexName ==> n in out && out[n] == dir[n])
      && (forall n :: n in out ==> n in dir || IsPageName(n) || n == IndexName)
  {
    var total := TotalPages(|songs|, perPage);
    var clean := WithoutPages(dir);
    WithPagesKeys(clean, songs, perPage, total);
    WithPagesWritten(clean, songs, perPage, total);
    WithPagesKept(clean, songs, perPage, total);
    forall p | 0 <= p < total
      ensures IsPageName(PageName(p)) && PageName(p) != IndexName
    {
      PageNameFacts(p, p);
    }
    assert !IsPageName(IndexName) by {
      assert IndexName[0] != PagePrefix[0];
    }
  }

  /* ---------------------------------------------------------------------- */
  /* The run                                                                 */
  /* ---------------------------------------------------------------------- */

  /** The loop deleting every `home_*.json` file of the output directory. */
  method RemovePages(dir: map<string, HomeFile>) returns (out: map<string, HomeFile>)
    ensures out == WithoutPages(dir)
  {
    var existing := set n | n in dir && IsPageName(n);
    var pending := existing;
    out := dir;
    while pending != {}
      invariant pending <= existing
      invariant out == map n | n in dir && (!IsPageName(n) || n in pending) :: dir[n]
      decreases pending
    {
      var stale :| stale in pending;
      out := map n | n in out && n != stale :: out[n];
      pending := pending - {stale};
    }
  }

  /** The loop writing `home_{page}.json` for every page. */
  method WritePages(dir: map<string, HomeFile>, songs: seq<HomeSong>, perPage: nat) returns (out: map<string, HomeFile>)
    requires perPage >= 1
    ensures out == WithPages(dir, songs, perPage, TotalPages(|songs|, perPage))
  {
    var totalPages := TotalPages(|songs|, perPage);
    out := dir;
    for page := 0 to totalPages
      invariant out == WithPages(dir, songs, perPage, page)
    {
      var pageData := BuildPage(songs, perPage, page);
      out := out[PageName(page) := PageFile(pageData)];
    }
  }

  /** One turn of the page loop: the record written to `home_{page}.json`. */
  method BuildPage(songs: seq<HomeSong>, perPage: nat, page: nat) returns (pageData: HomePage)
    requires perPage >= 1
    ensures pageData == PageData(songs, perPage, page)
  {
    var totalPages := TotalPages(|songs|, perPage);
    var start := page * perPage;
    var pageSongs := songs[Min(start, |songs|)..Min(start + perPage, |songs|)];
    pageData := HomePage(page, totalPages, |songs|, perPage, start, start + |pageSongs| - 1, pageSongs);
  }

  /**
   * `main()`: nothing changes when the song-post directory cannot be read;
   * otherwise the output directory becomes `HomeOutput` of the sorted songs.
   */
  method GenerateHomePages(
    source: Option<seq<DirEntry>>, args: seq<string>, collate: (string, string) -> bool,
    now: string, outDir: map<string, HomeFile>)
    returns (out: map<string, HomeFile>)
    ensures source.None? ==> out == outDir
    ensures source.Some? ==> out == HomeOutput(outDir, HomeSongs(source.value, collate), PerPage(args), now)
  {
    if source.None? {
      return outDir;
    }
    var files := SortBy(JsonEntries(source.value), NameOf, collate);
    var songs := CollectSongs(files);
    songs := SortBy(songs, Title, collate);
    var perPage: nat := PerPage(args);
    out := RemovePages(outDir);
    out := WritePages(out, songs, perPage);
    var totalPages := TotalPages(|songs|, perPage);
    out := out[IndexName := IndexFile(HomeIndex(|songs|, totalPages, perPage, now, PageNames(totalPages)))];
  }
}
