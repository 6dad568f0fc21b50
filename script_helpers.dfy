/**
 * The helpers that the home-page and artist-page generators each define for
 * themselves. The two copies have the same text except for the default
 * preview length (220 and 180), which here is a parameter. They repeat what
 * the song-post library does, with different guards; each one is stated
 * against its library counterpart.
 */
module ScriptHelpers {
  import opened JsValue
  import opened JsString
  import opened JsUnicode
  import SongPosts

  /* ---------------------------------------------------------------------- */
  /* getLyricsPreview                                                        */
  /* ---------------------------------------------------------------------- */

  /** `items.filter((s) => typeof s === "string")` */
  function StringItems(items: seq<Value>): (r: seq<string>)
    ensures |r| <= |items|
    ensures (forall i :: 0 <= i < |items| ==> items[i].Str?) ==>
      |r| == |items| && forall i :: 0 <= i < |r| ==> r[i] == items[i].s
  {
    if items == [] then []
    else (if items[0].Str? then [items[0].s] else []) + StringItems(items[1..])
  }

  /**
   * The text a preview is taken from: a string itself, the strings of an
   * array joined by single spaces, and nothing for any other value.
   */
  function PreviewSource(lyrics: Value): string {
    match lyrics
    case Arr(items) => Join(StringItems(items), " ")
    case Str(s) => s
    case _ => []
  }

  /**
   * `getLyricsPreview(lyrics, maxLength)` of the page generators: the
   * collapsed source text cut down by `Shorten`. Under a non-negative
   * maximum, a value that is neither a string nor an array previews as `""`.
   */
  function LyricsPreview(lyrics: Value, maxLength: int): (r: string)
    ensures maxLength >= 0 && !lyrics.Str? && !lyrics.Arr? ==> r == []
  {
    var text := SongPosts.Collapsed(PreviewSource(lyrics));
    assert !lyrics.Str? && !lyrics.Arr? ==> text == [] by {
      if !lyrics.Str? && !lyrics.Arr? {
        assert text == Trim(CollapseSpaces([]));
        assert CollapseSpaces([]) == [];
        assert Trim([]) == [];
      }
    }
    Shorten(text, maxLength)
  }

  /**
   * The text when it fits in `maxLength` characters, otherwise its first
   * `maxLength - 1` characters without trailing whitespace followed by
   * `"..."` (a negative end counting from the end of the text).
   */
  function Shorten(text: string, maxLength: int): (r: string)
    ensures |text| <= maxLength ==> r == text
  {
    if |text| <= maxLength then text
    else TrimEnd(SliceTo(text, maxLength - 1)) + SongPosts.Ellipsis
  }

  /**
   * For any maximum of at least 1 the generators' preview is the library's
   * preview of the source text. (Below 1 they part ways: `slice` with a
   * negative end counts from the end, where the library clamps it to 0.)
   */
  lemma LyricsPreviewAgrees(lyrics: Value, maxLength: int)
    requires maxLength >= 1
    ensures LyricsPreview(lyrics, maxLength) == SongPosts.GetLyricsPreview(PreviewSource(lyrics), maxLength)
  {
    ShortenAgrees(PreviewSource(lyrics), maxLength);
  }

  lemma ShortenAgrees(source: string, maxLength: int)
    requires maxLength >= 1
    ensures Shorten(SongPosts.Collapsed(source), maxLength) == SongPosts.GetLyricsPreview(source, maxLength)
  {
    var text := SongPosts.Collapsed(source);
    if |text| > maxLength {
      PreviewLong(source, maxLength);
      AbbreviateShape(text, maxLength - 1);
    }
  }

  lemma PreviewLong(lyrics: string, maxLength: int)
    requires |SongPosts.Collapsed(lyrics)| > maxLength
    ensures SongPosts.GetLyricsPreview(lyrics, maxLength)
         == SongPosts.Abbreviate(SongPosts.Collapsed(lyrics), SongPosts.Max(0, maxLength - 1))
  {
  }

  lemma AbbreviateShape(text: string, m: nat)
    requires m <= |text|
    ensures SongPosts.Abbreviate(text, m) == TrimEnd(SliceTo(text, m)) + SongPosts.Ellipsis
  {
  }

  /* ---------------------------------------------------------------------- */
  /* splitAuthors                                                            */
  /* ---------------------------------------------------------------------- */

  /**
   * `splitAuthors(author)` of the page generators: anything but a non-empty
   * string gives `["Desconocido"]`; a string splits exactly as the
   * library's `splitAuthors` splits it.
   */
  function SplitAuthors(author: Value): (r: seq<string>)
    ensures author.Str? ==> r == SongPosts.SplitAuthors(author.s)
    ensures !author.Str? ==> r == [SongPosts.UnknownAuthor]
  {
    if !Truthy(author) || !author.Str? then
      assert author.Str? ==> SongPosts.AuthorTokens(author.s) == [] by {
        if author.Str? {
          assert Split(author.s, ',') == [[]];
          assert Trim([]) == [];
        }
      }
      [SongPosts.UnknownAuthor]
    else
      var tokens := SongPosts.AuthorTokens(author.s);
      if |tokens| > 0 then tokens else [SongPosts.UnknownAuthor]
  }

  /* ---------------------------------------------------------------------- */
  /* buildThumbnailUrl                                                       */
  /* ---------------------------------------------------------------------- */

  /**
   * `buildThumbnailUrl(youtubeId)` of the page generators (`None` is
   * `null`): no URL for a missing or blank id, otherwise the high-quality
   * thumbnail of the trimmed, percent-encoded id.
   */
  function BuildThumbnailUrl(youtubeId: Option<string>): (r: Option<string>)
    ensures r.None? <==> youtubeId.None? || AllSpace(youtubeId.value)
  {
    if youtubeId.None? || youtubeId.value == [] || Trim(youtubeId.value) == [] then None
    else
      Some(SongPosts.ThumbnailHost + EncodeURIComponent(Trim(youtubeId.value)) + "/hqdefault.jpg")
  }

  /** A non-blank id gets the library's high-quality thumbnail of the trimmed id. */
  lemma BuildThumbnailUrlAgrees(youtubeId: Option<string>)
    ensures BuildThumbnailUrl(youtubeId) ==
      if youtubeId.None? || AllSpace(youtubeId.value) then None
      else SongPosts.BuildYouTubeThumbnailUrl(Some(Trim(youtubeId.value)), SongPosts.HqDefault)
  {
    if youtubeId.Some? && !AllSpace(youtubeId.value) {
      var segment := EncodeURIComponent(Trim(youtubeId.value));
      assert "/hqdefault.jpg" == "/" + SongPosts.SizeName(SongPosts.HqDefault) + ".jpg";
      assert SongPosts.ThumbnailHost + segment + "/hqdefault.jpg"
          == SongPosts.ThumbnailHost + segment + "/" + SongPosts.SizeName(SongPosts.HqDefault) + ".jpg";
    }
  }

  /* ---------------------------------------------------------------------- */
  /* Guarded reads of a raw field                                           */
  /* ---------------------------------------------------------------------- */

  /**
   * `v && typeof v === "string" ? v.trim() : null`: a non-empty string is
   * trimmed, possibly to `""`. It agrees with the library's nullable read
   * except on a blank string, which the library turns into `null`.
   */
  function TrimmedString(v: Value): (r: Option<string>)
    ensures r.Some? <==> v.Str? && v.s != []
    ensures r.Some? ==> IsTrimmed(r.value)
    ensures r.Some? && r.value != [] <==> SongPosts.ToNullableString(v).Some?
    ensures r.Some? && r.value != [] ==> r == SongPosts.ToNullableString(v)
  {
    if Truthy(v) && v.Str? then Some(Trim(v.s)) else None
  }

  /**
   * `v && typeof v === "string" && v.trim() ? v.trim() : null`: the
   * library's nullable read.
   */
  function NonBlankString(v: Value): (r: Option<string>)
    ensures r == SongPosts.ToNullableString(v)
  {
    if Truthy(v) && v.Str? && Trim(v.s) != [] then Some(Trim(v.s)) else None
  }
}
