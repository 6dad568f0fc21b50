/**
 * The normalisation helpers of the song-post library (src/lib/song-posts.ts):
 * cleaning of untyped record fields, YouTube thumbnail URLs, stanza
 * extraction, validation of a raw record into a `SongPost`, author
 * splitting, slugs and lyrics previews.
 */
module SongPosts {
  import opened JsValue
  import opened JsString
  import opened JsUnicode

  /* ---------------------------------------------------------------------- */
  /* toCleanString / toNullableString                                       */
  /* ---------------------------------------------------------------------- */

  /** A string field, trimmed; anything that is not a string reads as `""`. */
  function ToCleanString(v: Value): (r: string)
    ensures IsTrimmed(r)
    ensures r == [] <==> !v.Str? || AllSpace(v.s)
    ensures v.Str? ==> NonSpace(r) == NonSpace(v.s)
  {
    if v.Str? then TrimKeepsNonSpace(v.s); Trim(v.s) else []
  }

  /** Like `ToCleanString`, with `null` in place of the empty string. */
  function ToNullableString(v: Value): (r: Option<string>)
    ensures r.Some? <==> v.Str? && !AllSpace(v.s)
    ensures r.Some? ==> r.value != [] && IsTrimmed(r.value) && r.value == ToCleanString(v)
  {
    var clean := ToCleanString(v);
    if |clean| > 0 then Some(clean) else None
  }

  /* ---------------------------------------------------------------------- */
  /* buildYouTubeThumbnailUrl                                                */
  /* ---------------------------------------------------------------------- */

  const ThumbnailHost: string := "https://i.ytimg.com/vi/"

  datatype ThumbnailSize = HqDefault | MqDefault

  function SizeName(size: ThumbnailSize): string {
    match size
    case HqDefault => "hqdefault"
    case MqDefault => "mqdefault"
  }

  /**
   * The thumbnail URL of a video: none without an id (or with the empty id),
   * otherwise the host, the percent-encoded id as one path segment, and the
   * image name. An id made of URL-safe characters appears verbatim, and
   * distinct ids give distinct URLs (`ThumbnailUrlInjective`).
   */
  function BuildYouTubeThumbnailUrl(youtubeId: Option<string>, size: ThumbnailSize): (r: Option<string>)
    ensures r.None? <==> youtubeId.None? || youtubeId.value == []
    ensures r.Some? ==> exists segment ::
      && r.value == ThumbnailHost + segment + "/" + SizeName(size) + ".jpg"
      && '/' !in segment && segment != []
      && (forall i :: 0 <= i < |segment| ==> IsUriUnreserved(segment[i]) || segment[i] == '%' || IsUpperHexDigit(segment[i]))
      && ((forall i :: 0 <= i < |youtubeId.value| ==> IsUriUnreserved(youtubeId.value[i])) <==> segment == youtubeId.value)
  {
    if youtubeId.None? || youtubeId.value == [] then None
    else
      var segment := EncodeURIComponent(youtubeId.value);
      assert forall i :: 0 <= i < |segment| ==> segment[i] != '/';
      Some(ThumbnailHost + segment + "/" + SizeName(size) + ".jpg")
  }

  /** Two videos share a thumbnail URL only when they have the same id. */
  lemma ThumbnailUrlInjective(a: string, b: string, size: ThumbnailSize)
    requires a != [] && b != []
    requires BuildYouTubeThumbnailUrl(Some(a), size) == BuildYouTubeThumbnailUrl(Some(b), size)
    ensures a == b
  {
    var ea := ThumbnailSegment(a, size);
    var eb := ThumbnailSegment(b, size);
    SameUrlSameSegment(ThumbnailHost, ea, eb, SizeName(size));
    EncodeURIComponentInjective(a, b);
  }

  lemma ThumbnailSegment(id: string, size: ThumbnailSize) returns (segment: string)
    requires id != []
    ensures segment == EncodeURIComponent(id)
    ensures BuildYouTubeThumbnailUrl(Some(id), size) == Some(ThumbnailHost + segment + "/" + SizeName(size) + ".jpg")
  {
    segment := EncodeURIComponent(id);
  }

  /** The path segment sits right after the host and fills all but the image name. */
  lemma SameUrlSameSegment(host: string, s: string, t: string, name: string)
    requires host + s + "/" + name + ".jpg" == host + t + "/" + name + ".jpg"
    ensures s == t
  {
    var u := host + s + "/" + name + ".jpg";
    var v := host + t + "/" + name + ".jpg";
    assert |s| == |t|;
    assert u[|host|..|host| + |s|] == s;
    assert v[|host|..|host| + |t|] == t;
  }

  /* ---------------------------------------------------------------------- */
  /* toLyricStanza                                                           */
  /* ---------------------------------------------------------------------- */

  /** The properties of a stanza object that may hold its text, by priority. */
  const StanzaFields: seq<string> := ["text", "lyric", "lyrics", "stanza", "verse"]

  /** A string with something other than whitespace in it. */
  predicate HasContent(v: Value) {
    v.Str? && !AllSpace(v.s)
  }

  /** The first value with content, trimmed. */
  function FirstContent(candidates: seq<Value>): (r: Option<string>)
    ensures r.None? <==> NoneWithContent(candidates)
    ensures r.Some? ==> r.value != [] && IsTrimmed(r.value)
    ensures forall i :: 0 <= i < |candidates| && HasContent(candidates[i]) && NoneWithContent(candidates[..i]) ==>
      r == Some(Trim(candidates[i].s))
  {
    if candidates == [] then None
    else if HasContent(candidates[0]) then
      assert forall i :: 0 < i < |candidates| ==> candidates[..i][0] == candidates[0];
      Some(Trim(candidates[0].s))
    else
      var r := FirstContent(candidates[1..]);
      assert forall i :: 1 <= i < |candidates| ==> candidates[i] == candidates[1..][i - 1];
      assert forall i :: 1 <= i < |candidates| ==> candidates[..i][1..] == candidates[1..][..i - 1];
      r
  }

  /** No value of the sequence has content. */
  predicate NoneWithContent(candidates: seq<Value>) {
    forall i :: 0 <= i < |candidates| ==> !HasContent(candidates[i])
  }

  /** The values of the stanza properties of an object, in priority order. */
  function StanzaCandidates(fields: map<string, Value>): (r: seq<Value>)
    ensures |r| == |StanzaFields|
    ensures forall i :: 0 <= i < |r| ==> r[i] == Prop(fields, StanzaFields[i])
  {
    seq(|StanzaFields|, i requires 0 <= i < |StanzaFields| => Prop(fields, StanzaFields[i]))
  }

  /**
   * One item of a lyrics array as a stanza: a string is trimmed, an object
   * gives its first stanza property with content, trimmed; blank strings,
   * arrays, `null` and other values give nothing.
   */
  function LyricStanza(v: Value): (r: Option<string>)
    ensures r.Some? ==> r.value != [] && IsTrimmed(r.value)
    ensures v.Str? ==> r == ToNullableString(v)
    ensures v.Obj? ==> r == FirstContent(StanzaCandidates(v.fields))
    ensures !v.Str? && !v.Obj? ==> r == None
  {
    if v.Str? then
      var stanza := Trim(v.s);
      if |stanza| > 0 then Some(stanza) else None
    else if !Truthy(v) || !v.Obj? then None
    else FirstContent(StanzaCandidates(v.fields))
  }

  /** `toLyricStanza`, with its early-return loop over the candidate properties. */
  method ToLyricStanza(v: Value) returns (r: Option<string>)
    ensures r == LyricStanza(v)
  {
    if v.Str? {
      var stanza := Trim(v.s);
      return if |stanza| > 0 then Some(stanza) else None;
    }
    if !Truthy(v) || !v.Obj? {
      return None;
    }
    var candidates := StanzaCandidates(v.fields);
    for i := 0 to |candidates|
      invariant FirstContent(candidates) == FirstContent(candidates[i..])
    {
      assert candidates[i..][1..] == candidates[i + 1..];
      if candidates[i].Str? && |Trim(candidates[i].s)| > 0 {
        return Some(Trim(candidates[i].s));
      }
    }
    return None;
  }

  /* ---------------------------------------------------------------------- */
  /* extractLyricsStanzas                                                    */
  /* ---------------------------------------------------------------------- */

  /** The stanzas of the items of a lyrics array, in order, skipping those that give none. */
  function ArrayStanzas(items: seq<Value>): (r: seq<string>)
    ensures |r| <= |items|
    ensures forall i :: 0 <= i < |r| ==> r[i] != [] && IsTrimmed(r[i])
  {
    if items == [] then []
    else
      var head := LyricStanza(items[0]);
      (if head.Some? then [head.value] else []) + ArrayStanzas(items[1..])
  }

  /**
   * The stanzas of a `lyrics` field: an array gives the stanzas of its
   * items; a string is trimmed and split at every run of four or more
   * newlines, and when that yields at most one non-blank part the whole
   * trimmed text is the only stanza; anything else gives no stanza.
   */
  function ExtractLyricsStanzas(v: Value): (r: seq<string>)
    ensures forall i :: 0 <= i < |r| ==> r[i] != [] && IsTrimmed(r[i])
  {
    if v.Arr? then ArrayStanzas(v.items)
    else
      var text := ToCleanString(v);
      if text == [] then []
      else
        var byLargeGap := TrimmedNonEmpty(SplitGaps(text));
        if |byLargeGap| > 1 then byLargeGap else [text]
  }

  /** The three cases of a string `lyrics` field. */
  lemma {:induction false} StringStanzas(s: string)
    ensures var text := Trim(s);
      var r := ExtractLyricsStanzas(Str(s));
      && (r == [] <==> text == [])
      && (text != [] ==> (r == [text] <==> !HasGap(text)))
      && (HasGap(text) ==> r == TrimmedNonEmpty(SplitGaps(text)) && |r| >= 2)
  {
    var text := Trim(s);
    assert ToCleanString(Str(s)) == text;
    var r := ExtractLyricsStanzas(Str(s));
    if text != [] {
      var byLargeGap := TrimmedNonEmpty(SplitGaps(text));
      assert r == if |byLargeGap| > 1 then byLargeGap else [text];
      if HasGap(text) {
        TwoStanzasAtGap(text);
        assert r == byLargeGap;
      } else {
        SplitGapsNoGap(text);
        TrimmedNonEmptyKeeps([text]);
        assert byLargeGap == [text];
      }
    }
  }

  /** A trimmed text with a gap has a non-blank part on each side of it. */
  lemma {:induction false} TwoStanzasAtGap(text: string)
    requires IsTrimmed(text) && HasGap(text)
    ensures |TrimmedNonEmpty(SplitGaps(text))| >= 2
  {
    var parts := SplitGaps(text);
    SplitGapsSplits(text);
    FirstPieceStartsText(text);
    assert !IsSpace(parts[0][0]);
    SplitGapsLast(text);
    var last := Last(parts);
    assert EndsWith(text, last);
    assert last != [] && last[|last| - 1] == text[|text| - 1];
    assert !IsSpace(last[|last| - 1]);
    TrimmedNonEmptyEnds(parts);
  }

  /** The first piece of a text that does not start with a newline starts with the text's first character. */
  lemma FirstPieceStartsText(text: string)
    requires text != [] && text[0] != '\n'
    ensures SplitGaps(text)[0] != [] && SplitGaps(text)[0][0] == text[0]
  {
    assert !StartsWithGap(text);
  }

  /** String lyrics give stanzas without a gap in them. */
  lemma {:induction false} StringStanzasGapFree(v: Value)
    requires !v.Arr?
    ensures forall i :: 0 <= i < |ExtractLyricsStanzas(v)| ==> !HasGap(ExtractLyricsStanzas(v)[i])
  {
    var text := ToCleanString(v);
    var r := ExtractLyricsStanzas(v);
    if text != [] {
      var parts := SplitGaps(text);
      var byLargeGap := TrimmedNonEmpty(parts);
      if |byLargeGap| > 1 {
        assert r == byLargeGap;
        SplitGapsPiecesGapFree(text);
        TrimmedNonEmptyGapFree(parts);
      } else {
        assert r == [text];
        assert !HasGap(text) by {
          if HasGap(text) {
            TwoStanzasAtGap(text);
          }
        }
      }
    }
  }

  lemma {:induction false} TrimmedNonEmptyGapFree(parts: seq<string>)
    requires forall i :: 0 <= i < |parts| ==> !HasGap(parts[i])
    ensures forall i :: 0 <= i < |TrimmedNonEmpty(parts)| ==> !HasGap(TrimmedNonEmpty(parts)[i])
  {
    forall i | 0 <= i < |parts|
      ensures !HasGap(Trim(parts[i]))
    {
      TrimGapFree(parts[i]);
    }
    TrimmedNonEmptyKeepsProperty(parts, s => !HasGap(s));
  }

  /** A stanza as the library keeps it, and as it can be stored joined. */
  predicate Storable(stanza: string) {
    stanza != [] && IsTrimmed(stanza) && !HasGap(stanza)
  }

  /**
   * Joining stanzas with four newlines and extracting again gives them back,
   * provided none of them holds a run of four newlines itself.
   */
  lemma {:induction false} JoinedStanzasRoundTrip(stanzas: seq<string>)
    requires forall i :: 0 <= i < |stanzas| ==> Storable(stanzas[i])
    ensures ExtractLyricsStanzas(Str(Join(stanzas, Gap))) == stanzas
  {
    if |stanzas| == 1 {
      SplitGapsNoGap(stanzas[0]);
      assert TrimmedNonEmpty([stanzas[0]]) == [stanzas[0]];
    } else if |stanzas| >= 2 {
      var text := Join(stanzas, Gap);
      forall i | 0 <= i < |stanzas|
        ensures stanzas[i][0] != '\n' && stanzas[i][|stanzas[i]| - 1] != '\n'
      {
        assert IsTrimmed(stanzas[i]);
      }
      SplitGapsJoin(stanzas);
      JoinedTrimmed(stanzas);
      TrimmedNonEmptyKeeps(stanzas);
    }
  }

  /** Joined trimmed non-empty stanzas form a trimmed text. */
  lemma {:induction false} JoinedTrimmed(stanzas: seq<string>)
    requires |stanzas| >= 1
    requires forall i :: 0 <= i < |stanzas| ==> stanzas[i] != [] && IsTrimmed(stanzas[i])
    ensures Join(stanzas, Gap) != [] && IsTrimmed(Join(stanzas, Gap))
  {
    if |stanzas| > 1 {
      JoinedTrimmed(stanzas[1..]);
      var rest := Join(stanzas[1..], Gap);
      assert Join(stanzas, Gap) == stanzas[0] + Gap + rest;
    }
  }

  /* ---------------------------------------------------------------------- */
  /* parseSongPost                                                           */
  /* ---------------------------------------------------------------------- */

  datatype SongPost = SongPost(
    slug: string,
    title: string,
    postTitle: string,
    metaDescription: string,
    author: string,
    lyrics: string,
    lyricsStanzas: seq<string>,
    youtubeId: Option<string>,
    thumbnailUrl: Option<string>,
    album: Option<string>,
    content: string,
    generatedAt: Option<string>)

  const UnknownAuthor: string := "Desconocido"

  lemma UnknownAuthorTrimmed()
    ensures UnknownAuthor != [] && IsTrimmed(UnknownAuthor) && ',' !in UnknownAuthor
  {
    assert UnknownAuthor[0] == 'D' && UnknownAuthor[|UnknownAuthor| - 1] == 'o';
    assert UnknownAuthor == ['D', 'e', 's', 'c', 'o', 'n', 'o', 'c', 'i', 'd', 'o'];
  }

  /** Reading a property of the raw record: `raw.key`, which throws on `null`. */
  function RawField(raw: Value, key: string): (r: Value)
    requires !raw.Null? && !raw.Undefined?
    ensures raw.Obj? && key in raw.fields ==> r == raw.fields[key]
    ensures !(raw.Obj? && key in raw.fields) ==> r == Undefined
  {
    Field(raw, key).value
  }

  /** What every post the library accepts satisfies. */
  predicate ValidPost(p: SongPost) {
    && p.slug != [] && IsTrimmed(p.slug)
    && p.title != [] && IsTrimmed(p.title)
    && p.author != [] && IsTrimmed(p.author)
    && (p.album.Some? ==> p.album.value != [] && IsTrimmed(p.album.value))
    && (p.generatedAt.Some? ==> p.generatedAt.value != [] && IsTrimmed(p.generatedAt.value))
    && (p.youtubeId.Some? ==> p.youtubeId.value != [] && IsTrimmed(p.youtubeId.value))
    && (forall i :: 0 <= i < |p.lyricsStanzas| ==> p.lyricsStanzas[i] != [] && IsTrimmed(p.lyricsStanzas[i]))
    && p.lyrics == Join(p.lyricsStanzas, Gap)
    && p.thumbnailUrl == BuildYouTubeThumbnailUrl(p.youtubeId, HqDefault)
  }

  /**
   * Validates a raw record: it throws when the record is `null` or when its
   * trimmed `slug` or `title` is empty. Otherwise every field is cleaned, a
   * blank author becomes "Desconocido", a blank album, date or video id
   * becomes `null`, and `lyrics` is the stanzas joined by four newlines.
   */
  function ParseSongPost(raw: Value): (r: Completion<SongPost>)
    ensures r.Thrown? <==>
      raw.Null? || raw.Undefined? ||
      ToCleanString(RawField(raw, "slug")) == [] || ToCleanString(RawField(raw, "title")) == []
    ensures r.Normal? ==> ValidPost(r.value)
    ensures r.Normal? ==>
      && (ToCleanString(RawField(raw, "author")) == [] ==> r.value.author == UnknownAuthor)
      && (ToCleanString(RawField(raw, "author")) != [] ==> r.value.author == ToCleanString(RawField(raw, "author")))
      && (r.value.album.None? <==> ToCleanString(RawField(raw, "album")) == [])
      && (r.value.album.Some? ==> r.value.album.value == ToCleanString(RawField(raw, "album")))
      && (r.value.generatedAt.None? <==> ToCleanString(RawField(raw, "generated_at")) == [])
      && (r.value.generatedAt.Some? ==> r.value.generatedAt.value == ToCleanString(RawField(raw, "generated_at")))
      && r.value.postTitle == ToCleanString(RawField(raw, "post_title"))
      && r.value.metaDescription == ToCleanString(RawField(raw, "meta_description"))
      && r.value.content == ToCleanString(RawField(raw, "content"))
      && r.value.lyricsStanzas == ExtractLyricsStanzas(RawField(raw, "lyrics"))
  {
    if raw.Null? || raw.Undefined? then Thrown
    else
    var slug := ToCleanString(RawField(raw, "slug"));
    var title := ToCleanString(RawField(raw, "title"));
    if slug == [] || title == [] then Thrown
    else
      var generatedAt := ToNullableString(RawField(raw, "generated_at"));
      var lyricsStanzas := ExtractLyricsStanzas(RawField(raw, "lyrics"));
      var lyrics := Join(lyricsStanzas, Gap);
      var youtubeId := ToNullableString(RawField(raw, "youtube_id"));
      var author := ToCleanString(RawField(raw, "author"));
      var album := ToNullableString(RawField(raw, "album"));
      var post := SongPost(
        slug,
        title,
        ToCleanString(RawField(raw, "post_title")),
        ToCleanString(RawField(raw, "meta_description")),
        if author != [] then author else UnknownAuthor,
        lyrics,
        lyricsStanzas,
        youtubeId,
        BuildYouTubeThumbnailUrl(youtubeId, HqDefault),
        album,
        ToCleanString(RawField(raw, "content")),
        generatedAt);
      UnknownAuthorTrimmed();
      assert ValidPost(post);
      Normal(post)
  }

  /** The text fields of an accepted record are its cleaned fields, the optional ones its nullable reads. */
  lemma ParsedFields(raw: Value)
    requires ParseSongPost(raw).Normal?
    ensures !raw.Null? && !raw.Undefined?
    ensures var p := ParseSongPost(raw).value;
      && p.slug == ToCleanString(RawField(raw, "slug"))
      && p.title == ToCleanString(RawField(raw, "title"))
      && p.postTitle == ToCleanString(RawField(raw, "post_title"))
      && p.metaDescription == ToCleanString(RawField(raw, "meta_description"))
      && p.content == ToCleanString(RawField(raw, "content"))
      && p.youtubeId == ToNullableString(RawField(raw, "youtube_id"))
      && p.album == ToNullableString(RawField(raw, "album"))
      && p.generatedAt == ToNullableString(RawField(raw, "generated_at"))
  {
  }

  /**
   * The stored `lyrics` text gives back the stored stanzas: always for
   * string lyrics, and for array lyrics when no stanza holds a run of four
   * newlines.
   */
  lemma {:induction false} ParsedLyricsRoundTrip(raw: Value)
    requires ParseSongPost(raw).Normal?
    requires RawField(raw, "lyrics").Arr? ==>
      forall i :: 0 <= i < |ParseSongPost(raw).value.lyricsStanzas| ==> !HasGap(ParseSongPost(raw).value.lyricsStanzas[i])
    ensures ExtractLyricsStanzas(Str(ParseSongPost(raw).value.lyrics)) == ParseSongPost(raw).value.lyricsStanzas
  {
    var p := ParseSongPost(raw).value;
    var lyricsField := RawField(raw, "lyrics");
    assert p.lyricsStanzas == ExtractLyricsStanzas(lyricsField);
    if !lyricsField.Arr? {
      StringStanzasGapFree(lyricsField);
    }
    assert forall i :: 0 <= i < |p.lyricsStanzas| ==> Storable(p.lyricsStanzas[i]);
    JoinedStanzasRoundTrip(p.lyricsStanzas);
  }

  /* ---------------------------------------------------------------------- */
  /* splitAuthors                                                            */
  /* ---------------------------------------------------------------------- */

  /** The non-blank comma-separated names of an author field, trimmed. */
  function AuthorTokens(author: string): (r: seq<string>)
    ensures forall i :: 0 <= i < |r| ==> r[i] != [] && IsTrimmed(r[i]) && ',' !in r[i]
  {
    var pieces := Split(author, ',');
    TrimmedNonEmptyCommaFree(pieces);
    TrimmedNonEmpty(pieces)
  }

  lemma {:induction false} TrimmedNonEmptyCommaFree(pieces: seq<string>)
    requires forall i :: 0 <= i < |pieces| ==> ',' !in pieces[i]
    ensures forall i :: 0 <= i < |TrimmedNonEmpty(pieces)| ==> ',' !in TrimmedNonEmpty(pieces)[i]
  {
    if pieces != [] {
      TrimmedNonEmptyCommaFree(pieces[1..]);
      var k := TrimInfix(pieces[0]);
      assert Trim(pieces[0]) == pieces[0][k..k + |Trim(pieces[0])|];
      assert forall c :: c in Trim(pieces[0]) ==> c in pieces[0];
    }
  }

  /**
   * `splitAuthors`: the trimmed non-blank comma-separated names, or
   * `["Desconocido"]` when there are none. The list is never empty and every
   * name is trimmed, non-empty and free of commas.
   */
  function SplitAuthors(author: string): (r: seq<string>)
    ensures |r| >= 1
    ensures forall i :: 0 <= i < |r| ==> r[i] != [] && IsTrimmed(r[i]) && ',' !in r[i]
  {
    UnknownAuthorTrimmed();
    var tokens := AuthorTokens(author);
    if |tokens| > 0 then tokens else [UnknownAuthor]
  }

  /** Names joined by `", "` (as a credit line is written) split back into the same names. */
  lemma {:induction false} SplitAuthorsJoin(names: seq<string>)
    requires |names| >= 1
    requires forall i :: 0 <= i < |names| ==> names[i] != [] && IsTrimmed(names[i]) && ',' !in names[i]
    ensures SplitAuthors(Join(names, ", ")) == names
  {
    TokensOfJoin(names);
  }

  lemma {:induction false} TokensOfJoin(names: seq<string>)
    requires |names| >= 1
    requires forall i :: 0 <= i < |names| ==> names[i] != [] && IsTrimmed(names[i]) && ',' !in names[i]
    ensures TrimmedNonEmpty(Split(Join(names, ", "), ',')) == names
  {
    SplitJoinComma(names);
    TrimmedNonEmptyOfTrims(Split(Join(names, ", "), ','), names);
  }

  /** Each piece trims to the name at the same position. */
  predicate TrimsTo(pieces: seq<string>, names: seq<string>) {
    && |pieces| == |names|
    && (pieces != [] ==> Trim(pieces[0]) == names[0] && TrimsTo(pieces[1..], names[1..]))
  }

  /** Splitting names joined by `", "` at the commas gives each name, after a space but the first. */
  lemma {:induction false} SplitJoinComma(names: seq<string>)
    requires |names| >= 1
    requires forall i :: 0 <= i < |names| ==> IsTrimmed(names[i]) && ',' !in names[i]
    ensures TrimsTo(Split(Join(names, ", "), ','), names)
  {
    if |names| == 1 {
      var n := names[0];
      assert Join(names, ", ") == n;
      SplitWhole(n, ',');
      assert TrimsTo([n][1..], names[1..]);
      assert TrimsTo(Split(Join(names, ", "), ','), names);
    } else {
      var rest := Join(names[1..], ", ");
      SplitJoinComma(names[1..]);
      JoinComma(names);
      SplitAfterPiece(names[0], ',', " " + rest);
      var p := Split(rest, ',');
      SplitLeadingSpace(rest);
      TrimsToLeadingSpace(p, names[1..]);
      var q := [" " + p[0]] + p[1..];
      assert Split(Join(names, ", "), ',') == [names[0]] + q;
      TrimsToCons(q, names);
    }
  }

  lemma TrimsToLeadingSpace(pieces: seq<string>, names: seq<string>)
    requires pieces != [] && TrimsTo(pieces, names)
    ensures TrimsTo([" " + pieces[0]] + pieces[1..], names)
  {
    TrimLeadingSpace(pieces[0]);
    assert ([" " + pieces[0]] + pieces[1..])[1..] == pieces[1..];
  }

  lemma TrimsToCons(pieces: seq<string>, names: seq<string>)
    requires names != [] && IsTrimmed(names[0]) && TrimsTo(pieces, names[1..])
    ensures TrimsTo([names[0]] + pieces, names)
  {
    assert ([names[0]] + pieces)[1..] == pieces;
  }

  lemma {:induction false} TrimmedNonEmptyOfTrims(pieces: seq<string>, names: seq<string>)
    requires TrimsTo(pieces, names)
    requires forall i :: 0 <= i < |names| ==> names[i] != []
    ensures TrimmedNonEmpty(pieces) == names
  {
    if pieces != [] {
      TrimmedNonEmptyOfTrims(pieces[1..], names[1..]);
      assert [names[0]] + names[1..] == names;
    }
  }

  lemma JoinComma(names: seq<string>)
    requires |names| >= 2
    ensures Join(names, ", ") == names[0] + [','] + (" " + Join(names[1..], ", "))
  {
    var j := Join(names[1..], ", ");
    assert Join(names, ", ") == names[0] + ", " + j;
    assert names[0] + ", " + j == names[0] + [','] + (" " + j) by {
      CommaSpace();
      AppendAssoc(names[0], [','], " ");
    }
  }

  lemma CommaSpace()
    ensures ", " == [','] + " "
  {
  }

  lemma {:induction false} SplitLeadingSpace(s: string)
    ensures Split(" " + s, ',') == [" " + Split(s, ',')[0]] + Split(s, ',')[1..]
  {
    assert (" " + s)[1..] == s;
  }

  /**
   * The placeholder list comes out when no comma-separated piece has content,
   * and also for a credit that is exactly the placeholder name.
   */
  lemma {:induction false} SplitAuthorsPlaceholder(author: string)
    ensures AuthorTokens(author) == [] ==> SplitAuthors(author) == [UnknownAuthor]
    ensures SplitAuthors(author) == [UnknownAuthor] <==>
      AuthorTokens(author) == [] || AuthorTokens(author) == [UnknownAuthor]
    ensures SplitAuthors(UnknownAuthor) == [UnknownAuthor] && AuthorTokens(UnknownAuthor) != []
  {
    UnknownAuthorTrimmed();
    SplitWhole(UnknownAuthor, ',');
    TrimmedNonEmptyKeeps([UnknownAuthor]);
    assert AuthorTokens(UnknownAuthor) == [UnknownAuthor];
  }

  /* ---------------------------------------------------------------------- */
  /* slugify                                                                 */
  /* ---------------------------------------------------------------------- */

  const SlugMaxLength: nat := 80

  /** The slug before `.slice(0, 80)`. */
  function SlugBase(text: string): (r: string)
    ensures HyphenSeparated(r) && (r == [] || (r[0] != '-' && r[|r| - 1] != '-'))
    ensures SlugChars(r) == SlugChars(Fold(text))
    ensures r == [] <==> SlugChars(Fold(text)) == []
  {
    StripHyphens(HyphenateRuns(Fold(text)))
  }

  /**
   * `slugify`: folded to lower case without accents, every run of other
   * characters replaced by one hyphen, hyphens trimmed at both ends, cut to
   * 80 characters. The cut can leave a trailing hyphen.
   */
  function Slugify(text: string): (r: string)
    ensures |r| <= SlugMaxLength
    ensures HyphenSeparated(r)
    ensures r == [] || r[0] != '-'
    ensures r != [] && r[|r| - 1] == '-' ==> |SlugBase(text)| > SlugMaxLength
    ensures r == [] <==> SlugChars(Fold(text)) == []
    ensures r <= SlugBase(text) && (|SlugBase(text)| <= SlugMaxLength ==> r == SlugBase(text))
  {
    var base := SlugBase(text);
    var r := SliceTo(base, SlugMaxLength as int);
    HyphenSeparatedInfix(base, 0, |r|);
    assert base[0..|r|] == r;
    r
  }

  /** A slug cut in the middle of a word boundary ends with a hyphen. */
  lemma {:induction false} SlugifyTrailingHyphen()
    ensures var text := seq(79, i => 'a') + " b";
      Slugify(text) == seq(79, i => 'a') + "-"
  {
    var word := seq(79, i => 'a');
    var text := word + " b";
    FoldAscii(text);
    HyphenateWordGap(word);
    assert HyphenateRuns(text) == word + "-b";
    assert DropLeadingHyphens(word + "-b") == word + "-b";
    assert DropTrailingHyphens(word + "-b") == word + "-b";
    assert (word + "-b")[..80] == word + "-";
  }

  lemma {:induction false} FoldAscii(s: string)
    requires forall i :: 0 <= i < |s| ==> 'a' <= s[i] <= 'z' || s[i] == ' '
    ensures Fold(s) == s
  {
    if s != [] {
      FoldAscii(s[1..]);
      assert [s[0]] + s[1..] == s;
    }
  }

  lemma {:induction false} HyphenateWordGap(word: string)
    requires forall i :: 0 <= i < |word| ==> 'a' <= word[i] <= 'z'
    ensures HyphenateRuns(word + " b") == word + "-b"
  {
    if word == [] {
      assert word + " b" == " b" && word + "-b" == "-b";
      assert " b"[1..] == "b" && "b"[1..] == [];
      assert DropNonSlug(" b") == "b";
      assert HyphenateRuns("b") == "b";
    } else {
      assert (word + " b")[1..] == word[1..] + " b";
      HyphenateWordGap(word[1..]);
      assert [word[0]] + word[1..] == word;
    }
  }

  /** Text made only of `[a-z0-9]` is its own fold. */
  lemma {:induction false} FoldPlain(s: string)
    requires forall i :: 0 <= i < |s| ==> IsSlugChar(s[i])
    ensures Fold(s) == s
  {
    if s != [] {
      FoldPlain(s[1..]);
      assert [s[0]] + s[1..] == s;
    }
  }

  /** Whitespace is left alone by the fold. */
  lemma {:induction false} FoldSpaces(w: string)
    requires AllSpace(w)
    ensures Fold(w) == w
  {
    if w != [] {
      FoldSpaces(w[1..]);
      assert [w[0]] + w[1..] == w;
    }
  }

  lemma {:induction false} FoldAppend(a: string, b: string)
    ensures Fold(a + b) == Fold(a) + Fold(b)
  {
    if a != [] {
      AppendTail(a, b);
      FoldAppend(a[1..], b);
    } else {
      assert a + b == b;
    }
  }

  /** Two words of `[a-z0-9]` separated by a whitespace run become the words joined by one hyphen. */
  lemma SlugBaseWordGap(x: string, w: string, y: string)
    requires x != [] && forall i :: 0 <= i < |x| ==> IsSlugChar(x[i])
    requires y != [] && forall i :: 0 <= i < |y| ==> IsSlugChar(y[i])
    requires w != [] && AllSpace(w)
    ensures SlugBase(x + w + y) == x + "-" + y
  {
    FoldWords(x, w, y);
    assert NoSlugChars(w);
    HyphenateWordRun(x, w, y);
    var h := x + "-" + y;
    assert h[0] == x[0] && h[|h| - 1] == y[|y| - 1];
    assert StripHyphens(h) == h;
  }

  lemma FoldWords(x: string, w: string, y: string)
    requires forall i :: 0 <= i < |x| ==> IsSlugChar(x[i])
    requires forall i :: 0 <= i < |y| ==> IsSlugChar(y[i])
    requires AllSpace(w)
    ensures Fold(x + w + y) == x + w + y
  {
    FoldAppend(x + w, y);
    FoldAppend(x, w);
    FoldPlain(x);
    FoldPlain(y);
    FoldSpaces(w);
  }

  /* ---------------------------------------------------------------------- */
  /* getLyricsPreview                                                        */
  /* ---------------------------------------------------------------------- */

  /** `lyrics.replace(/\s+/g, " ").trim()`: same non-whitespace characters, no whitespace at the ends. */
  function Collapsed(lyrics: string): (r: string)
    ensures IsTrimmed(r)
    ensures NonSpace(r) == NonSpace(lyrics)
  {
    var c := CollapseSpaces(lyrics);
    TrimKeepsNonSpace(c);
    Trim(c)
  }

  /** Inside the collapsed text every whitespace character is a space, and no two are adjacent. */
  lemma CollapsedSpacing(lyrics: string)
    ensures var r := Collapsed(lyrics);
      && (forall i :: 0 <= i < |r| && IsSpace(r[i]) ==> r[i] == ' ')
      && NoAdjacentSpaces(r)
  {
    TrimCollapsed(CollapseSpaces(lyrics));
  }

  /** Two trimmed texts separated by a whitespace run collapse to the texts joined by one space. */
  lemma CollapsedWordGap(x: string, w: string, y: string)
    requires x != [] && IsTrimmed(x) && y != [] && IsTrimmed(y)
    requires w != [] && AllSpace(w)
    ensures Collapsed(x + w + y) == Collapsed(x) + " " + Collapsed(y)
  {
    CollapseWordGap(x, w, y);
    CollapseTrimmed(x);
    CollapseTrimmed(y);
    var cx, cy := CollapseSpaces(x), CollapseSpaces(y);
    var c := cx + " " + cy;
    assert c[0] == cx[0] && c[|c| - 1] == cy[|cy| - 1];
  }

  /** Trimming collapsed text keeps it collapsed. */
  lemma {:induction false} TrimCollapsed(c: string)
    requires forall i :: 0 <= i < |c| && IsSpace(c[i]) ==> c[i] == ' '
    requires NoAdjacentSpaces(c)
    ensures forall i :: 0 <= i < |Trim(c)| && IsSpace(Trim(c)[i]) ==> Trim(c)[i] == ' '
    ensures NoAdjacentSpaces(Trim(c))
  {
    var k := TrimInfix(c);
    var r := Trim(c);
    forall i | 0 <= i < |r|
      ensures r[i] == c[k + i]
    {
    }
  }

  function Max(a: int, b: int): int {
    if a >= b then a else b
  }

  const Ellipsis: string := "..."

  /**
   * `getLyricsPreview`: the whitespace-collapsed text when it fits in
   * `maxLength` characters; otherwise its first `max(0, maxLength - 1)`
   * characters, trailing whitespace removed, followed by `"..."`.
   */
  function GetLyricsPreview(lyrics: string, maxLength: int := 180): (r: string)
    ensures var collapsed := Collapsed(lyrics);
      && (|collapsed| <= maxLength ==> r == collapsed)
      && (|collapsed| > maxLength ==>
            && |r| >= |Ellipsis| && r[|r| - |Ellipsis|..] == Ellipsis
            && Truncation(collapsed, Max(0, maxLength - 1), r[..|r| - |Ellipsis|]))
  {
    var collapsed := Collapsed(lyrics);
    if |collapsed| <= maxLength then collapsed
    else Abbreviate(collapsed, Max(0, maxLength - 1))
  }

  /** A preview is at most two characters longer than `maxLength` (three when `maxLength` is below 1). */
  lemma PreviewLength(lyrics: string, maxLength: int)
    ensures |GetLyricsPreview(lyrics, maxLength)| <= Max(maxLength, 1) + 2
  {
    var collapsed := Collapsed(lyrics);
    var r := GetLyricsPreview(lyrics, maxLength);
    if |collapsed| > maxLength {
      assert r == Abbreviate(collapsed, Max(0, maxLength - 1));
      assert |r| <= Max(maxLength, 1) + 2;
    } else {
      assert r == collapsed;
      assert |r| <= Max(maxLength, 1) + 2;
    }
  }

  /** `text.slice(0, m).trimEnd() + "..."` */
  function Abbreviate(text: string, m: nat): (r: string)
    requires m <= |text|
    ensures |r| >= |Ellipsis| && r[|r| - |Ellipsis|..] == Ellipsis
    ensures Truncation(text, m, r[..|r| - |Ellipsis|])
    ensures |r| <= m + 3
  {
    var kept := TrimEnd(SliceTo(text, m));
    TruncationOfCut(text, m);
    assert |Ellipsis| == 3;
    assert (kept + Ellipsis)[..|kept|] == kept;
    kept + Ellipsis
  }

  /**
   * `kept` is what is left of the first `m` characters of `text` once
   * trailing whitespace is removed.
   */
  predicate Truncation(text: string, m: nat, kept: string) {
    && m <= |text|
    && kept <= text
    && |kept| <= m
    && (kept == [] || !IsSpace(kept[|kept| - 1]))
    && AllSpace(text[|kept|..m])
  }

  lemma TruncationOfCut(text: string, m: nat)
    requires m <= |text|
    ensures Truncation(text, m, TrimEnd(SliceTo(text, m)))
  {
    var cut := SliceTo(text, m);
    var kept := TrimEnd(cut);
    TrimEndShape(cut);
    assert cut == text[..m];
    assert cut[|kept|..] == text[|kept|..m];
  }
}
