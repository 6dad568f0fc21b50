# Coros Cristianos build pipeline, modelled in Dafny

Coros Cristianos is a static lyrics site for Christian choruses. Its content
is one JSON record per song (`content/song-posts/*.json`: slug, title,
comma-separated authors, album, lyrics as a string or as an array of
stanzas, YouTube id, …). At build time a set of Node scripts turns these
records into derived JSON artifacts that the pages read, and a TypeScript
library normalises the records for the pages themselves. This project
models that pipeline and proves what each step guarantees.

| module | file | models |
|---|---|---|
| `JsValue` | js_value.dfy | JSON values plus `undefined`, truthiness, property access that throws on `null`, and a `Completion` (a value or a thrown error) |
| `JsString` | js_string.dfy | the string built-ins the code relies on: `trim`, the `\s` class, `replace(/\s+/g, " ")`, `split`, `split(/\n{4,}/)`, `join`, `slice`, the slug regular expressions, `indexOf`, `String(n)`, `parseInt` |
| `JsUnicode` | js_unicode.dfy | the case and accent fold at the head of `slugify`, and `encodeURIComponent` (UTF-8 percent-encoding, section 2.1 of RFC 3986) |
| `Sorting` | sorting.dfy | `Array.prototype.sort` with a `localeCompare` comparator: a stable sort under a total preorder |
| `Files` | files.dfy | directory listings whose files hold parsed JSON or malformed text |
| `SongPosts` | song_posts.dfy | `src/lib/song-posts.ts`: field cleaning, thumbnail URLs, stanza extraction, `parseSongPost`, `splitAuthors`, `slugify`, `getLyricsPreview` |
| `ScriptHelpers` | script_helpers.dfy | the copies of `getLyricsPreview`, `splitAuthors` and `buildThumbnailUrl` in the home and artist generators, each related to the library's version |
| `HomePages` | home_pages.dfy | `scripts/generate-home-pages.mjs`: the `--per-page` flag, `extractHomeFields`, the collect, sort, clean, paginate and index steps |
| `ArtistPages` | artist_pages.dfy | `scripts/generate-artist-pages.mjs`: grouping songs by author slug, skip counting, sorting, the representative thumbnail, the artist files and index |
| `VideosPage` | videos_page.dfy | `scripts/generate-videos-page.mjs`: the artist-file filter, qualifying songs, stride sampling, bucket order, flattening and totals |
| `SearchIndex` | search_index.dfy | `scripts/generate-search-index.mjs`: the batched collection, the `{t, a, s, al}` projection, the slug filter, the title sort |
| `LyricsJson` | lyrics_json.dfy | `scripts/generate-lyrics-json.mjs`: the slug check, its own stanza extraction, field defaults, the lyrics join and the per-slug files |
| `SyncSongPosts` | sync_song_posts.dfy | `scripts/sync-song-posts.mjs`: source-directory choice, `normalizeSongPost`, the copy loop and the removal of stale files |
| `Site` | site.dfy | `src/lib/site.ts`: `getSiteUrl` and `getSitePathPrefix` |

Pure helpers are functions with contracts. The generators' loops are
methods whose `ensures` tie what they compute, or the output directory they
leave, to a specification function; the lemmas beside each specification
state what the script promises (pages that cover the sorted songs, one
artist file per distinct slug, the files a run keeps and removes, …). Each
output directory is a `map` from file names to the documents written, and
a script that stops on an error returns `Thrown` together with whatever it
had already written.

Each script keeps its own copy of the helpers it uses, and each copy is
modelled as written: the home and artist generators trim a field only when
it is a string and throw a `TypeError` on a truthy non-string, the lyrics
exporter's stanza extraction differs from the library's, and lemmas such as
`HomePages.HomeFieldsAgreeWithPost`, `ArtistPages.SongDataAgreesWithHome`,
`LyricsJson.ItemStanzaRefines` and `ScriptHelpers.LyricsPreviewAgrees` say
exactly where the copies agree and where they part.

## Model

| member | source | states |
|---|---|---|
| JsValue.Field | scripts/generate-lyrics-json.mjs:33-38 | a property read throws exactly on `null` and `undefined`; on an object it is the property, `undefined` when absent; on any other value `undefined` |
| JsValue.Min | scripts/generate-home-pages.mjs:189 | `Math.min`: a lower bound of both arguments and one of them |
| Files.JsonEntries | scripts/generate-lyrics-json.mjs:21-23 | `filter((f) => f.endsWith(".json"))` keeps exactly the `.json` names of the listing, nothing else |
| Files.ReadJson | scripts/generate-lyrics-json.mjs:30-31 | reading and parsing succeeds exactly for a file whose text is JSON, and gives its value |
| Files.FileName | scripts/generate-lyrics-json.mjs:64 | `${slug}.json` ends in `.json` |
| JsUnicode.FoldChar | src/lib/song-posts.ts:243-245 | at most one character comes out; lower-case ASCII letters and digits are unchanged |
| JsUnicode.Fold | src/lib/song-posts.ts:243-245 | folding never lengthens the text |
| JsUnicode.Utf8 | src/lib/song-posts.ts:89 | one to four bytes, each below 256 |
| JsUnicode.HexDigit | src/lib/song-posts.ts:89 | an upper-case hexadecimal digit |
| JsUnicode.PercentBytes | src/lib/song-posts.ts:89 | three characters per byte, each `%` or an upper-case hexadecimal digit |
| JsUnicode.EncodeURIComponent | src/lib/song-posts.ts:89 | the result holds only unreserved characters, `%` and hexadecimal digits, is never shorter, and equals the input exactly when every input character is unreserved |
| JsUnicode.Utf8Decodes | src/lib/song-posts.ts:89 | the UTF-8 bytes of a character decode back to its code point, and the lead byte gives the number of bytes |
| JsUnicode.Utf8Injective | src/lib/song-posts.ts:89 | distinct characters have distinct UTF-8 bytes |
| JsUnicode.PercentBytesAt | src/lib/song-posts.ts:89 | the `i`-th `%XY` triple holds the `i`-th byte |
| JsUnicode.HexDigitInjective | src/lib/song-posts.ts:89 | distinct values give distinct hexadecimal digits |
| JsUnicode.PercentBytesPrefix | src/lib/song-posts.ts:89 | where two percent-encodings agree, the bytes they encode agree |
| JsUnicode.EncodedBytesPrefix | src/lib/song-posts.ts:89 | where the percent-encodings of two characters agree, the characters are equal |
| JsUnicode.EncodeCharPrefix | src/lib/song-posts.ts:89 | no character's encoding is a proper prefix of another's: two encoded texts that agree start with the same character and agree after it |
| JsUnicode.EncodeURIComponentInjective | src/lib/song-posts.ts:89 | distinct texts have distinct encodings |
| JsString.TrimStart | src/lib/song-posts.ts:76 | never longer, and starts with a non-whitespace character |
| JsString.TrimStartShape | src/lib/song-posts.ts:76 | `trimStart` drops exactly a whitespace prefix |
| JsString.TrimEnd | src/lib/song-posts.ts:275 | never longer, and ends with a non-whitespace character |
| JsString.TrimEndShape | src/lib/song-posts.ts:275 | `trimEnd` drops exactly a whitespace suffix |
| JsString.Trim | src/lib/song-posts.ts:76 | trimmed, never longer, empty exactly for blank text, and the identity on trimmed text |
| JsString.TrimEmptyIff | src/lib/song-posts.ts:76 | trimming empties exactly the blank strings |
| JsString.TrimStartKeepsNonSpace | src/lib/song-posts.ts:76 | `trimStart` removes whitespace only |
| JsString.TrimKeepsNonSpace | src/lib/song-posts.ts:76 | `trim` removes whitespace only |
| JsString.TrimInfix | src/lib/song-posts.ts:76 | the trimmed text is an infix of the text |
| JsString.TrimLeadingSpace | src/lib/song-posts.ts:236 | a leading space does not change the trimmed text |
| JsString.CollapseSpaces | src/lib/song-posts.ts:269 | `replace(/\s+/g, " ")`: empty exactly for empty text, starts with whitespace exactly when the text does, every whitespace is a single space with no two adjacent, and the non-whitespace characters are kept in order; where each run goes is stated by `JsString.CollapseRun` and `JsString.CollapseAppend` |
| JsString.TrimStartAppend | src/lib/song-posts.ts:269 | `trimStart` of a concatenation is `trimStart` of the first part followed by the second, or `trimStart` of the second when the first is blank |
| JsString.CollapseRun | src/lib/song-posts.ts:269 | a non-empty whitespace run becomes exactly one space |
| JsString.CollapseAppend | src/lib/song-posts.ts:269 | text split anywhere except inside a whitespace run collapses part by part, so every run keeps its place |
| JsString.CollapseAppendAtRun | src/lib/song-posts.ts:269 | the same, for a first part that starts with whitespace |
| JsString.CollapseAppendRun | src/lib/song-posts.ts:269 | the same, for a first part that is one whole whitespace run |
| JsString.CollapseAppendPastRun | src/lib/song-posts.ts:269 | the step past a leading run |
| JsString.CollapseAppendPastChar | src/lib/song-posts.ts:269 | the step past a leading non-whitespace character |
| JsString.TrimStartRest | src/lib/song-posts.ts:269 | what `trimStart` leaves of non-blank text is shorter, non-empty and ends where the text ends |
| JsString.CollapseKeepsLast | src/lib/song-posts.ts:269 | a final non-whitespace character stays last |
| JsString.CollapseWordGap | src/lib/song-posts.ts:269 | two words with a whitespace run between them collapse to the collapsed words joined by one space |
| JsString.CollapseTrimmed | src/lib/song-posts.ts:269 | collapsing trimmed non-empty text gives trimmed non-empty text |
| JsString.CollapseAtChar | src/lib/song-posts.ts:269 | a leading non-whitespace character is kept in front |
| JsString.CollapseAtSpace | src/lib/song-posts.ts:269 | a leading run becomes one space in front of the rest |
| JsString.CollapsedCons | src/lib/song-posts.ts:269 | putting one character in front of collapsed text keeps it collapsed |
| JsString.Split | src/lib/song-posts.ts:235 | `split(",")`: at least one piece, none holding the separator |
| JsString.SplitJoin | src/lib/song-posts.ts:235 | joining the pieces with the separator gives the string back |
| JsString.SplitAfterPiece | src/lib/song-posts.ts:235 | a separator-free prefix followed by the separator splits off as one piece |
| JsString.SplitWhole | src/lib/song-posts.ts:235 | a separator-free string does not split |
| JsString.DropNewlines | src/lib/song-posts.ts:128 | drops exactly the leading run of newlines |
| JsString.SplitGaps | src/lib/song-posts.ts:128 | `split(/\n{4,}/)` gives at least one piece |
| JsString.SplitGapsFirst | src/lib/song-posts.ts:128 | the first piece is a prefix of the text, all of it when nothing splits |
| JsString.SplitGapsLast | src/lib/song-posts.ts:128 | the last piece is a suffix of the text, empty only after a trailing newline |
| JsString.SplitGapsSplits | src/lib/song-posts.ts:128 | a run of four newlines always splits the text |
| JsString.SplitGapsPiecesGapFree | src/lib/song-posts.ts:128 | no piece holds a run of four newlines |
| JsString.SplitGapsNoGap | src/lib/song-posts.ts:128 | text without such a run is not split |
| JsString.SplitGapsAfterPiece | src/lib/song-posts.ts:128 | a gap between a piece and a rest that do not touch it with a newline is exactly one separator |
| JsString.SplitGapsJoin | src/lib/song-posts.ts:128-149 | joining gap-free pieces by four newlines and splitting gives the pieces back |
| JsString.Join | src/lib/song-posts.ts:149 | `parts.join(sep)` starts with the first part and ends with the last |
| JsString.JoinStartsWithFirst | src/lib/song-posts.ts:149 | a join starts with the first piece's first character |
| JsString.DropNonSlug | src/lib/song-posts.ts:247 | never longer; starts with a slug character |
| JsString.DropNonSlugShape | src/lib/song-posts.ts:247 | drops exactly a prefix of non-slug characters |
| JsString.HyphenateRuns | src/lib/song-posts.ts:247 | `replace(/[^a-z0-9]+/g, "-")`: empty exactly for empty text, starts with a hyphen exactly when the text starts with a non-slug character, hyphen-separated, and keeps the slug characters in order; where each run goes is stated by `JsString.HyphenateRun` and `JsString.HyphenateAppend` |
| JsString.DropNonSlugAppend | src/lib/song-posts.ts:247 | dropping the leading non-slug run of a concatenation touches the second part only when the first has no slug character |
| JsString.HyphenateRun | src/lib/song-posts.ts:247 | a non-empty run outside `[a-z0-9]` becomes exactly one hyphen |
| JsString.HyphenateAppend | src/lib/song-posts.ts:247 | text split anywhere except inside a non-slug run is hyphenated part by part, so every run keeps its place |
| JsString.HyphenateAppendAtRun | src/lib/song-posts.ts:247 | the same, for a first part that starts outside `[a-z0-9]` |
| JsString.HyphenateAppendRun | src/lib/song-posts.ts:247 | the same, for a first part that is one whole non-slug run |
| JsString.HyphenateAppendPastRun | src/lib/song-posts.ts:247 | the step past a leading run |
| JsString.HyphenateAppendPastChar | src/lib/song-posts.ts:247 | the step past a leading slug character |
| JsString.DropNonSlugRest | src/lib/song-posts.ts:247 | what is left after the leading non-slug run is shorter, non-empty and ends where the text ends |
| JsString.HyphenateWordRun | src/lib/song-posts.ts:247 | a non-slug run between two words of `[a-z0-9]` becomes one hyphen between them |
| JsString.PlainSlug | src/lib/song-posts.ts:247 | text made only of `[a-z0-9]` is unchanged |
| JsString.HyphenateAtSlug | src/lib/song-posts.ts:247 | a leading slug character is kept in front |
| JsString.HyphenateAtRun | src/lib/song-posts.ts:247 | a leading non-slug run becomes one hyphen in front of the rest |
| JsString.DropLeadingHyphens | src/lib/song-posts.ts:248 | never longer; does not start with a hyphen |
| JsString.DropLeadingShape | src/lib/song-posts.ts:248 | drops exactly a prefix of hyphens |
| JsString.DropTrailingHyphens | src/lib/song-posts.ts:248 | never longer; does not end with a hyphen |
| JsString.DropTrailingShape | src/lib/song-posts.ts:248 | drops exactly a suffix of hyphens |
| JsString.StripHyphens | src/lib/song-posts.ts:248 | `replace(/^-+\|-+$/g, "")`: no hyphen at either end, the slug characters kept, hyphen-separated text stays so and is emptied exactly when it has no slug character |
| JsString.HyphenSeparatedInfix | src/lib/song-posts.ts:249 | any infix of hyphen-separated text is hyphen-separated |
| JsString.SliceTo | src/lib/song-posts.ts:249 | `slice(0, end)`: a prefix, of length `min(end, length)` for a non-negative end |
| JsString.IndexOf | scripts/generate-home-pages.mjs:28 | the first index holding the value, or -1 exactly when it is absent |
| JsString.Decimal | scripts/generate-home-pages.mjs:170 | `String(n)`: non-empty decimal digits without a leading zero, one digit exactly below 10 |
| JsString.DecimalInjective | scripts/generate-home-pages.mjs:181 | distinct numbers have distinct renderings, so page file names never collide |
| JsString.LeadingDigits | scripts/generate-home-pages.mjs:30 | the longest prefix of digits |
| JsString.ParseInt | scripts/generate-home-pages.mjs:30 | `parseInt(s, 10)` is NaN exactly when no digit follows the leading whitespace and sign |
| JsString.DigitsValueDecimal | scripts/generate-home-pages.mjs:30 | the digits of `String(n)` have the value `n` |
| JsString.ParseIntDigits | scripts/generate-home-pages.mjs:30 | `parseInt` of a run of digits is its value |
| JsString.ParseIntDecimal | scripts/generate-home-pages.mjs:30 | `parseInt(String(n), 10) === n` |
| JsString.TrimOr | scripts/generate-home-pages.mjs:76-81 | `(v \|\| fallback).trim()` throws exactly for a truthy non-string; a falsy value gives the trimmed fallback, a non-empty string its trimmed self |
| JsString.TrimmedNonEmpty | src/lib/song-posts.ts:129-130 | no more pieces than given, each non-empty and trimmed |
| JsString.TrimmedNonEmptyKeepsProperty | src/lib/song-posts.ts:129-130 | a property of every trimmed piece holds of every kept piece |
| JsString.TrimmedNonEmptyKeeps | src/lib/song-posts.ts:129-130 | trimmed non-empty pieces pass unchanged |
| JsString.TrimmedNonEmptyLast | src/lib/song-posts.ts:129-130 | a non-blank last piece survives |
| JsString.TrimmedNonEmptyEnds | src/lib/song-posts.ts:129-130 | non-blank first and last pieces give at least two results |
| JsString.TrimGapFree | src/lib/song-posts.ts:129 | trimming never creates a run of four newlines |
| Sorting.Insert | scripts/sync-song-posts.mjs:51 | one more element, and the same elements plus it |
| Sorting.SortBy | scripts/sync-song-posts.mjs:51 | the same length and the same elements as the input |
| Sorting.InsertSorted | scripts/sync-song-posts.mjs:51 | inserting into a sorted sequence keeps it sorted |
| Sorting.SortBySorted | scripts/sync-song-posts.mjs:51 | under a consistent comparator the sort returns a permutation of its input in non-decreasing key order |
| Sorting.Tied | scripts/generate-search-index.mjs:55 | no more elements than the input |
| Sorting.TiedAppend | scripts/generate-search-index.mjs:55 | the tied elements of a concatenation are those of each part, in order |
| Sorting.InsertTied | scripts/generate-search-index.mjs:55 | the inserted element, when tied with the key, comes first among the elements tied with it |
| Sorting.SortByStable | scripts/generate-search-index.mjs:55 | stability: the elements tied with any key keep their input order |
| SongPosts.ToCleanString | src/lib/song-posts.ts:71-77 | a non-string reads as `""`; the result is trimmed, empty exactly for a non-string or a blank string, and keeps the string's non-whitespace characters in order |
| SongPosts.ToNullableString | src/lib/song-posts.ts:79-82 | `null` exactly for a non-string or a blank string; otherwise the non-empty trimmed string |
| SongPosts.BuildYouTubeThumbnailUrl | src/lib/song-posts.ts:84-90 | no URL exactly when the id is missing or empty; otherwise the host, one non-empty path segment made only of unreserved characters, `%` and hexadecimal digits (so without `/`), and `<size>.jpg`; the segment is the id itself exactly when the id has only URL-safe characters |
| SongPosts.ThumbnailUrlInjective | src/lib/song-posts.ts:84-90 | two non-empty ids give the same thumbnail URL only when they are equal |
| SongPosts.ThumbnailSegment | src/lib/song-posts.ts:89 | the path segment of an id's URL is the id's percent-encoding |
| SongPosts.SameUrlSameSegment | src/lib/song-posts.ts:89 | equal URLs with the same host and image name have equal path segments |
| SongPosts.FirstContent | src/lib/song-posts.ts:105-109 | nothing exactly when no candidate is a string with content; otherwise the first such candidate, trimmed |
| SongPosts.StanzaCandidates | src/lib/song-posts.ts:103 | the values of `text`, `lyric`, `lyrics`, `stanza`, `verse`, in that order |
| SongPosts.LyricStanza | src/lib/song-posts.ts:92-112 | a string gives its nullable trimmed value; an object its first stanza property with content; anything else (arrays included) nothing; a stanza is never empty and is trimmed |
| SongPosts.ToLyricStanza | src/lib/song-posts.ts:92-112 | the early-return loop over the candidates gives the stanza of the specification |
| SongPosts.ArrayStanzas | src/lib/song-posts.ts:115-119 | no more stanzas than items, each non-empty and trimmed |
| SongPosts.ExtractLyricsStanzas | src/lib/song-posts.ts:114-137 | every stanza is non-empty and trimmed |
| SongPosts.StringStanzas | src/lib/song-posts.ts:122-136 | a string gives no stanza exactly when blank; the whole trimmed text exactly when it holds no run of four newlines; otherwise the non-blank trimmed parts between such runs, at least two |
| SongPosts.TwoStanzasAtGap | src/lib/song-posts.ts:128-135 | a trimmed text with a run of four newlines splits into at least two non-blank parts |
| SongPosts.FirstPieceStartsText | src/lib/song-posts.ts:128 | the first part of a text not starting with a newline begins with the text's first character |
| SongPosts.StringStanzasGapFree | src/lib/song-posts.ts:122-136 | stanzas from a string never hold a run of four newlines |
| SongPosts.TrimmedNonEmptyGapFree | src/lib/song-posts.ts:128-131 | trimming and dropping blank parts keeps them free of such runs |
| SongPosts.JoinedStanzasRoundTrip | src/lib/song-posts.ts:114-149 | stanzas joined by four newlines extract back to the same stanzas, provided each is non-empty, trimmed and free of such runs |
| SongPosts.JoinedTrimmed | src/lib/song-posts.ts:149 | joined trimmed non-empty stanzas form a trimmed non-empty text |
| SongPosts.UnknownAuthorTrimmed | src/lib/song-posts.ts:157 | the placeholder author is non-empty, trimmed and comma-free |
| SongPosts.RawField | src/lib/song-posts.ts:140-163 | reading `raw.key` gives the property when the record has it, and `undefined` otherwise (a non-object record included) |
| SongPosts.ParseSongPost | src/lib/song-posts.ts:139-166 | throws exactly for a `null` record or an empty cleaned slug or title; an accepted post has trimmed non-empty slug, title and author, a blank author becomes "Desconocido", album and date are `null` when blank and otherwise the cleaned field, post title, meta description and content are the cleaned fields, stanzas are those of the `lyrics` field, `lyrics` is them joined by four newlines, and the thumbnail is that of the video id |
| SongPosts.ParsedFields | src/lib/song-posts.ts:140-165 | an accepted post's slug, title, post title, meta description and content are the record's cleaned fields, and its video id, album and date are the record's nullable reads |
| SongPosts.ParsedLyricsRoundTrip | src/lib/song-posts.ts:147-149 | reading a post's `lyrics` text again gives its stanzas: always for string lyrics, for array lyrics when no stanza holds a run of four newlines |
| SongPosts.AuthorTokens | src/lib/song-posts.ts:234-237 | each name is non-empty, trimmed and comma-free |
| SongPosts.TrimmedNonEmptyCommaFree | src/lib/song-posts.ts:234-237 | trimming comma-free pieces keeps them comma-free |
| SongPosts.SplitAuthors | src/lib/song-posts.ts:233-240 | never empty; every name is non-empty, trimmed and comma-free |
| SongPosts.SplitAuthorsJoin | src/lib/song-posts.ts:233-240 | names joined by `", "` split back into the same names |
| SongPosts.TokensOfJoin | src/lib/song-posts.ts:234-237 | the tokens of names joined by `", "` are the names |
| SongPosts.SplitJoinComma | src/lib/song-posts.ts:235 | splitting names joined by `", "` at commas gives pieces that trim to the names |
| SongPosts.TrimmedNonEmptyOfTrims | src/lib/song-posts.ts:236-237 | pieces that trim to non-empty names give exactly the names |
| SongPosts.SplitAuthorsPlaceholder | src/lib/song-posts.ts:239 | `["Desconocido"]` comes out exactly when there are no tokens or the only token is the placeholder itself |
| SongPosts.SlugBase | src/lib/song-posts.ts:242-249 | hyphen-separated words of slug characters with no hyphen at either end, holding exactly the slug characters of the folded text, empty exactly when it has none; where the hyphens go is stated by `SongPosts.SlugBaseWordGap` |
| SongPosts.SlugBaseWordGap | src/lib/song-posts.ts:242-249 | two words of `[a-z0-9]` with a whitespace run between them become the words joined by one hyphen |
| SongPosts.FoldWords | src/lib/song-posts.ts:243-245 | such text is its own fold |
| SongPosts.FoldPlain | src/lib/song-posts.ts:243-245 | text made only of `[a-z0-9]` is its own fold |
| SongPosts.FoldSpaces | src/lib/song-posts.ts:243-245 | whitespace is its own fold |
| SongPosts.FoldAppend | src/lib/song-posts.ts:243-245 | the fold works character by character |
| SongPosts.Slugify | src/lib/song-posts.ts:242-250 | at most 80 characters, a prefix of the uncut slug and equal to it when that fits, never starting with a hyphen, ending with one only when the cut fell on a word boundary, empty exactly when the folded text has no slug character |
| SongPosts.SlugifyTrailingHyphen | src/lib/song-posts.ts:249 | a concrete text whose slug, cut at 80, ends with a hyphen |
| SongPosts.FoldAscii | src/lib/song-posts.ts:244-246 | lower-case ASCII letters and spaces are unchanged by folding |
| SongPosts.HyphenateWordGap | src/lib/song-posts.ts:247 | a word, a space and a letter become the word, a hyphen and the letter |
| SongPosts.Collapsed | src/lib/song-posts.ts:269 | collapsed text is trimmed and keeps the same non-whitespace characters in order; where the spaces go is stated by `SongPosts.CollapsedWordGap` |
| SongPosts.CollapsedWordGap | src/lib/song-posts.ts:269 | two trimmed texts with a whitespace run between them collapse to the collapsed texts joined by one space |
| SongPosts.CollapsedSpacing | src/lib/song-posts.ts:269 | inside collapsed text every whitespace is a single space and no two are adjacent |
| SongPosts.TrimCollapsed | src/lib/song-posts.ts:269 | trimming keeps text collapsed |
| SongPosts.GetLyricsPreview | src/lib/song-posts.ts:268-276 | the collapsed text when it fits; otherwise the first `max(0, maxLength - 1)` characters of it less trailing whitespace, then `"..."` |
| SongPosts.PreviewLength | src/lib/song-posts.ts:268-276 | a preview is at most `max(maxLength, 1) + 2` characters |
| SongPosts.Abbreviate | src/lib/song-posts.ts:275 | the cut less trailing whitespace followed by `"..."`, at most `m + 3` long |
| SongPosts.TruncationOfCut | src/lib/song-posts.ts:275 | `slice(0, m).trimEnd()` is a prefix of the text, ends in a non-space, and only whitespace was dropped before `m` |
| ScriptHelpers.StringItems | scripts/generate-home-pages.mjs:41 | keeps no more than the items, and of an all-string array keeps every string in order |
| ScriptHelpers.LyricsPreview | scripts/generate-home-pages.mjs:36-51 | a value that is neither a string nor an array previews as `""` |
| ScriptHelpers.Shorten | scripts/generate-home-pages.mjs:49-50 | a text within the maximum is kept whole |
| ScriptHelpers.LyricsPreviewAgrees | scripts/generate-home-pages.mjs:36-51 | for a maximum of at least 1 the generators' preview equals the library's preview of the same text |
| ScriptHelpers.ShortenAgrees | scripts/generate-home-pages.mjs:49-50 | cutting a collapsed text agrees with the library's cut for a maximum of at least 1 |
| ScriptHelpers.PreviewLong | src/lib/song-posts.ts:272-275 | a collapsed text over the maximum is abbreviated at `max(0, maxLength - 1)` |
| ScriptHelpers.AbbreviateShape | src/lib/song-posts.ts:275 | the abbreviation is the trimmed cut plus `"..."` |
| ScriptHelpers.SplitAuthors | scripts/generate-home-pages.mjs:56-60 | anything but a string gives `["Desconocido"]`; a string is split exactly as the library splits it |
| ScriptHelpers.BuildThumbnailUrl | scripts/generate-home-pages.mjs:65-70 | no URL exactly when the id is missing or blank |
| ScriptHelpers.BuildThumbnailUrlAgrees | scripts/generate-home-pages.mjs:65-70 | a non-blank id gets the library's `hqdefault` thumbnail of the trimmed id |
| ScriptHelpers.TrimmedString | scripts/generate-home-pages.mjs:83-95 | a read exactly for a non-empty string, trimmed; it agrees with the library's nullable read except that a blank string reads as `""` rather than `null` |
| ScriptHelpers.NonBlankString | scripts/generate-home-pages.mjs:90 | the guarded album read is the library's nullable read |
| Site.DropTrailingSlashes | src/lib/site.ts:15 | `replace(/\/+$/, "")` removes exactly the run of trailing slashes: the result is a prefix, does not end with `/`, and only slashes were removed |
| Site.DefaultUrlNoSlash | src/lib/site.ts:5 | the default URL does not end with a slash |
| Site.GetSiteUrl | src/lib/site.ts:8-16 | an unset or blank variable gives the default URL; otherwise the trimmed value less only trailing slashes; the result never ends with `/` |
| Site.DropSlashes | src/lib/site.ts:15 | removing trailing slashes undoes appending any number of them |
| Site.GetSiteUrlSlashes | src/lib/site.ts:8-16 | a trimmed URL followed by any number of slashes yields the URL itself |
| Site.GetSitePathPrefix | src/lib/site.ts:18-27 | a URL that does not parse gives `""`; otherwise the pathname less trailing slashes, so the root `/` gives `""`; the prefix never ends with `/` |
| HomePages.FlagValue | scripts/generate-home-pages.mjs:27-29 | the value after the first `--per-page` is used only when it exists and is non-empty, and it is that argument |
| HomePages.PageSize | scripts/generate-home-pages.mjs:30 | `Math.max(1, parseInt(v, 10) \|\| 20)`: at least 1; 20 when parsing gives NaN or 0; 1 for a negative number; the number itself when positive |
| HomePages.PerPage | scripts/generate-home-pages.mjs:27-31 | the page size is at least 1, and it is 20 when the flag has no usable value |
| HomePages.PerPageGiven | scripts/generate-home-pages.mjs:27-31 | `--per-page n` with a positive decimal `n` sets the page size to `n` |
| HomePages.PerPageDefault | scripts/generate-home-pages.mjs:28-31 | without a `--per-page` argument the page size is 20 |
| HomePages.PageSizeDecimal | scripts/generate-home-pages.mjs:30 | a positive number written in decimal is taken as the page size unchanged |
| HomePages.ExtractHomeFields | scripts/generate-home-pages.mjs:75-97 | throws exactly when `raw` is null or a trimmed field is a truthy non-string; returns `null` exactly when the trimmed slug or title is empty; every kept song has trimmed non-empty slug and title, a non-empty list of trimmed non-empty authors, and a thumbnail exactly when it has a video id |
| HomePages.HomeFieldsOf | scripts/generate-home-pages.mjs:56-97 | each of the ten fields of a kept song is the library's cleaning of the raw field: slug, title and meta description trimmed, `splitAuthors` of the author, album and video id `null` when blank, the lyrics preview of the raw lyrics, the thumbnail built from the video id, the trimmed date |
| HomePages.BlankCleans | scripts/generate-home-pages.mjs:76-79 | a falsy or empty field cleans to `""` |
| HomePages.HomeFieldsAgreeWithPost | scripts/generate-home-pages.mjs:75-97 | on a record it does not throw on, the generator keeps the record exactly when `parseSongPost` in src/lib/song-posts.ts accepts it, with the same slug, title, authors, album, video id, thumbnail and meta description; a blank author is `""` here and "Desconocido" there, a blank date `""` here and `null` there |
| HomePages.HomeThrowsWherePostAccepts | scripts/generate-home-pages.mjs:81-91 | the generator throws on (and skips) a record `parseSongPost` accepts exactly when its author or meta description is a truthy non-string, which `trim` cannot take but `toCleanString` reads as `""` |
| HomePages.SongOf | scripts/generate-home-pages.mjs:122-137 | a file contributes at most one song, and only a valid one |
| HomePages.CollectByAppend | scripts/generate-home-pages.mjs:122-137 | the file loop's result over two runs of files is the concatenation of the two |
| HomePages.CollectByLength | scripts/generate-home-pages.mjs:122-137 | no more songs than files |
| HomePages.Collect | scripts/generate-home-pages.mjs:122-137 | no more songs than files |
| HomePages.CollectAppend | scripts/generate-home-pages.mjs:122-137 | a file that fails to parse or lacks slug or title adds nothing, and the later files are still read |
| HomePages.CollectSongs | scripts/generate-home-pages.mjs:120-137 | the file loop pushes exactly the songs `Collect` describes, in file order |
| HomePages.HomeSongsOrdered | scripts/generate-home-pages.mjs:109-140 | the songs are sorted by title, are a permutation of the songs of the readable posts, and number at most the `.json` files |
| HomePages.TotalPages | scripts/generate-home-pages.mjs:154 | `max(1, ceil(n / P))`: at least one page, enough pages for `n` songs, and no page more than needed |
| HomePages.CeilDiv | scripts/generate-home-pages.mjs:154 | the integer ceiling of `n / d` is the fewest multiples of `d` that cover `n` |
| HomePages.PageData | scripts/generate-home-pages.mjs:157-168 | page `p` records its number, the song count and the page size, and holds at most `P` songs, the `i`-th being song `p*P + i` of the sorted list |
| HomePages.PageShape | scripts/generate-home-pages.mjs:156-168 | page `p` has `from = p*P` and `to = from + size - 1` and holds the songs from `from` to `to`; every page but the last holds exactly P songs; the last holds 1..P songs; with no songs there is one empty page with `to = -1` |
| HomePages.PageStarts | scripts/generate-home-pages.mjs:157 | every page starts within the song list, and inside it when there are songs |
| HomePages.PagesUpToPrefix | scripts/generate-home-pages.mjs:156-158 | the first `count` pages, read in order, are the first `count*P` songs |
| HomePages.PagesCoverSongs | scripts/generate-home-pages.mjs:156-158 | all pages, read in order, are exactly the sorted song list |
| HomePages.PageName | scripts/generate-home-pages.mjs:170 | `home_${page}.json` starts with `home_` and ends with `.json`, so the cleanup would delete it |
| HomePages.WithoutPages | scripts/generate-home-pages.mjs:148-151 | the cleanup leaves exactly the files that are not `home_*.json`, unchanged |
| HomePages.PageNameFacts | scripts/generate-home-pages.mjs:148-170 | every page name is one the cleanup deletes, distinct pages have distinct names, and no page is named `index.json` |
| HomePages.PageNames | scripts/generate-home-pages.mjs:181 | the index lists `home_0.json` … `home_{totalPages-1}.json`, in order |
| HomePages.BuildPage | scripts/generate-home-pages.mjs:157-168 | one turn of the page loop builds exactly page `p` as `PageData` describes it (its number, counts, bounds and slice of the sorted songs) |
| HomePages.WithPages | scripts/generate-home-pages.mjs:156-173 | writing the pages deletes no file, and every file it changes or adds is a `home_*.json` page |
| HomePages.WithPagesKeys | scripts/generate-home-pages.mjs:156-173 | writing the pages adds exactly the page names |
| HomePages.WithPagesWritten | scripts/generate-home-pages.mjs:156-173 | each page file holds its own page, none overwritten by a later one |
| HomePages.WithPagesKept | scripts/generate-home-pages.mjs:156-173 | writing the pages leaves every other file as it was |
| HomePages.HomeOutput | scripts/generate-home-pages.mjs:145-184 | after a run `index.json` is the index with the song count, every `home_*.json` file is a page just written (no stale page survives), and every other file is unchanged |
| HomePages.HomeOutputFacts | scripts/generate-home-pages.mjs:145-184 | after a run the `home_*.json` files are exactly pages 0..totalPages-1, each with its page; `index.json` records the song count, page count, page size and page names; every other file is untouched |
| HomePages.RemovePages | scripts/generate-home-pages.mjs:148-151 | the cleanup deletes exactly the files named `home_*.json` |
| HomePages.WritePages | scripts/generate-home-pages.mjs:156-173 | the page loop writes every page of the song list |
| HomePages.GenerateHomePages | scripts/generate-home-pages.mjs:99-197 | an unreadable song-post directory changes nothing; otherwise the output directory becomes the pages and index of the sorted songs with the parsed page size |
| ArtistPages.ExtractSongData | scripts/generate-artist-pages.mjs:102-130 | throws exactly when `raw` is null or a trimmed field is a truthy non-string; skips (`continue`) exactly when the trimmed slug or title is empty; a kept song has trimmed non-empty slug and title |
| ArtistPages.SongDataAgreesWithHome | scripts/generate-artist-pages.mjs:102-130 | the artist generator keeps, skips and fails on the same records as the home generator's `extractHomeFields`, with the same fields except the preview length (180 instead of 220) |
| ArtistPages.SongDataFields | scripts/generate-artist-pages.mjs:109-130 | the fields of a kept song, field by field, are those of the home generator |
| ArtistPages.Skipped | scripts/generate-artist-pages.mjs:94-150 | `skipped` counts at most one per file |
| ArtistPages.SkippedComplement | scripts/generate-artist-pages.mjs:94-150 | the skipped files and the songs the files contribute add up to the number of files |
| ArtistPages.NameCredits | scripts/generate-artist-pages.mjs:133-134 | one credit per author token, in order |
| ArtistPages.NameCreditsSlugs | scripts/generate-artist-pages.mjs:133-134 | every credit carries `slugify` of its own author name |
| ArtistPages.CreditsSlugsOfNames | scripts/generate-artist-pages.mjs:96-151 | over all files, every credit carries the slug of its name |
| ArtistPages.FirstNameSongs | scripts/generate-artist-pages.mjs:137-145 | a slug has a first name exactly when some song is credited under it |
| ArtistPages.FirstNameSlug | scripts/generate-artist-pages.mjs:137-143 | the name that first set a slug slugifies to that slug |
| ArtistPages.AddCredit | scripts/generate-artist-pages.mjs:133-146 | one turn of the inner loop keeps every artist already in the map and the insertion order, adding at most one slug at the end |
| ArtistPages.AddAll | scripts/generate-artist-pages.mjs:133-146 | adding credits in order extends the insertion order by at most one slug per credit |
| ArtistPages.Group | scripts/generate-artist-pages.mjs:96-151 | the map has no more artists than credits |
| ArtistPages.AddCreditValid | scripts/generate-artist-pages.mjs:135-145 | one turn of the inner loop keeps the map well formed (keys listed once in insertion order, each artist under its own non-empty slug) and adds at most the credit's non-empty slug |
| ArtistPages.AddCreditEntries | scripts/generate-artist-pages.mjs:137-145 | one turn of the inner loop: a new slug gets an artist named by this author holding this song; an existing one gets the song pushed; the others are unchanged |
| ArtistPages.GroupSpec | scripts/generate-artist-pages.mjs:96-151 | the map's keys are exactly the non-empty slugs some song is credited under; each artist is named by the first author name with its slug, in file order, and holds every song credited under it once per crediting name, so two authors of one song with the same slug duplicate the song |
| ArtistPages.CreditSong | scripts/generate-artist-pages.mjs:133-146 | the inner loop adds the song to the artist of each author token, skipping empty slugs |
| ArtistPages.GroupArtists | scripts/generate-artist-pages.mjs:92-151 | the file loop builds exactly the grouping of all credits, and `skipped` counts the files that fail to parse or lack slug or title |
| ArtistPages.ValuesFacts | scripts/generate-artist-pages.mjs:165 | `artistMap.values()` lists each artist of the map once, under its own slug |
| ArtistPages.UniqueSlugsPermutation | scripts/generate-artist-pages.mjs:165-167 | sorting the artists keeps their slugs distinct |
| ArtistPages.FindWithThumbnail | scripts/generate-artist-pages.mjs:175 | `songs.find(s => s.thumbnailUrl)` finds a song with a thumbnail exactly when one exists |
| ArtistPages.RepresentativeThumbnail | scripts/generate-artist-pages.mjs:175-181 | the representative thumbnail is `null` exactly when no song has one, and never empty |
| ArtistPages.RepresentativeIsFirst | scripts/generate-artist-pages.mjs:175-181 | the representative thumbnail is that of the first song, in title order, that has one |
| ArtistPages.NoThumbnailPermutation | scripts/generate-artist-pages.mjs:172-175 | sorting an artist's songs does not change whether one of them has a thumbnail |
| ArtistPages.PageOf | scripts/generate-artist-pages.mjs:170-183 | an artist file has the artist's name and slug, `songCount` songs that are the artist's songs reordered, and a `null` thumbnail exactly when none of them has one |
| ArtistPages.Summary | scripts/generate-artist-pages.mjs:190-195 | an index entry repeats the file's name, slug and song count, with a `null` thumbnail exactly when no song has one |
| ArtistPages.Summaries | scripts/generate-artist-pages.mjs:190-195 | one index entry per artist |
| ArtistPages.SummariesMatchPages | scripts/generate-artist-pages.mjs:177-195 | each index entry repeats its artist file's name, slug, song count and thumbnail |
| ArtistPages.PagesOf | scripts/generate-artist-pages.mjs:170-187 | one artist file per artist |
| ArtistPages.PagesOfAt | scripts/generate-artist-pages.mjs:170-187 | the `i`-th artist file is that of the `i`-th artist |
| ArtistPages.ArtistPagesOf | scripts/generate-artist-pages.mjs:165-187 | one artist file per distinct non-empty slug (`totalArtists`) |
| ArtistPages.ArtistPagesOrdered | scripts/generate-artist-pages.mjs:165-167 | the artists are in name order and no two share a slug |
| ArtistPages.ArtistPageContents | scripts/generate-artist-pages.mjs:133-183 | each artist file has a non-empty slug, is named by the first author name with that slug, holds exactly the songs credited under the slug (a permutation), sorted by title, and `songCount` is their number |
| ArtistPages.SongsForContains | scripts/generate-artist-pages.mjs:145 | a credited song is among its slug's songs |
| ArtistPages.ArtistPagesCover | scripts/generate-artist-pages.mjs:133-187 | every author name with a non-empty slug has an artist file |
| ArtistPages.FileNameFacts | scripts/generate-artist-pages.mjs:185 | `{slug}.json` is a `.json` name, and distinct slugs give distinct names |
| ArtistPages.WithArtistPagesKeys | scripts/generate-artist-pages.mjs:170-187 | writing the artist files adds exactly their names |
| ArtistPages.WithArtistPagesWritten | scripts/generate-artist-pages.mjs:170-187 | each artist file holds its own artist |
| ArtistPages.WithArtistPagesKept | scripts/generate-artist-pages.mjs:170-187 | writing the artist files leaves every non-`.json` file as it was |
| ArtistPages.WithoutJson | scripts/generate-artist-pages.mjs:159-162 | the cleanup leaves exactly the files that are not `.json`, unchanged |
| ArtistPages.WithArtistPages | scripts/generate-artist-pages.mjs:170-187 | writing the artist files deletes no file, and every file it changes or adds is a `.json` artist file |
| ArtistPages.ArtistOutput | scripts/generate-artist-pages.mjs:156-207 | after a run `index.json` is an index counting the artists, one entry each, and every `.json` file is an artist file or the index (no stale `.json` file survives) |
| ArtistPages.ArtistOutputWritten | scripts/generate-artist-pages.mjs:185-207 | after a run each artist file holds its artist, except an artist whose slug is `index`, since `index.json` is written last; `index.json` holds `totalArtists` and the summaries |
| ArtistPages.ArtistOutputJson | scripts/generate-artist-pages.mjs:159-207 | after a run the `.json` files are exactly `index.json` and the artist files |
| ArtistPages.ArtistOutputKept | scripts/generate-artist-pages.mjs:159-162 | a run keeps every non-`.json` file and adds nothing else |
| ArtistPages.RemoveJsonFiles | scripts/generate-artist-pages.mjs:159-162 | the cleanup deletes exactly the `.json` files |
| ArtistPages.WriteArtistFiles | scripts/generate-artist-pages.mjs:170-187 | the artist loop writes each artist's file, with songs sorted by title, their count and the representative thumbnail |
| ArtistPages.GenerateArtistPages | scripts/generate-artist-pages.mjs:71-222 | an unreadable song-post directory changes nothing; otherwise the output directory becomes the artist files and index of the listing, and `skipped` counts the files that gave no song |
| ArtistPages.CreditsWith | scripts/generate-artist-pages.mjs:133-146 | one credit per name |
| ArtistPages.CreditsWithAt | scripts/generate-artist-pages.mjs:133-146 | the i-th credit is the song credited to the i-th name, with that name's slug |
| ArtistPages.MapPages | scripts/generate-artist-pages.mjs:170-187 | one page per artist |
| ArtistPages.MapPagesAt | scripts/generate-artist-pages.mjs:170-187 | the i-th page is that of the i-th artist |
| ArtistPages.FindFirst | scripts/generate-artist-pages.mjs:175 | the song `find` picks is the first one with a thumbnail |
| ArtistPages.FileNamesJson | scripts/generate-artist-pages.mjs:185 | every artist file name ends in `.json` |
| ArtistPages.IndexNameJson | scripts/generate-artist-pages.mjs:197-207 | the index file name ends in `.json` |
| VideosPage.ArtistFiles | scripts/generate-videos-page.mjs:26-28 | the files read are exactly the listing's `.json` entries other than `index.json` |
| VideosPage.WithVideo | scripts/generate-videos-page.mjs:46-48 | `withVideo` is exactly the songs whose `youtubeId` is a string longer than 5 characters, in order; a `null` song makes the filter throw |
| VideosPage.Step | scripts/generate-videos-page.mjs:53 | the stride is at least 1 |
| VideosPage.Positions | scripts/generate-videos-page.mjs:53-55 | the loop visits `min(5, k)` positions, in strictly increasing order |
| VideosPage.PositionsFacts | scripts/generate-videos-page.mjs:53-56 | the loop visits `min(5, k)` positions `0, step, 2·step, …`, strictly increasing and all below `k`, so it picks distinct songs |
| VideosPage.PositionBelow | scripts/generate-videos-page.mjs:53-55 | the `j`-th position, for `j < min(5, k)`, is below `k` |
| VideosPage.Or | scripts/generate-videos-page.mjs:63-64 | JavaScript `a \|\| b` |
| VideosPage.VideoOf | scripts/generate-videos-page.mjs:56-65 | an entry has the song's id, title and slug and the artist's name and slug; a falsy album becomes `null`; a falsy thumbnail falls back to `https://i.ytimg.com/vi/<id>/hqdefault.jpg` |
| VideosPage.Sample | scripts/generate-videos-page.mjs:53-66 | for `k` qualifying songs exactly `min(5, k)` videos are picked |
| VideosPage.SampleValid | scripts/generate-videos-page.mjs:55-65 | every picked video is valid, names its artist, and is the entry (id, title, slug, album or `null`, thumbnail or fallback) of the song at its stride position |
| VideosPage.PickVideos | scripts/generate-videos-page.mjs:53-66 | the sampling loop picks exactly the songs at the stride positions, in order |
| VideosPage.PositionNext | scripts/generate-videos-page.mjs:55 | `i += step` moves from one position to the next; after the last one the loop has five videos or has passed the end |
| VideosPage.ReadBucket | scripts/generate-videos-page.mjs:39-73 | a bucket is never the unknown artist `desconocido`, has at least 3 qualifying songs, records `videoCount = k` and holds `min(5, k)` valid videos of its artist |
| VideosPage.ReadBucketFrom | scripts/generate-videos-page.mjs:41-65 | every video of a file's bucket is the entry of one of the songs in that file's `songs` array |
| VideosPage.Buckets | scripts/generate-videos-page.mjs:39-74 | the file loop collects at most one bucket per artist file |
| VideosPage.BucketsStep | scripts/generate-videos-page.mjs:39-74 | one turn of the file loop appends the file's bucket, if any, or stops the run |
| VideosPage.BucketsValid | scripts/generate-videos-page.mjs:39-74 | every bucket collected is valid |
| VideosPage.BucketsFrom | scripts/generate-videos-page.mjs:39-74 | every bucket collected was read from one of the artist files |
| VideosPage.BucketsThrownPrefix | scripts/generate-videos-page.mjs:39-74 | once a file stops the run, later files do not resume it |
| VideosPage.MoreFirstPreorder | scripts/generate-videos-page.mjs:77 | the comparator `b.videoCount - a.videoCount` is a total preorder |
| VideosPage.Flatten | scripts/generate-videos-page.mjs:80 | every video of every bucket is in the flattened list |
| VideosPage.FlattenValid | scripts/generate-videos-page.mjs:80 | every flattened video is valid and comes from a bucket of its own artist |
| VideosPage.FlattenCount | scripts/generate-videos-page.mjs:80-83 | the flattened list has the sum of the picked counts |
| VideosPage.VideosOutput | scripts/generate-videos-page.mjs:39-87 | `videos.json` is produced exactly when no artist file stops the loop; it counts at most one artist per file, and `totalVideos` is the length of `videos` |
| VideosPage.VideosOutputSources | scripts/generate-videos-page.mjs:39-80 | every listed video is the entry of a song of one of the artist files: its id, title, slug, album or `null`, thumbnail or the `hqdefault.jpg` fallback |
| VideosPage.VideosOutputFacts | scripts/generate-videos-page.mjs:76-87 | buckets are sorted by `videoCount` descending, stably (ties keep file order); `totalArtists` counts the buckets; `totalVideos` is the flattened length, `min(5, k)` per artist; no listed video belongs to `desconocido`; each listed video is the entry of a song of an artist file |
| VideosPage.GenerateVideosPage | scripts/generate-videos-page.mjs:26-89 | the script computes exactly `videos.json` as described, or stops when the directory or a file cannot be read |
| SearchIndex.OrEmpty | scripts/generate-search-index.mjs:39-42 | JavaScript `v \|\| ""` |
| SearchIndex.ReadEntry | scripts/generate-search-index.mjs:34-47 | a file yields an entry exactly when it is read, parses, and is not `null`; for an object each of the four fields is the record's value when that is truthy and `""` when it is missing or falsy, kept untrimmed; a record that is not an object gives four `""` |
| SearchIndex.Kept | scripts/generate-search-index.mjs:50 | `r && r.s` keeps only a read entry whose slug is not empty, `null` or `undefined` |
| SearchIndex.Collected | scripts/generate-search-index.mjs:31-52 | no more entries than files |
| SearchIndex.CollectedAppend | scripts/generate-search-index.mjs:31-52 | collecting two runs of files is collecting each and concatenating |
| SearchIndex.CollectedMembers | scripts/generate-search-index.mjs:49-51 | an entry is collected exactly when some file yields it and its `s` is truthy |
| SearchIndex.CollectBatch | scripts/generate-search-index.mjs:32-53 | one batch pushes, in file order, exactly the entries of its files that were read and have a truthy slug |
| SearchIndex.CollectSongs | scripts/generate-search-index.mjs:28-52 | the batch loop, 200 files per batch, processes every file exactly once and appends the results in file order |
| SearchIndex.SortByTitle | scripts/generate-search-index.mjs:55 | the sort stops the run exactly when two or more entries are compared and one title is not a string |
| SearchIndex.SearchIndexOf | scripts/generate-search-index.mjs:25-55 | the index has at most one entry per `.json` file |
| SearchIndex.SearchIndexFacts | scripts/generate-search-index.mjs:25-55 | the index is sorted by `t`, is a permutation of the collected entries with equal titles in file order, has at most one entry per `.json` file, and every entry has a truthy slug |
| SearchIndex.GenerateSearchIndex | scripts/generate-search-index.mjs:24-58 | an unreadable directory gives no index; otherwise the script computes exactly the index described |
| LyricsJson.FirstTruthy | scripts/generate-lyrics-json.mjs:49 | `a \|\| b \|\| …` is truthy exactly when some candidate is, and is then the first truthy candidate |
| LyricsJson.FirstTruthyIndex | scripts/generate-lyrics-json.mjs:49 | when some candidate is truthy there is a first truthy one |
| LyricsJson.ItemStanza | scripts/generate-lyrics-json.mjs:46-54 | a string item is trimmed; an object item takes its first truthy field among `text`, `lyric`, `lyrics`, `stanza`, `verse`, trimmed when that is a string and dropped otherwise; other items are dropped; so is every empty result |
| LyricsJson.ItemStanzaRefines | scripts/generate-lyrics-json.mjs:46-54 | where the exporter keeps a stanza the library keeps the same one, and on strings the two agree; the library may keep a stanza the exporter drops |
| LyricsJson.ObjectStanzaRefines | scripts/generate-lyrics-json.mjs:49-50 | a first truthy candidate with text is the library's first candidate with text |
| LyricsJson.ItemStanzas | scripts/generate-lyrics-json.mjs:44-54 | every stanza of an array is trimmed and non-empty, and there are no more than the items |
| LyricsJson.ItemStanzasOfStrings | scripts/generate-lyrics-json.mjs:44-54 | an array of strings gives the same stanzas as the library |
| LyricsJson.LyricsStanzas | scripts/generate-lyrics-json.mjs:41-59 | lyrics that are neither a string nor an array give no stanzas |
| LyricsJson.StringLyricsStanzas | scripts/generate-lyrics-json.mjs:55-59 | a blank string gives `[""]`, where the library gives `[]`; any other non-array value gives what the library gives |
| LyricsJson.Album | scripts/generate-lyrics-json.mjs:38 | `data.album ? data.album.trim() : null`: `null` exactly when falsy, trimmed otherwise, and a throw for a truthy non-string |
| LyricsJson.ReadRecord | scripts/generate-lyrics-json.mjs:30-63 | a file is processed only when it reads and parses, and an object's record is that of its fields |
| LyricsJson.HeaderOf | scripts/generate-lyrics-json.mjs:33-38 | a blank slug writes no file; a written slug is trimmed and non-empty; the title is `""` when falsy; the author is "Desconocido" only when falsy, so a whitespace-only author becomes `""`; the album is `null` exactly when falsy; a truthy non-string field throws |
| LyricsJson.RecordOf | scripts/generate-lyrics-json.mjs:33-63 | the record has the post's header and stanzas, and `lyrics` is the stanzas joined by four newlines |
| LyricsJson.StringLyricsRoundTrip | scripts/generate-lyrics-json.mjs:55-61 | reading a written `lyrics` string back with the library gives the exported stanzas |
| LyricsJson.Outcomes | scripts/generate-lyrics-json.mjs:29-66 | one outcome per file |
| LyricsJson.Run | scripts/generate-lyrics-json.mjs:29-66 | no more records than files; a record whose `<slug>.json` is a subdirectory stops the run, as `writeFileSync` throws EISDIR there |
| LyricsJson.RunSubdirs | scripts/generate-lyrics-json.mjs:64 | the loop never writes over a subdirectory: the subdirectories after it are those before it |
| LyricsJson.RunOut | scripts/generate-lyrics-json.mjs:64 | the directory after the loop is the earlier one with the written records written in order |
| LyricsJson.RunCompletes | scripts/generate-lyrics-json.mjs:29-66 | the loop finishes exactly when no file throws and no record's `<slug>.json` is a subdirectory of the lyrics directory |
| LyricsJson.RunRecords | scripts/generate-lyrics-json.mjs:29-66 | every record written comes from one of the files |
| LyricsJson.RunWritesAll | scripts/generate-lyrics-json.mjs:29-66 | when the loop finishes, every post with a slug has its record written |
| LyricsJson.RunStep | scripts/generate-lyrics-json.mjs:29-66 | one turn of the loop |
| LyricsJson.RunStops | scripts/generate-lyrics-json.mjs:29-66 | once a file throws, later files change nothing |
| LyricsJson.WriteAll | scripts/generate-lyrics-json.mjs:64 | writing records deletes no file, and every file it adds holds a written record |
| LyricsJson.WriteAllAppend | scripts/generate-lyrics-json.mjs:64 | writing one more record sets its slug's file |
| LyricsJson.WriteAllKeys | scripts/generate-lyrics-json.mjs:64 | the directory holds its earlier files plus one file per slug written |
| LyricsJson.FileNameInjective | scripts/generate-lyrics-json.mjs:64 | distinct slugs give distinct file names |
| LyricsJson.WriteAllLastWins | scripts/generate-lyrics-json.mjs:64 | a later record with the same slug overwrites an earlier one: a slug's file holds its last record |
| LyricsJson.WriteAllKeeps | scripts/generate-lyrics-json.mjs:64 | a file no record names keeps its contents |
| LyricsJson.RunOf | scripts/generate-lyrics-json.mjs:21-66 | a run over a listing writes no more records than there are `.json` files |
| LyricsJson.GenerateLyricsJson | scripts/generate-lyrics-json.mjs:21-66 | the loop writes one file per post with a slug, in listing order, until the end or the first file that throws or whose `<slug>.json` is a subdirectory; `count` is the number of records written |
| SyncSongPosts.Candidates | scripts/sync-song-posts.mjs:9-12 | the candidate list holds no empty path; it is the trimmed variable when that is not blank, then the sibling path when not empty, and nothing else |
| SyncSongPosts.FirstDirectory | scripts/sync-song-posts.mjs:26-37 | the chosen candidate is a directory and every candidate before it is not; `None` only when no candidate is a directory |
| SyncSongPosts.JsonFiles | scripts/sync-song-posts.mjs:47-50 | the kept entries are exactly the listing's plain files whose names end in `.json` |
| SyncSongPosts.SourceFilesFacts | scripts/sync-song-posts.mjs:47-51 | the files to copy are the `.json` files of the source, each as often as there, sorted by name |
| SyncSongPosts.NormalizeSongPost | scripts/sync-song-posts.mjs:15-23 | normalising succeeds exactly for a file that parses to a plain object (not null, an array or a primitive), and keeps that object |
| SyncSongPosts.Copyable | scripts/sync-song-posts.mjs:60-62 | a file can be copied exactly when it parses to a plain object and its name is not a subdirectory of the local folder |
| SyncSongPosts.Copy | scripts/sync-song-posts.mjs:57-63 | the copy loop deletes no file, and every name it adds holds a normalised post |
| SyncSongPosts.CopyStep | scripts/sync-song-posts.mjs:57-63 | one turn of the copy loop |
| SyncSongPosts.CopyStops | scripts/sync-song-posts.mjs:57-63 | once a file fails, later files change nothing |
| SyncSongPosts.CopyKeeps | scripts/sync-song-posts.mjs:57-63 | a finished copy adds exactly the copied names, each holding a normalised post, and leaves every other name as it was |
| SyncSongPosts.CopyWritten | scripts/sync-song-posts.mjs:59-62 | a copied file whose name is unique among the copied files holds its own normalised post |
| SyncSongPosts.CopyCompletes | scripts/sync-song-posts.mjs:57-63 | the copy finishes exactly when every file parses to a plain object and its name is not a directory in the local folder |
| SyncSongPosts.CopyFailure | scripts/sync-song-posts.mjs:57-63 | a failed copy has written exactly the files before the first one that cannot be copied |
| SyncSongPosts.CopyFiles | scripts/sync-song-posts.mjs:57-63 | the loop's directory and outcome are those of the copy specification |
| SyncSongPosts.StaleNames | scripts/sync-song-posts.mjs:65-69 | the stale names are names of the local folder, and no source file is stale |
| SyncSongPosts.Without | scripts/sync-song-posts.mjs:71-73 | removal leaves exactly the names not removed |
| SyncSongPosts.RemoveStale | scripts/sync-song-posts.mjs:65-73 | the unlink loop removes exactly the stale names, whatever the order |
| SyncSongPosts.SyncOf | scripts/sync-song-posts.mjs:39-79 | a successful run synced at least one file, and afterwards every local `.json` file is a normalised copy (no stale file survives) |
| SyncSongPosts.SyncSongPostsRun | scripts/sync-song-posts.mjs:25-80 | the script's directory and outcome are those of the run specification |
| SyncSongPosts.SyncFails | scripts/sync-song-posts.mjs:39-63 | a run fails exactly when no candidate is a directory, the source has no `.json` file, or one of them cannot be copied |
| SyncSongPosts.SyncDone | scripts/sync-song-posts.mjs:57-79 | a successful run is a finished copy then the removal of the stale files, and reports the numbers of copied and removed files |
| SyncSongPosts.SyncJsonFiles | scripts/sync-song-posts.mjs:65-73 | after a successful run the local `.json` files are exactly the source's `.json` file names |
| SyncSongPosts.SyncContents | scripts/sync-song-posts.mjs:57-63 | after a successful run each source `.json` file holds its normalised post locally |
| SyncSongPosts.SyncKeeps | scripts/sync-song-posts.mjs:65-79 | a successful run keeps directories and non-`.json` files, and the removed count is the number of local `.json` files the source lacks |

## Left out

- File-system I/O: directory listings, file contents and output directories are values passed in and returned. `readdir` order is the order of the given listing; `mkdir`, permissions and failed writes are not modelled, except writing a file over a subdirectory, which the sync script and the lyrics exporter model (it stops the run); the output directories of the home, artist and videos generators hold files only.
- `JSON.parse` and `JSON.stringify`: a file holds the value it parses to, or malformed text; indentation, the trailing newline `normalizeSongPost` adds and the compact format of the search index are not modelled.
- `localeCompare(…, "es")` and the default-locale `localeCompare`: one abstract comparator `collate`, assumed to be a total preorder. `Array.prototype.sort` is a stable sort on sequences, not an in-place sort of an array.
- `toLowerCase`, `normalize("NFD")` and the removal of combining marks are written out for ASCII, the Latin-1 Supplement and the combining diacritical marks only; letters of other scripts are neither lower-cased nor decomposed.
- String lengths count Unicode scalar values, not UTF-16 code units, so `slice(0, 80)` and the preview lengths differ from JavaScript on characters outside the Basic Multilingual Plane.
- `new URL(…).pathname`: a parameter of `Site.GetSitePathPrefix` (`None` when the constructor throws); URL parsing itself is not modelled.
- Environment variables (`NEXT_PUBLIC_SITE_URL`, `SONG_POSTS_SOURCE_DIR`), the sibling `song-posts` path, the command-line arguments and the clock (`new Date().toISOString()`, passed as the string `now`) are parameters.
- Console output, warning messages and process exit codes: a fatal error is a `Thrown` result; messages and the `skipped` log lines are not modelled.
- `Promise.all`: the batches of the search index and the `stat` calls of the sync script run one after another in list order; their concurrency changes neither result, since results are combined in list order.
- SyncSongPosts.RemoveStale: unlinks the stale files in an arbitrary order; the order of the `unlink` calls, and an unlink that fails, are not modelled.
- `getAllSongPosts`, its module cache, `getSongPostBySlug`, `getHomeIndex`, `getHomePage`, `formatGeneratedDate` and `src/lib/artists.ts` / `src/lib/videos.ts`: readers of the generated files and date formatting, outside the pipeline.
- The React pages, the search client (Fuse.js), the shuffled video grid, the sitemap, robots and `llms.txt` routes and `next.config.ts`: presentation and framework configuration.
- SearchIndex.SortByTitle: a truthy non-string title makes `localeCompare` throw only when the sort calls it on that entry as the receiver; the model stops the run whenever there are two or more entries and one title is not a string.
- JsString.ParseInt: returns the exact integer; JavaScript numbers lose precision above 2^53.
- ScriptHelpers.LyricsPreview: its agreement with the library's preview is proved for a maximum of at least 1 only; the generators call it with 220 and 180, and below 1 `slice` with a negative end counts from the end of the text.
- JsValue.Field: models property reads for the keys the pipeline uses, none of which is a built-in property of strings, numbers or arrays.

## Behaviour worth knowing

- Slugs are cut to 80 characters after the leading and trailing hyphens are stripped, so a slug can end with a hyphen (`SongPosts.SlugifyTrailingHyphen` gives one).
- `splitAuthors` gives `["Desconocido"]` when no token is non-blank, and also for an author field that is exactly "Desconocido" (`SongPosts.SplitAuthorsPlaceholder`).
- A preview is cut at `max(0, maxLength - 1)` characters, so it is at most `max(maxLength, 1) + 2` characters long (`SongPosts.PreviewLength`).
- Re-extracting stanzas from the joined `lyrics` text gives the stanzas back only when none of them holds a run of four newlines, which array lyrics can (`SongPosts.ParsedLyricsRoundTrip`).
- A song whose two authors have the same slug is listed twice under that artist, so a song with N authors does not always reach N distinct artists (`ArtistPages.GroupSpec`).
- Buckets of the videos page with the same video count keep the order the artist files were read in; no name tie-break is applied (`VideosPage.VideosOutputFacts`).
- The home, artist and sync scripts sort the file names; the lyrics exporter, the search index and the videos page take them in directory-listing order.
- In the home and artist generators a `null` record, or one whose slug, title, author or description is a truthy non-string (a number, say), makes a property read or `trim` throw; the error is caught and the record is skipped like a malformed file, although only slug and title are required; `parseSongPost` accepts such a record when slug and title are good (`HomePages.HomeThrowsWherePostAccepts`).
- The lyrics exporter stops, after the files it has written, at a post whose `<slug>.json` is a subdirectory of its output directory (`LyricsJson.RunCompletes`).
- The lyrics exporter does not clear its output directory first: a lyrics file no post names any more stays (`LyricsJson.WriteAllKeeps`).
- An empty song-post directory is fatal only for the sync script; the home generator then writes one empty page.
- The lyrics exporter turns a blank lyrics string into one empty stanza `[""]` (`LyricsJson.StringLyricsStanzas`).
