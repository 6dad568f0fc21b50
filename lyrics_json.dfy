/**
 * The lyrics-only export. For every `.json` song post it writes
 * `<slug>.json` into the lyrics directory with the trimmed title, slug,
 * author and album and the lyrics as stanzas, skipping the posts without a
 * slug. It carries its own copy of stanza extraction, which differs from
 * the library's (`SongPosts.ExtractLyricsStanzas`) in two ways: an object
 * item takes its first truthy property, string or not, and a blank string
 * gives one empty stanza.
 *
 * The script has no error handling: the first file that cannot be read or
 * parsed, or whose fields cannot be trimmed, or whose `<slug>.json` is a
 * subdirectory of the lyrics directory, stops the run, and the files
 * written before it stay written.
 */
module LyricsJson {
  import opened JsValue
  import opened JsString
  import opened Files
  import SongPosts

  /* ---------------------------------------------------------------------- */
  /* Stanzas                                                                 */
  /* ---------------------------------------------------------------------- */

  /** `a || b || …`: the first truthy value, or the last value when none is truthy. */
  function FirstTruthy(candidates: seq<Value>): (r: Value)
    requires candidates != []
    ensures Truthy(r) <==> exists i :: 0 <= i < |candidates| && Truthy(candidates[i])
    ensures forall i :: 0 <= i < |candidates| && Truthy(candidates[i]) && NoneTruthy(candidates[..i]) ==> r == candidates[i]
  {
    if |candidates| == 1 || Truthy(candidates[0]) then
      assert forall i :: 0 < i < |candidates| ==> candidates[..i][0] == candidates[0];
      candidates[0]
    else
      var r := FirstTruthy(candidates[1..]);
      assert forall i :: 1 <= i < |candidates| ==> candidates[i] == candidates[1..][i - 1];
      assert forall i :: 1 <= i < |candidates| ==> candidates[..i][1..] == candidates[1..][..i - 1];
      r
  }

  predicate NoneTruthy(candidates: seq<Value>) {
    forall i :: 0 <= i < |candidates| ==> !Truthy(candidates[i])
  }

  /**
   * One item of a lyrics array after `.map(…).filter(Boolean)`: a string is
   * trimmed; an object (an array included, whose properties are all
   * missing) gives `item.text || item.lyric || item.lyrics || item.stanza ||
   * item.verse`, trimmed when that is a string and dropped otherwise; other
   * values are dropped, and so is every empty result.
   */
  function ItemStanza(item: Value): (r: Option<string>)
    ensures r.Some? ==> r.value != [] && IsTrimmed(r.value)
    ensures item.Str? ==> r == SongPosts.ToNullableString(item)
    ensures !item.Str? && !item.Obj? ==> r.None?
  {
    if item.Str? then
      var stanza := Trim(item.s);
      if stanza != [] then Some(stanza) else None
    else if Truthy(item) && (item.Obj? || item.Arr?) then
      var text := FirstTruthy(SongPosts.StanzaCandidates(if item.Obj? then item.fields else map[]));
      if text.Str? && Trim(text.s) != [] then Some(Trim(text.s)) else None
    else None
  }

  /**
   * Where the script keeps a stanza, the library keeps the same one; the
   * library may keep one the script drops (an object whose first truthy
   * property is blank or not a string, but a later one has text).
   */
  lemma ItemStanzaRefines(item: Value)
    ensures ItemStanza(item).Some? ==> SongPosts.LyricStanza(item) == ItemStanza(item)
    ensures item.Str? ==> SongPosts.LyricStanza(item) == ItemStanza(item)
  {
    if ItemStanza(item).Some? && item.Obj? {
      ObjectStanzaRefines(SongPosts.StanzaCandidates(item.fields));
    }
  }

  /** The first truthy candidate, when it has text, is the first candidate with text. */
  lemma ObjectStanzaRefines(candidates: seq<Value>)
    requires candidates != []
    requires FirstTruthy(candidates).Str? && Trim(FirstTruthy(candidates).s) != []
    ensures SongPosts.FirstContent(candidates) == Some(Trim(FirstTruthy(candidates).s))
  {
    FirstTruthyIndex(candidates);
    var k :| 0 <= k < |candidates| && Truthy(candidates[k]) && NoneTruthy(candidates[..k]);
    assert FirstTruthy(candidates) == candidates[k];
    assert SongPosts.HasContent(candidates[k]);
    assert SongPosts.NoneWithContent(candidates[..k]) by {
      forall i | 0 <= i < k ensures !SongPosts.HasContent(candidates[..k][i]) {
        assert !Truthy(candidates[..k][i]);
      }
    }
  }

  lemma {:induction false} FirstTruthyIndex(candidates: seq<Value>)
    requires exists i :: 0 <= i < |candidates| && Truthy(candidates[i])
    ensures exists k :: 0 <= k < |candidates| && Truthy(candidates[k]) && NoneTruthy(candidates[..k])
  {
    if Truthy(candidates[0]) {
      assert NoneTruthy(candidates[..0]);
    } else {
      var i :| 0 <= i < |candidates| && Truthy(candidates[i]);
      assert Truthy(candidates[1..][i - 1]);
      FirstTruthyIndex(candidates[1..]);
      var k :| 0 <= k < |candidates| - 1 && Truthy(candidates[1..][k]) && NoneTruthy(candidates[1..][..k]);
      assert candidates[..k + 1] == [candidates[0]] + candidates[1..][..k];
      assert Truthy(candidates[k + 1]);
    }
  }

  /** The stanzas of the items of a lyrics array, in order. */
  function ItemStanzas(items: seq<Value>): (r: seq<string>)
    ensures |r| <= |items|
    ensures forall i :: 0 <= i < |r| ==> r[i] != [] && IsTrimmed(r[i])
  {
    if items == [] then []
    else
      var head := ItemStanza(items[0]);
      (if head.Some? then [head.value] else []) + ItemStanzas(items[1..])
  }

  /** An array of strings gives the same stanzas as in the library. */
  lemma {:induction false} ItemStanzasOfStrings(items: seq<Value>)
    requires forall i :: 0 <= i < |items| ==> items[i].Str?
    ensures ItemStanzas(items) == SongPosts.ArrayStanzas(items)
  {
    if items != [] {
      ItemStanzaRefines(items[0]);
      ItemStanzasOfStrings(items[1..]);
    }
  }

  /**
   * `lyricsStanzas` for the `lyrics` field: the stanzas of an array; for a
   * string, its trimmed text split at runs of four or more newlines when
   * that gives more than one non-blank part, else the trimmed text alone;
   * nothing for any other value.
   */
  function LyricsStanzas(lyrics: Value): (r: seq<string>)
    ensures !lyrics.Arr? && !lyrics.Str? ==> r == []
  {
    if lyrics.Arr? then ItemStanzas(lyrics.items)
    else if lyrics.Str? then
      var text := Trim(lyrics.s);
      var byGap := TrimmedNonEmpty(SplitGaps(text));
      if |byGap| > 1 then byGap else [text]
    else []
  }

  /**
   * A blank string gives the single empty stanza `[""]` (the library gives
   * none); any other value that is not an array gives what the library
   * gives.
   */
  lemma StringLyricsStanzas(lyrics: Value)
    requires !lyrics.Arr?
    ensures lyrics.Str? && AllSpace(lyrics.s) ==> LyricsStanzas(lyrics) == [[]]
    ensures !(lyrics.Str? && AllSpace(lyrics.s)) ==> LyricsStanzas(lyrics) == SongPosts.ExtractLyricsStanzas(lyrics)
  {
    if lyrics.Str? && AllSpace(lyrics.s) {
      assert SplitGaps([]) == [[]];
      assert Trim([]) == [];
    }
  }

  /* ---------------------------------------------------------------------- */
  /* One song post                                                           */
  /* ---------------------------------------------------------------------- */

  /** The contents of one `<slug>.json`. */
  datatype LyricsRecord = LyricsRecord(
    title: string,
    slug: string,
    author: string,
    album: Option<string>,
    lyrics: string,
    lyricsStanzas: seq<string>)

  /** `data.album ? data.album.trim() : null`, which throws for a truthy non-string. */
  function Album(v: Value): (r: Completion<Option<string>>)
    ensures r.Thrown? <==> NoTrim(v)
    ensures r == Normal(None) <==> !Truthy(v)
    ensures r.Normal? && r.value.Some? ==> r.value.value == Trim(v.s)
  {
    if !Truthy(v) then Normal(None)
    else if v.Str? then Normal(Some(Trim(v.s)))
    else Thrown
  }

  /**
   * The body of the file loop for one file: `Thrown` when the file cannot
   * be read or parsed, or holds `null`; otherwise what its fields give. A
   * value that is not an object has none of the fields read.
   */
  function ReadRecord(e: DirEntry): (r: Completion<Option<LyricsRecord>>)
    ensures r.Normal? ==> e.node.File? && e.node.content.Json?
    ensures r.Normal? && e.node.content.value.Obj? ==> r == RecordOf(e.node.content.value.fields)
  {
    var data :- ReadJson(e.node);
    if data.Null? || data.Undefined? then Thrown
    else RecordOf(if data.Obj? then data.fields else map[])
  }

  /** The trimmed text fields of a record. */
  datatype Header = Header(title: string, slug: string, author: string, album: Option<string>)

  /**
   * `slug`, `title`, `author` and `album` of a post: `Normal(None)` for a
   * blank slug (no file written), `Thrown` when a truthy field that is
   * trimmed is not a string. A written slug is non-empty and trimmed; the
   * title is `""` and the author `"Desconocido"` when the field is falsy,
   * and otherwise the trimmed field (a blank author stays `""`); the album
   * is `null` exactly when the field is falsy.
   */
  function HeaderOf(fields: map<string, Value>): (r: Completion<Option<Header>>)
    ensures r.Thrown? <==>
      || NoTrim(Prop(fields, "slug"))
      || (!Blank(Prop(fields, "slug")) && (NoTrim(Prop(fields, "title")) || NoTrim(Prop(fields, "author")) || NoTrim(Prop(fields, "album"))))
    ensures Blank(Prop(fields, "slug")) <==> r == Normal(None)
    ensures r.Normal? && r.value.Some? ==>
      var h := r.value.value;
      && h.slug != [] && h.slug == Trim(Prop(fields, "slug").s)
      && (Truthy(Prop(fields, "title")) ==> h.title == Trim(Prop(fields, "title").s))
      && (!Truthy(Prop(fields, "title")) ==> h.title == [])
      && (Truthy(Prop(fields, "author")) ==> h.author == Trim(Prop(fields, "author").s))
      && (!Truthy(Prop(fields, "author")) ==> h.author == SongPosts.UnknownAuthor)
      && (h.album.None? <==> !Truthy(Prop(fields, "album")))
      && (h.album.Some? ==> h.album.value == Trim(Prop(fields, "album").s))
  {
    SongPosts.UnknownAuthorTrimmed();
    var slug :- TrimOr(Prop(fields, "slug"), "");
    if slug == [] then Normal(None)
    else
      var title :- TrimOr(Prop(fields, "title"), "");
      var author :- TrimOr(Prop(fields, "author"), SongPosts.UnknownAuthor);
      var album :- Album(Prop(fields, "album"));
      Normal(Some(Header(title, slug, author, album)))
  }

  /**
   * The record of a post's fields: its header, and the stanzas of its
   * `lyrics` field joined by four newlines.
   */
  function RecordOf(fields: map<string, Value>): (r: Completion<Option<LyricsRecord>>)
    ensures r.Thrown? <==> HeaderOf(fields).Thrown?
    ensures r.Normal? ==> (r.value.None? <==> HeaderOf(fields).value.None?)
    ensures r.Normal? && r.value.Some? ==>
      var rec := r.value.value;
      && HeaderOf(fields).value.value == Header(rec.title, rec.slug, rec.author, rec.album)
      && rec.lyricsStanzas == LyricsStanzas(Prop(fields, "lyrics"))
      && rec.lyrics == Join(rec.lyricsStanzas, Gap)
  {
    var header :- HeaderOf(fields);
    if header.None? then Normal(None)
    else
      var h := header.value;
      var stanzas := LyricsStanzas(Prop(fields, "lyrics"));
      Normal(Some(LyricsRecord(h.title, h.slug, h.author, h.album, Join(stanzas, Gap), stanzas)))
  }

  /**
   * Reading a written non-blank string's `lyrics` back with the library
   * gives the record's stanzas: four newlines joining stanzas that hold no
   * such run themselves round-trip.
   */
  lemma StringLyricsRoundTrip(lyrics: Value)
    requires lyrics.Str? && !AllSpace(lyrics.s)
    ensures SongPosts.ExtractLyricsStanzas(Str(Join(LyricsStanzas(lyrics), Gap))) == LyricsStanzas(lyrics)
  {
    var stanzas := LyricsStanzas(lyrics);
    StringLyricsStanzas(lyrics);
    SongPosts.StringStanzasGapFree(lyrics);
    SongPosts.JoinedStanzasRoundTrip(stanzas);
  }

  /* ---------------------------------------------------------------------- */
  /* The run                                                                 */
  /* ---------------------------------------------------------------------- */

  /** A file of the lyrics directory: one from an earlier run, or one written now. */
  datatype LyricsFile = Existing(node: Node) | Written(record: LyricsRecord)

  /**
   * The records written for `files` in order, the lyrics directory after
   * writing them, and whether the loop finished.
   */
  datatype RunResult = RunResult(records: seq<LyricsRecord>, out: map<string, LyricsFile>, completed: bool)

  /** What the loop body does with one file. */
  type Outcome = Completion<Option<LyricsRecord>>

  /** The outcome of each file, in order. */
  function Outcomes(files: seq<DirEntry>): (r: seq<Outcome>)
    ensures |r| == |files|
  {
    seq(|files|, i requires 0 <= i < |files| => ReadRecord(files[i]))
  }

  /** `name` is a subdirectory of the lyrics directory, which `writeFileSync` cannot write over. */
  predicate IsSubdir(dir: map<string, LyricsFile>, name: string) {
    name in dir && dir[name] == Existing(Subdir)
  }

  /**
   * A file's outcome lets the loop go on in `dir`: it was read and parsed,
   * and its record, if any, does not name a subdirectory.
   */
  predicate Proceeds(dir: map<string, LyricsFile>, outcome: Outcome) {
    outcome.Normal? && (outcome.value.Some? ==> !IsSubdir(dir, FileName(outcome.value.value.slug)))
  }

  /**
   * The loop over the outcomes, up to their end or the first one that stops
   * it: a file that throws, or a record whose file is a subdirectory.
   */
  function Run(dir: map<string, LyricsFile>, outcomes: seq<Outcome>): (r: RunResult)
    ensures |r.records| <= |outcomes|
  {
    if outcomes == [] then RunResult([], dir, true)
    else
      var earlier := Run(dir, outcomes[..|outcomes| - 1]);
      if !earlier.completed then earlier
      else
        match outcomes[|outcomes| - 1]
        case Thrown => RunResult(earlier.records, earlier.out, false)
        case Normal(None) => earlier
        case Normal(Some(rec)) =>
          if IsSubdir(earlier.out, FileName(rec.slug)) then RunResult(earlier.records, earlier.out, false)
          else RunResult(earlier.records + [rec], earlier.out[FileName(rec.slug) := Written(rec)], true)
  }

  /** The directory a run leaves is the earlier one with its records written in order. */
  lemma {:induction false} RunOut(dir: map<string, LyricsFile>, outcomes: seq<Outcome>)
    ensures Run(dir, outcomes).out == WriteAll(dir, Run(dir, outcomes).records)
  {
    if outcomes != [] {
      var earlier := Run(dir, outcomes[..|outcomes| - 1]);
      RunOut(dir, outcomes[..|outcomes| - 1]);
      var last := outcomes[|outcomes| - 1];
      if earlier.completed && last.Normal? && last.value.Some? && !IsSubdir(earlier.out, FileName(last.value.value.slug)) {
        WriteAllAppend(dir, earlier.records, last.value.value);
      }
    }
  }

  /** The loop writes only over files: the subdirectories are those of the earlier directory. */
  lemma {:induction false} RunSubdirs(dir: map<string, LyricsFile>, outcomes: seq<Outcome>, name: string)
    ensures IsSubdir(Run(dir, outcomes).out, name) <==> IsSubdir(dir, name)
  {
    if outcomes != [] {
      RunSubdirs(dir, outcomes[..|outcomes| - 1], name);
    }
  }

  /**
   * The loop finishes exactly when no file stops it: every file reads and
   * parses, and no record names a subdirectory of the earlier directory.
   */
  lemma {:induction false} RunCompletes(dir: map<string, LyricsFile>, outcomes: seq<Outcome>)
    ensures Run(dir, outcomes).completed <==> forall i :: 0 <= i < |outcomes| ==> Proceeds(dir, outcomes[i])
  {
    if outcomes != [] {
      var init := outcomes[..|outcomes| - 1];
      RunCompletes(dir, init);
      assert forall i :: 0 <= i < |init| ==> init[i] == outcomes[i];
      var last := outcomes[|outcomes| - 1];
      if last.Normal? && last.value.Some? {
        RunSubdirs(dir, init, FileName(last.value.value.slug));
      }
    }
  }

  /** Each record written is the record of one of the files. */
  lemma {:induction false} RunRecords(dir: map<string, LyricsFile>, outcomes: seq<Outcome>, j: nat)
    requires j < |Run(dir, outcomes).records|
    ensures exists i :: 0 <= i < |outcomes| && outcomes[i] == Normal(Some(Run(dir, outcomes).records[j]))
  {
    var init := outcomes[..|outcomes| - 1];
    var earlier := Run(dir, init);
    if j < |earlier.records| {
      RunRecords(dir, init, j);
      var i :| 0 <= i < |init| && init[i] == Normal(Some(earlier.records[j]));
      assert Run(dir, outcomes).records[j] == earlier.records[j];
    } else {
      assert outcomes[|outcomes| - 1] == Normal(Some(Run(dir, outcomes).records[j]));
    }
  }

  /** When no file stops the loop, every file with a record has it written. */
  lemma {:induction false} RunWritesAll(dir: map<string, LyricsFile>, outcomes: seq<Outcome>, i: nat)
    requires i < |outcomes| && Run(dir, outcomes).completed && outcomes[i].Normal? && outcomes[i].value.Some?
    ensures outcomes[i].value.value in Run(dir, outcomes).records
  {
    var init := outcomes[..|outcomes| - 1];
    if i < |init| {
      assert init[i] == outcomes[i];
      RunWritesAll(dir, init, i);
    }
  }

  lemma RunStep(dir: map<string, LyricsFile>, outcomes: seq<Outcome>, i: nat)
    requires i < |outcomes| && Run(dir, outcomes[..i]).completed
    ensures Run(dir, outcomes[..i + 1]) ==
      var earlier := Run(dir, outcomes[..i]);
      match outcomes[i]
      case Thrown => RunResult(earlier.records, earlier.out, false)
      case Normal(None) => earlier
      case Normal(Some(rec)) =>
        if IsSubdir(earlier.out, FileName(rec.slug)) then RunResult(earlier.records, earlier.out, false)
        else RunResult(earlier.records + [rec], earlier.out[FileName(rec.slug) := Written(rec)], true)
  {
    assert outcomes[..i + 1][..i] == outcomes[..i];
  }

  /** Once the loop has stopped, later files change nothing. */
  lemma {:induction false} RunStops(dir: map<string, LyricsFile>, outcomes: seq<Outcome>, n: nat)
    requires n <= |outcomes| && !Run(dir, outcomes[..n]).completed
    ensures Run(dir, outcomes) == Run(dir, outcomes[..n])
  {
    if n < |outcomes| {
      var init := outcomes[..|outcomes| - 1];
      assert init[..n] == outcomes[..n];
      RunStops(dir, init, n);
    } else {
      assert outcomes[..n] == outcomes;
    }
  }

  /** The lyrics directory after writing `records` in order. */
  function WriteAll(dir: map<string, LyricsFile>, records: seq<LyricsRecord>): (r: map<string, LyricsFile>)
    ensures forall n :: n in dir ==> n in r
    ensures forall n :: n in r && n !in dir ==> r[n].Written?
  {
    if records == [] then dir
    else WriteAll(dir, records[..|records| - 1])[FileName(records[|records| - 1].slug) := Written(records[|records| - 1])]
  }

  lemma WriteAllAppend(dir: map<string, LyricsFile>, records: seq<LyricsRecord>, rec: LyricsRecord)
    ensures WriteAll(dir, records + [rec]) == WriteAll(dir, records)[FileName(rec.slug) := Written(rec)]
  {
    assert (records + [rec])[..|records|] == records;
  }

  /** The directory holds its earlier files and one file per slug written. */
  lemma {:induction false} WriteAllKeys(dir: map<string, LyricsFile>, records: seq<LyricsRecord>)
    ensures WriteAll(dir, records).Keys == dir.Keys + set i | 0 <= i < |records| :: FileName(records[i].slug)
  {
    if records != [] {
      var init := records[..|records| - 1];
      WriteAllKeys(dir, init);
      assert forall i :: 0 <= i < |init| ==> init[i] == records[i];
      assert (set i | 0 <= i < |records| :: FileName(records[i].slug))
          == (set i | 0 <= i < |init| :: FileName(init[i].slug)) + {FileName(records[|records| - 1].slug)};
    }
  }

  lemma FileNameInjective(a: string, b: string)
    ensures FileName(a) == FileName(b) ==> a == b
  {
    if FileName(a) == FileName(b) {
      assert a == FileName(a)[..|FileName(a)| - 5];
      assert b == FileName(b)[..|FileName(b)| - 5];
    }
  }

  /**
   * A later record overwrites an earlier one with the same slug: the file
   * of a slug holds the last record written with it.
   */
  lemma {:induction false} WriteAllLastWins(dir: map<string, LyricsFile>, records: seq<LyricsRecord>, i: nat)
    requires i < |records|
    requires forall j :: i < j < |records| ==> records[j].slug != records[i].slug
    ensures FileName(records[i].slug) in WriteAll(dir, records)
    ensures WriteAll(dir, records)[FileName(records[i].slug)] == Written(records[i])
  {
    var last := |records| - 1;
    if i < last {
      var init := records[..last];
      WriteAllLastWins(dir, init, i);
      FileNameInjective(records[last].slug, records[i].slug);
    }
  }

  /** A file no record names keeps its earlier contents. */
  lemma {:induction false} WriteAllKeeps(dir: map<string, LyricsFile>, records: seq<LyricsRecord>, name: string)
    requires name in dir
    requires forall j :: 0 <= j < |records| ==> FileName(records[j].slug) != name
    ensures name in WriteAll(dir, records) && WriteAll(dir, records)[name] == dir[name]
  {
    if records != [] {
      WriteAllKeeps(dir, records[..|records| - 1], name);
    }
  }

  /** The loop over a listing's `.json` files, writing into `dir`. */
  function RunOf(listing: seq<DirEntry>, dir: map<string, LyricsFile>): (r: RunResult)
    ensures |r.records| <= |JsonEntries(listing)|
  {
    Run(dir, Outcomes(JsonEntries(listing)))
  }

  /**
   * The script: an unreadable listing stops it before anything is written;
   * otherwise the file loop writes one file per post with a slug, until
   * the end or the first file that stops the run (one that throws, or
   * whose record would be written over a subdirectory), and `count` is
   * the number of files written.
   */
  method GenerateLyricsJson(listing: Option<seq<DirEntry>>, dir: map<string, LyricsFile>)
    returns (out: map<string, LyricsFile>, count: nat, completed: bool, ghost written: seq<LyricsRecord>)
    ensures listing.None? ==> out == dir && count == 0 && !completed
    ensures listing.Some? ==> RunOf(listing.value, dir) == RunResult(written, out, completed)
    ensures count == |written|
  {
    if listing.None? {
      return dir, 0, false, [];
    }
    var files := JsonEntries(listing.value);
    ghost var outcomes := Outcomes(files);
    out, count, completed := dir, 0, true;
    written := [];
    var i := 0;
    while i < |files|
      invariant i <= |files|
      invariant Run(dir, outcomes[..i]) == RunResult(written, out, true)
      invariant count == |written|
    {
      RunStep(dir, outcomes, i);
      var r := ReadRecord(files[i]);
      assert r == outcomes[i];
      if r.Thrown? {
        RunStops(dir, outcomes, i + 1);
        completed := false;
        return;
      }
      if r.value.Some? {
        var rec := r.value.value;
        if FileName(rec.slug) in out && out[FileName(rec.slug)] == Existing(Subdir) {
          RunStops(dir, outcomes, i + 1);
          completed := false;
          return;
        }
        out := out[FileName(rec.slug) := Written(rec)];
        count := count + 1;
        written := written + [rec];
      }
      i := i + 1;
    }
    assert outcomes[..i] == outcomes;
  }
}
