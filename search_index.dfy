/**
 * The search-index generator. It reads every `.json` file of the song-post
 * directory in batches of 200, projects each record to the four fields the
 * client-side search needs (`t` title, `a` author, `s` slug, `al` album),
 * drops the records without a slug and the files that cannot be read or
 * parsed, and sorts what is left by title.
 *
 * Collation is the total preorder `collate` on titles; the directory
 * listing is a parameter (`None` when it cannot be read).
 */
module SearchIndex {
  import opened JsValue
  import opened Sorting
  import opened Files

  const Batch: nat := 200

  /** One entry of `search-index.json`. */
  datatype Entry = Entry(t: Value, a: Value, s: Value, al: Value)

  /** A field of an entry: a truthy value, or `""` for a missing or falsy one. */
  predicate Filled(v: Value) {
    Truthy(v) || v == Str([])
  }

  /** JavaScript `v || ""`. */
  function OrEmpty(v: Value): (r: Value)
    ensures Truthy(v) ==> r == v
    ensures !Truthy(v) ==> r == Str([])
  {
    if Truthy(v) then v else Str([])
  }

  /**
   * The body of the batch callback for one file: `None` when reading,
   * parsing or the field reads throw (the `catch` turns any error into
   * `null`), otherwise the four fields with every falsy one replaced by
   * `""`. Values are kept as they are, not trimmed.
   */
  function ReadEntry(e: DirEntry): (r: Option<Entry>)
    ensures r.Some? <==> e.node.File? && e.node.content.Json? && !e.node.content.value.Null? && !e.node.content.value.Undefined?
    ensures r.Some? ==> Filled(r.value.t) && Filled(r.value.a) && Filled(r.value.s) && Filled(r.value.al)
    ensures r.Some? && e.node.content.value.Obj? ==>
      var fields := e.node.content.value.fields;
      && r.value.t == (if "title" in fields && Truthy(fields["title"]) then fields["title"] else Str([]))
      && r.value.a == (if "author" in fields && Truthy(fields["author"]) then fields["author"] else Str([]))
      && r.value.s == (if "slug" in fields && Truthy(fields["slug"]) then fields["slug"] else Str([]))
      && r.value.al == (if "album" in fields && Truthy(fields["album"]) then fields["album"] else Str([]))
    ensures r.Some? && !e.node.content.value.Obj? ==> r.value == Entry(Str([]), Str([]), Str([]), Str([]))
  {
    match ReadJson(e.node)
    case Thrown => None
    case Normal(data) =>
      if data.Null? || data.Undefined? then None
      else
        Some(Entry(
          OrEmpty(Field(data, "title").value),
          OrEmpty(Field(data, "author").value),
          OrEmpty(Field(data, "slug").value),
          OrEmpty(Field(data, "album").value)))
  }

  /** `r && r.s`: a file that was read and has a slug. */
  predicate Kept(r: Option<Entry>)
    ensures Kept(r) ==> r.Some? && r.value.s != Str([]) && !r.value.s.Null? && !r.value.s.Undefined?
  {
    r.Some? && Truthy(r.value.s)
  }

  /** The entries the loop collects from `files`, in file order. */
  function Collected(files: seq<DirEntry>): (r: seq<Entry>)
    ensures |r| <= |files|
  {
    if files == [] then []
    else
      var r := ReadEntry(files[|files| - 1]);
      Collected(files[..|files| - 1]) + if Kept(r) then [r.value] else []
  }

  lemma {:induction false} CollectedAppend(files: seq<DirEntry>, more: seq<DirEntry>)
    ensures Collected(files + more) == Collected(files) + Collected(more)
    decreases |more|
  {
    if more == [] {
      assert files + more == files;
    } else {
      var init := more[..|more| - 1];
      assert (files + more)[..|files + more| - 1] == files + init;
      CollectedAppend(files, init);
    }
  }

  /**
   * Every collected entry comes from a file whose callback returned it and
   * has a truthy slug; every such file's entry is collected.
   */
  lemma {:induction false} CollectedMembers(files: seq<DirEntry>, x: Entry)
    ensures x in Collected(files) <==> exists i :: 0 <= i < |files| && ReadEntry(files[i]) == Some(x) && Truthy(x.s)
  {
    if files != [] {
      var init := files[..|files| - 1];
      CollectedMembers(init, x);
      if x in Collected(files) && x !in Collected(init) {
        assert ReadEntry(files[|files| - 1]) == Some(x);
      }
      if exists i :: 0 <= i < |files| && ReadEntry(files[i]) == Some(x) && Truthy(x.s) {
        var i :| 0 <= i < |files| && ReadEntry(files[i]) == Some(x) && Truthy(x.s);
        if i < |files| - 1 {
          assert init[i] == files[i];
        }
      }
    }
  }

  /**
   * One batch: every file of `batch` read (`Promise.all` keeps the order of
   * `batch`), then the results that have a slug pushed in that order.
   */
  method CollectBatch(batch: seq<DirEntry>) returns (kept: seq<Entry>)
    ensures kept == Collected(batch)
  {
    var results := seq(|batch|, j requires 0 <= j < |batch| => ReadEntry(batch[j]));
    kept := [];
    for j := 0 to |results|
      invariant kept == Collected(batch[..j])
    {
      assert batch[..j + 1][..j] == batch[..j];
      kept := kept + if Kept(results[j]) then [results[j].value] else [];
    }
    assert batch[..|results|] == batch;
  }

  /**
   * The batched loop: batch after batch of at most 200 files, each file's
   * result appended in file order once its batch has finished.
   */
  method CollectSongs(files: seq<DirEntry>) returns (songs: seq<Entry>)
    ensures songs == Collected(files)
  {
    songs := [];
    var i := 0;
    while i < |files|
      invariant i <= |files|
      invariant songs == Collected(files[..i])
    {
      var end := if i + Batch <= |files| then i + Batch else |files|;
      var batch := files[i..end];
      var kept := CollectBatch(batch);
      songs := songs + kept;
      assert files[..end] == files[..i] + batch;
      CollectedAppend(files[..i], batch);
      i := end;
    }
    assert files[..i] == files;
  }

  /* ---------------------------------------------------------------------- */
  /* Sorting by title                                                        */
  /* ---------------------------------------------------------------------- */

  /** The title as `localeCompare` sees it (only string titles are compared). */
  function Title(e: Entry): string {
    if e.t.Str? then e.t.s else []
  }

  /**
   * `songs.sort((a, b) => a.t.localeCompare(b.t, "es"))`. A title that is
   * not a string has no `localeCompare`, so once there are two entries to
   * compare such a title stops the run (`None`).
   */
  function SortByTitle(songs: seq<Entry>, collate: (string, string) -> bool): (r: Option<seq<Entry>>)
    ensures r.None? <==> |songs| >= 2 && exists i :: 0 <= i < |songs| && !songs[i].t.Str?
  {
    if |songs| >= 2 && exists i :: 0 <= i < |songs| && !songs[i].t.Str? then None
    else Some(SortBy(songs, Title, collate))
  }

  /** `search-index.json` for a song-post listing, or `None` when the run stops. */
  function SearchIndexOf(listing: seq<DirEntry>, collate: (string, string) -> bool): (r: Option<seq<Entry>>)
    ensures r.Some? ==> |r.value| <= |JsonEntries(listing)|
  {
    SortByTitle(Collected(JsonEntries(listing)), collate)
  }

  /**
   * The index holds every readable song post with a slug exactly as often
   * as the listing does, sorted by title, equal titles in listing order, and
   * has at most one entry per `.json` file.
   */
  lemma SearchIndexFacts(listing: seq<DirEntry>, collate: (string, string) -> bool, title: string)
    requires TotalPreorder(collate)
    requires SearchIndexOf(listing, collate).Some?
    ensures var index := SearchIndexOf(listing, collate).value;
      var songs := Collected(JsonEntries(listing));
      && |index| <= |JsonEntries(listing)|
      && multiset(index) == multiset(songs)
      && SortedBy(index, Title, collate)
      && Tied(index, Title, collate, title) == Tied(songs, Title, collate, title)
      && (forall i :: 0 <= i < |index| ==> Truthy(index[i].s))
  {
    var songs := Collected(JsonEntries(listing));
    var index := SearchIndexOf(listing, collate).value;
    SortBySorted(songs, Title, collate);
    SortByStable(songs, Title, collate, title);
    forall i | 0 <= i < |index| ensures Truthy(index[i].s) {
      assert index[i] in multiset(songs);
      CollectedMembers(JsonEntries(listing), index[i]);
    }
  }

  /**
   * The script: an unreadable directory or an uncomparable title stops the
   * run (`None`, nothing written); otherwise the sorted entries.
   */
  method GenerateSearchIndex(listing: Option<seq<DirEntry>>, collate: (string, string) -> bool) returns (r: Option<seq<Entry>>)
    ensures listing.None? ==> r.None?
    ensures listing.Some? ==> r == SearchIndexOf(listing.value, collate)
  {
    if listing.None? {
      return None;
    }
    var files := JsonEntries(listing.value);
    var songs := CollectSongs(files);
    r := SortByTitle(songs, collate);
  }
}
