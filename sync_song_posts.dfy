/**
 * The song-post sync script. It picks the source directory (the trimmed
 * source-directory environment variable when it is set, then the sibling
 * `song-posts` checkout), copies every `.json` file of that directory into
 * the local song-post directory in name order, rewriting each one as
 * normalised JSON, and then deletes the `.json` files of the local
 * directory that the source no longer has.
 *
 * The file system is a parameter: `fs(path)` is the listing of the
 * directory at `path`, or `None` when there is no directory there (nothing
 * at all, or a plain file: `stat` fails or `isDirectory()` is false). The
 * local directory is a map from names to files.
 */
module SyncSongPosts {
  import opened JsValue
  import opened JsString
  import opened Sorting
  import opened Files

  /** A file of the local song-post directory: left from before, or written now. */
  datatype TargetFile = Existing(node: Node) | Normalized(post: map<string, Value>)

  /** `entry.isFile()` for an entry of the local directory. */
  predicate IsFile(f: TargetFile) {
    !(f.Existing? && f.node.Subdir?)
  }

  /* ---------------------------------------------------------------------- */
  /* Choosing the source directory                                           */
  /* ---------------------------------------------------------------------- */

  /**
   * `[process.env.SONG_POSTS_SOURCE_DIR?.trim(), sibling].filter(Boolean)`:
   * the trimmed variable first when it is not blank, then the sibling path
   * when it is not empty.
   */
  function Candidates(env: Option<string>, sibling: string): (r: seq<string>)
    ensures forall i :: 0 <= i < |r| ==> r[i] != []
    ensures |r| == (if env.Some? && Trim(env.value) != [] then 1 else 0) + (if sibling != [] then 1 else 0)
    ensures env.Some? && Trim(env.value) != [] ==> r[0] == Trim(env.value)
    ensures sibling != [] ==> r[|r| - 1] == sibling
  {
    (if env.Some? && Trim(env.value) != [] then [Trim(env.value)] else [])
    + (if sibling != [] then [sibling] else [])
  }

  /**
   * `(await Promise.all(candidates.map(stat-is-directory))).find(Boolean)`:
   * the index of the first candidate that is a directory. Every candidate
   * is looked at, and the list order decides, not which `stat` ends first.
   */
  function FirstDirectory(candidates: seq<string>, fs: string -> Option<seq<DirEntry>>): (r: Option<nat>)
    ensures r.Some? ==> r.value < |candidates| && fs(candidates[r.value]).Some?
    ensures r.Some? ==> forall j :: 0 <= j < r.value ==> fs(candidates[j]).None?
    ensures r.None? ==> forall j :: 0 <= j < |candidates| ==> fs(candidates[j]).None?
  {
    if candidates == [] then None
    else if fs(candidates[0]).Some? then Some(0)
    else
      match FirstDirectory(candidates[1..], fs)
      case None => None
      case Some(k) => Some(k + 1)
  }

  /** The listing of the chosen source directory; `None` when no candidate is a directory. */
  function SourceListing(env: Option<string>, sibling: string, fs: string -> Option<seq<DirEntry>>): Option<seq<DirEntry>> {
    var candidates := Candidates(env, sibling);
    match FirstDirectory(candidates, fs)
    case None => None
    case Some(k) => fs(candidates[k])
  }

  /* ---------------------------------------------------------------------- */
  /* The source files                                                        */
  /* ---------------------------------------------------------------------- */

  /** `entries.filter((e) => e.isFile() && e.name.endsWith(".json"))`. */
  function JsonFiles(listing: seq<DirEntry>): (r: seq<DirEntry>)
    ensures forall i :: 0 <= i < |r| ==> r[i] in listing && r[i].node.File? && IsJsonName(r[i].name)
    ensures forall e :: e in listing && e.node.File? && IsJsonName(e.name) ==> e in r
  {
    if listing == [] then []
    else
      var rest := JsonFiles(listing[1..]);
      assert forall e :: e in listing[1..] ==> e in listing;
      if listing[0].node.File? && IsJsonName(listing[0].name) then [listing[0]] + rest else rest
  }

  /** The source files in the order the script copies them: by name under `collate`. */
  function SourceFiles(listing: seq<DirEntry>, collate: (string, string) -> bool): seq<DirEntry> {
    SortBy(JsonFiles(listing), NameOf, collate)
  }

  /** The names of `files` (`sourceFiles` of the script). */
  function Names(files: seq<DirEntry>): set<string> {
    set f | f in files :: f.name
  }

  /**
   * The files to copy are exactly the `.json` files of the source listing,
   * each as often as there, in name order.
   */
  lemma SourceFilesFacts(listing: seq<DirEntry>, collate: (string, string) -> bool)
    requires TotalPreorder(collate)
    ensures var files := SourceFiles(listing, collate);
      && SortedBy(files, NameOf, collate)
      && multiset(files) == multiset(JsonFiles(listing))
      && (forall e :: e in files <==> e in listing && e.node.File? && IsJsonName(e.name))
  {
    var files := SourceFiles(listing, collate);
    SortBySorted(JsonFiles(listing), NameOf, collate);
    forall e | e in files
      ensures e in listing && e.node.File? && IsJsonName(e.name)
    {
      assert e in multiset(JsonFiles(listing));
    }
    forall e | e in listing && e.node.File? && IsJsonName(e.name)
      ensures e in files
    {
      assert e in multiset(JsonFiles(listing));
    }
  }

  /* ---------------------------------------------------------------------- */
  /* Copying                                                                 */
  /* ---------------------------------------------------------------------- */

  /**
   * `normalizeSongPost(raw)`: the parsed post, to be written back as
   * indented JSON. It throws when the text does not parse and when the
   * parsed value is falsy, not an object, or an array, so only a plain
   * object gets through.
   */
  function NormalizeSongPost(node: Node): (r: Completion<map<string, Value>>)
    ensures r.Normal? <==> node.File? && node.content.Json? && node.content.value.Obj?
    ensures r.Normal? ==> Obj(r.value) == node.content.value
  {
    var parsed :- ReadJson(node);
    if !Truthy(parsed) || !(parsed.Obj? || parsed.Arr? || parsed.Null?) || parsed.Arr? then Thrown
    else Normal(parsed.fields)
  }

  /**
   * One file can be copied into `target`: it parses to a plain object, and
   * the name is not taken by a directory there (`writeFile` rejects with
   * EISDIR).
   */
  predicate Copyable(target: map<string, TargetFile>, e: DirEntry)
    ensures Copyable(target, e) <==>
      && e.node.File? && e.node.content.Json? && e.node.content.value.Obj?
      && !(e.name in target && target[e.name] == Existing(Subdir))
  {
    NormalizeSongPost(e.node).Normal? && (e.name in target ==> IsFile(target[e.name]))
  }

  /** The local directory after the copy loop, and whether the loop finished. */
  datatype CopyResult = CopyResult(target: map<string, TargetFile>, completed: bool)

  /**
   * The copy loop over `files`: each file is read, normalised and written
   * under its own name; the first file that cannot be copied ends the run,
   * and what was written before it stays written.
   */
  function Copy(target: map<string, TargetFile>, files: seq<DirEntry>): (r: CopyResult)
    ensures forall n :: n in target ==> n in r.target
    ensures forall n :: n in r.target && n !in target ==> r.target[n].Normalized?
  {
    if files == [] then CopyResult(target, true)
    else
      var prev := Copy(target, files[..|files| - 1]);
      var e := files[|files| - 1];
      if !prev.completed || !Copyable(prev.target, e) then CopyResult(prev.target, false)
      else CopyResult(prev.target[e.name := Normalized(NormalizeSongPost(e.node).value)], true)
  }

  lemma CopyStep(target: map<string, TargetFile>, files: seq<DirEntry>, i: nat)
    requires i < |files|
    ensures Copy(target, files[..i + 1]) ==
      var prev := Copy(target, files[..i]);
      if !prev.completed || !Copyable(prev.target, files[i]) then CopyResult(prev.target, false)
      else CopyResult(prev.target[files[i].name := Normalized(NormalizeSongPost(files[i].node).value)], true)
  {
    assert files[..i + 1][..i] == files[..i];
  }

  /** Once a prefix of the files has stopped the loop, the rest changes nothing. */
  lemma {:induction false} CopyStops(target: map<string, TargetFile>, files: seq<DirEntry>, n: nat)
    requires n <= |files| && !Copy(target, files[..n]).completed
    ensures Copy(target, files) == Copy(target, files[..n])
    decreases |files| - n
  {
    if n < |files| {
      CopyStep(target, files, n);
      CopyStops(target, files, n + 1);
    } else {
      assert files[..n] == files;
    }
  }

  /**
   * After a finished copy the directory holds everything it held before
   * plus one file per copied name: every copied name holds a normalised
   * post, and every other name is unchanged.
   */
  lemma {:induction false} CopyKeeps(target: map<string, TargetFile>, files: seq<DirEntry>)
    requires Copy(target, files).completed
    ensures var out := Copy(target, files).target;
      && out.Keys == target.Keys + Names(files)
      && (forall n :: n in Names(files) ==> out[n].Normalized?)
      && (forall n :: n in target && n !in Names(files) ==> out[n] == target[n])
  {
    if files != [] {
      var init := files[..|files| - 1];
      CopyKeeps(target, init);
      assert files == init + [files[|files| - 1]];
      assert Names(files) == Names(init) + {files[|files| - 1].name};
    }
  }

  /**
   * A copied file whose name no other copied file shares ends up in the
   * directory as its own normalised post.
   */
  lemma {:induction false} CopyWritten(target: map<string, TargetFile>, files: seq<DirEntry>, e: DirEntry)
    requires Copy(target, files).completed
    requires e in files && forall f :: f in files && f.name == e.name ==> f == e
    ensures var out := Copy(target, files).target;
      e.name in out && out[e.name].Normalized? && NormalizeSongPost(e.node) == Normal(out[e.name].post)
  {
    var last := files[|files| - 1];
    var init := files[..|files| - 1];
    assert files == init + [last];
    if last.name != e.name {
      CopyWritten(target, init, e);
    }
  }

  /**
   * The loop finishes exactly when every file can be copied into the
   * directory as it was before the loop: a file written earlier never
   * turns a name into a directory, and a name a directory blocks fails at
   * its first file.
   */
  lemma {:induction false} CopyCompletes(target: map<string, TargetFile>, files: seq<DirEntry>)
    ensures Copy(target, files).completed <==> forall i :: 0 <= i < |files| ==> Copyable(target, files[i])
  {
    if files != [] {
      var init := files[..|files| - 1];
      var e := files[|files| - 1];
      CopyCompletes(target, init);
      assert forall i :: 0 <= i < |init| ==> init[i] == files[i];
      assert (forall i :: 0 <= i < |files| ==> Copyable(target, files[i])) <==>
        (forall i :: 0 <= i < |init| ==> Copyable(target, init[i])) && Copyable(target, e);
      var prev := Copy(target, init);
      if prev.completed {
        CopyKeeps(target, init);
        if e.name in Names(init) {
          var f :| f in init && f.name == e.name;
          var k :| 0 <= k < |init| && init[k] == f;
          assert Copyable(target, init[k]);
          assert Copyable(prev.target, e) <==> Copyable(target, e);
        } else {
          assert Copyable(prev.target, e) <==> Copyable(target, e);
        }
      } else {
      }
    }
  }

  /**
   * A loop that stops has written the files before the first one that
   * cannot be copied, and nothing after it.
   */
  lemma {:induction false} CopyFailure(target: map<string, TargetFile>, files: seq<DirEntry>)
    requires !Copy(target, files).completed
    ensures exists k :: (0 <= k < |files|
      && Copy(target, files[..k]).completed
      && Copy(target, files[..k]).target == Copy(target, files).target
      && !Copyable(target, files[k]))
  {
    var init := files[..|files| - 1];
    if !Copy(target, init).completed {
      CopyFailure(target, init);
      var k :| 0 <= k < |init|
        && Copy(target, init[..k]).completed
        && Copy(target, init[..k]).target == Copy(target, init).target
        && !Copyable(target, init[k]);
      assert init[..k] == files[..k];
    } else {
      var k := |files| - 1;
      assert files[..k] == init;
      assert !Copyable(target, files[k]) by {
        CopyCompletes(target, init);
        CopyCompletes(target, files);
        assert forall i :: 0 <= i < k ==> files[i] == init[i];
      }
      assert Copy(target, files[..k]).target == Copy(target, files).target;
    }
  }

  /** The copy loop of the script. */
  method CopyFiles(target: map<string, TargetFile>, files: seq<DirEntry>) returns (out: map<string, TargetFile>, completed: bool)
    ensures Copy(target, files) == CopyResult(out, completed)
  {
    out := target;
    var i := 0;
    while i < |files|
      invariant i <= |files|
      invariant Copy(target, files[..i]) == CopyResult(out, true)
    {
      CopyStep(target, files, i);
      var post := NormalizeSongPost(files[i].node);
      if post.Thrown? || (files[i].name in out && !IsFile(out[files[i].name])) {
        CopyStops(target, files, i + 1);
        return out, false;
      }
      out := out[files[i].name := Normalized(post.value)];
      i := i + 1;
    }
    assert files[..i] == files;
    completed := true;
  }

  /* ---------------------------------------------------------------------- */
  /* Removing stale files                                                    */
  /* ---------------------------------------------------------------------- */

  /** `staleFiles`: the `.json` files of the local directory that are not source files. */
  function StaleNames(target: map<string, TargetFile>, files: seq<DirEntry>): (r: set<string>)
    ensures r <= target.Keys
    ensures forall f :: f in files ==> f.name !in r
  {
    set n | n in target && IsFile(target[n]) && IsJsonName(n) && n !in Names(files)
  }

  /** The local directory without the names in `stale`. */
  function Without(target: map<string, TargetFile>, stale: set<string>): (r: map<string, TargetFile>)
    ensures r.Keys == target.Keys - stale
  {
    map n | n in target && n !in stale :: target[n]
  }

  /** The unlink loop: deletes the stale files one by one. */
  method RemoveStale(target: map<string, TargetFile>, stale: set<string>) returns (out: map<string, TargetFile>)
    ensures out == Without(target, stale)
  {
    out := target;
    var left := stale;
    while left != {}
      invariant left <= stale
      invariant out == Without(target, stale - left)
      decreases left
    {
      var n :| n in left;
      out := out - {n};
      left := left - {n};
    }
    assert stale - left == stale;
  }

  /* ---------------------------------------------------------------------- */
  /* The whole run                                                           */
  /* ---------------------------------------------------------------------- */

  /** `Synced N song posts ... removed M stale`. */
  datatype Report = Report(synced: nat, removed: nat)

  /** The local directory after a run, and how the run ended. */
  datatype SyncOutcome = SyncOutcome(target: map<string, TargetFile>, report: Completion<Report>)

  /**
   * One run: no source directory, or one without `.json` files, fails
   * before anything is written; a file that cannot be copied fails after
   * the files before it are written; otherwise the stale files go.
   */
  function SyncOf(env: Option<string>, sibling: string, fs: string -> Option<seq<DirEntry>>,
                  target: map<string, TargetFile>, collate: (string, string) -> bool): (r: SyncOutcome)
    ensures r.report.Normal? ==> r.report.value.synced >= 1
    ensures r.report.Normal? ==>
      forall n :: n in r.target && IsJsonName(n) && IsFile(r.target[n]) ==> r.target[n].Normalized?
  {
    match SourceListing(env, sibling, fs)
    case None => SyncOutcome(target, Thrown)
    case Some(listing) =>
      var files := SourceFiles(listing, collate);
      if files == [] then SyncOutcome(target, Thrown)
      else
        var copy := Copy(target, files);
        if !copy.completed then SyncOutcome(copy.target, Thrown)
        else
          var stale := StaleNames(copy.target, files);
          CopyKeeps(target, files);
          SyncOutcome(Without(copy.target, stale), Normal(Report(|files|, |stale|)))
  }

  /** The script's `main`. */
  method SyncSongPostsRun(env: Option<string>, sibling: string, fs: string -> Option<seq<DirEntry>>,
                          target: map<string, TargetFile>, collate: (string, string) -> bool)
    returns (out: map<string, TargetFile>, r: Completion<Report>)
    ensures SyncOutcome(out, r) == SyncOf(env, sibling, fs, target, collate)
  {
    var source := SourceListing(env, sibling, fs);
    if source.None? {
      return target, Thrown;
    }
    var files := SourceFiles(source.value, collate);
    if files == [] {
      return target, Thrown;
    }
    var completed;
    out, completed := CopyFiles(target, files);
    if !completed {
      return out, Thrown;
    }
    var stale := StaleNames(out, files);
    out := RemoveStale(out, stale);
    r := Normal(Report(|files|, |stale|));
  }

  /**
   * A run fails exactly when no candidate is a directory, when the source
   * has no `.json` file, or when one of its `.json` files cannot be copied.
   */
  lemma SyncFails(env: Option<string>, sibling: string, fs: string -> Option<seq<DirEntry>>,
                  target: map<string, TargetFile>, collate: (string, string) -> bool)
    ensures SyncOf(env, sibling, fs, target, collate).report.Thrown? <==>
      || SourceListing(env, sibling, fs).None?
      || SourceFiles(SourceListing(env, sibling, fs).value, collate) == []
      || exists i :: 0 <= i < |SourceFiles(SourceListing(env, sibling, fs).value, collate)|
           && !Copyable(target, SourceFiles(SourceListing(env, sibling, fs).value, collate)[i])
  {
    if SourceListing(env, sibling, fs).Some? {
      CopyCompletes(target, SourceFiles(SourceListing(env, sibling, fs).value, collate));
    }
  }

  /** A successful run is a finished copy followed by the removal of the stale files. */
  lemma SyncDone(env: Option<string>, sibling: string, fs: string -> Option<seq<DirEntry>>,
                 target: map<string, TargetFile>, collate: (string, string) -> bool)
    requires SyncOf(env, sibling, fs, target, collate).report.Normal?
    ensures SourceListing(env, sibling, fs).Some?
    ensures var files := SourceFiles(SourceListing(env, sibling, fs).value, collate);
      var copy := Copy(target, files);
      var stale := StaleNames(copy.target, files);
      && copy.completed
      && (forall n :: n in Names(files) ==> IsJsonName(n))
      && SyncOf(env, sibling, fs, target, collate) == SyncOutcome(Without(copy.target, stale), Normal(Report(|files|, |stale|)))
  {
    var files := SourceFiles(SourceListing(env, sibling, fs).value, collate);
    forall n | n in Names(files)
      ensures IsJsonName(n)
    {
      var f :| f in files && f.name == n;
      assert f in multiset(JsonFiles(SourceListing(env, sibling, fs).value));
    }
  }

  /**
   * After a successful run the `.json` files of the local directory are
   * exactly the source's `.json` files.
   */
  lemma SyncJsonFiles(env: Option<string>, sibling: string, fs: string -> Option<seq<DirEntry>>,
                      target: map<string, TargetFile>, collate: (string, string) -> bool, n: string)
    requires SyncOf(env, sibling, fs, target, collate).report.Normal?
    ensures var out := SyncOf(env, sibling, fs, target, collate).target;
      var files := SourceFiles(SourceListing(env, sibling, fs).value, collate);
      n in out && IsFile(out[n]) && IsJsonName(n) <==> n in Names(files)
  {
    SyncDone(env, sibling, fs, target, collate);
    CopyKeeps(target, SourceFiles(SourceListing(env, sibling, fs).value, collate));
  }

  /**
   * After a successful run each `.json` file of the source holds its
   * normalised post in the local directory.
   */
  lemma SyncContents(env: Option<string>, sibling: string, fs: string -> Option<seq<DirEntry>>,
                     target: map<string, TargetFile>, collate: (string, string) -> bool, e: DirEntry)
    requires SyncOf(env, sibling, fs, target, collate).report.Normal?
    requires UniqueNames(SourceListing(env, sibling, fs).value)
    requires e in SourceListing(env, sibling, fs).value && e.node.File? && IsJsonName(e.name)
    ensures var out := SyncOf(env, sibling, fs, target, collate).target;
      e.name in out && out[e.name].Normalized? && NormalizeSongPost(e.node) == Normal(out[e.name].post)
  {
    SyncDone(env, sibling, fs, target, collate);
    var listing := SourceListing(env, sibling, fs).value;
    var files := SourceFiles(listing, collate);
    assert e in multiset(JsonFiles(listing));
    forall f | f in files && f.name == e.name
      ensures f == e
    {
      assert f in multiset(JsonFiles(listing));
      var i :| 0 <= i < |listing| && listing[i] == f;
      var j :| 0 <= j < |listing| && listing[j] == e;
      assert i == j;
    }
    CopyWritten(target, files, e);
    CopyKeeps(target, files);
  }

  /**
   * A successful run leaves the directories and the non-`.json` files of
   * the local directory as they were, and the number it reports as removed
   * is the number of `.json` files that were there before and are not
   * source files.
   */
  lemma SyncKeeps(env: Option<string>, sibling: string, fs: string -> Option<seq<DirEntry>>,
                  target: map<string, TargetFile>, collate: (string, string) -> bool)
    requires SyncOf(env, sibling, fs, target, collate).report.Normal?
    ensures var run := SyncOf(env, sibling, fs, target, collate);
      var files := SourceFiles(SourceListing(env, sibling, fs).value, collate);
      && (forall n :: n in target && !(IsFile(target[n]) && IsJsonName(n)) ==> n in run.target && run.target[n] == target[n])
      && run.report.value.removed == |StaleNames(target, files)|
  {
    SyncDone(env, sibling, fs, target, collate);
    var files := SourceFiles(SourceListing(env, sibling, fs).value, collate);
    var copy := Copy(target, files);
    CopyKeeps(target, files);
    CopyCompletes(target, files);
    forall n | n in Names(files) && n in target
      ensures IsFile(target[n])
    {
      var f :| f in files && f.name == n;
      var k :| 0 <= k < |files| && files[k] == f;
      assert Copyable(target, files[k]);
    }
    assert StaleNames(copy.target, files) == StaleNames(target, files);
  }
}
