/**
 * Directories as the scripts see them. A file's text matters only through
 * what `JSON.parse` makes of it, so a file holds either the parsed value or
 * text the parser rejects. Reading a directory entry that is itself a
 * directory fails like a parse error (`readFile` rejects with EISDIR).
 */
module Files {
  import opened JsValue
  import opened JsString

  /** The text of a file: JSON that parses to `value`, or anything else. */
  datatype Content = Json(value: Value) | Malformed

  datatype Node = File(content: Content) | Subdir

  /** One entry of an `fs.readdir` listing. */
  datatype DirEntry = DirEntry(name: string, node: Node)

  function NameOf(e: DirEntry): string {
    e.name
  }

  predicate IsJsonName(name: string) {
    EndsWith(name, ".json")
  }

  /** Names in a listing are unique, as in any directory. */
  predicate UniqueNames(listing: seq<DirEntry>) {
    forall i, j :: 0 <= i < j < |listing| ==> listing[i].name != listing[j].name
  }

  /** `listing.filter((f) => f.endsWith(".json"))`, keeping the listing order. */
  function JsonEntries(listing: seq<DirEntry>): (r: seq<DirEntry>)
    ensures |r| <= |listing|
    ensures forall i :: 0 <= i < |r| ==> IsJsonName(r[i].name) && r[i] in listing
    ensures forall e :: e in listing && IsJsonName(e.name) ==> e in r
  {
    if listing == [] then []
    else
      var rest := JsonEntries(listing[1..]);
      assert forall e :: e in listing[1..] ==> e in listing;
      if IsJsonName(listing[0].name) then [listing[0]] + rest else rest
  }

  /** `JSON.parse(await fs.readFile(path, "utf8"))`; a failure is a thrown error. */
  function ReadJson(node: Node): (r: Completion<Value>)
    ensures r.Normal? <==> node.File? && node.content.Json?
    ensures r.Normal? ==> r.value == node.content.value
  {
    match node
    case File(Json(v)) => Normal(v)
    case _ => Thrown
  }

  /** `${slug}.json`, the file a generator writes for a slug. */
  function FileName(slug: string): (r: string)
    ensures IsJsonName(r)
  {
    slug + ".json"
  }
}
