/** Completing an SBOM: every file component without a SHA-256 gets the digest found in
    the image's layers, in place, and the file is rewritten only if all of them did.
    Reading and printing JSON, and the archive's contents, are parameters. */
module SbomHydration {
  import opened Outcomes
  import opened Text
  import opened Numerals
  import opened CanonicalJson
  import opened LayerSearch

  type Entry = CanonicalJson.Member

  // The longest SBOM that is read, in bytes.
  const MAX_SBOM: nat := 16 * 1024 * 1024

  datatype Rejection =
    | TooLarge | Malformed | NoComponents | NotOneImage | UnsafeLayerList | FileRejected(why: Problem)

  predicate Sha256Text(s: string) {
    |s| == 64 && AllHex(s)
  }

  predicate Sha256Hash(v: Json) {
    && v.Obj?
    && Get(v.members, "alg") == Str("SHA-256")
    && Get(v.members, "content").Str?
    && Sha256Text(Get(v.members, "content").s)
  }

  /** The hash clause that validation applies to a file component. */
  predicate HasSha256(hashes: Json) {
    hashes.Arr? && exists i :: 0 <= i < |hashes.items| && Sha256Hash(hashes.items[i])
  }

  predicate FileComponent(c: Json) {
    c.Obj? && Get(c.members, "type") == Str("file")
  }

  predicate Hashless(c: Json) {
    FileComponent(c) && !HasSha256(Get(c.members, "hashes"))
  }

  /** Assigning a dictionary's key: in its place, or at the end. */
  function With(members: seq<Entry>, key: string, value: Json): seq<Entry> {
    if members == [] then [CanonicalJson.Member(key, value)]
    else if members[0].key == key then [CanonicalJson.Member(key, value)] + members[1..]
    else [members[0]] + With(members[1..], key, value)
  }

  function Keys(members: seq<Entry>): seq<string> {
    if members == [] then [] else [members[0].key] + Keys(members[1..])
  }

  function HashesFor(digest: string): Json {
    Arr([Obj([CanonicalJson.Member("alg", Str("SHA-256")), CanonicalJson.Member("content", Str(digest))])])
  }

  /** The distinct, plainly named layers of the archive's one image. */
  function LayerNames(manifest: Json): Result<seq<string>, Rejection> {
    if !manifest.Arr? || |manifest.items| != 1 || !manifest.items[0].Obj? then Err(NotOneImage)
    else
      var layers := Get(manifest.items[0].members, "Layers");
      if layers.Arr? && SafeLayers(layers.items) then Ok(Strings(layers.items)) else Err(UnsafeLayerList)
  }

  predicate SafeLayer(v: Json) {
    v.Str? && !("/" <= v.s) && ".." !in Split(v.s, '/')
  }

  predicate SafeLayers(items: seq<Json>) {
    && |items| > 0
    && (forall i :: 0 <= i < |items| ==> SafeLayer(items[i]))
    && (forall i, j :: 0 <= i < j < |items| ==> items[i] != items[j])
  }

  function Strings(items: seq<Json>): seq<string>
    requires forall i :: 0 <= i < |items| ==> items[i].Str?
  {
    seq(|items|, i requires 0 <= i < |items| => items[i].s)
  }

  /** Where a hashless component's digest comes from. */
  function DigestOf(c: Json, archive: seq<ArchiveEntry>, layers: seq<string>): Result<string, Problem>
    requires c.Obj?
  {
    var name := Get(c.members, "name");
    if !name.Str? then Err(UnsafePath)
    else
      match RelativeFile(name.s)
      case Err(why) => Err(why)
      case Ok(target) => Search(OpenAll(archive, layers), Split(target, '/'))
  }

  function Hydrated(c: Json, archive: seq<ArchiveEntry>, layers: seq<string>): Result<Json, Problem> {
    if !Hashless(c) then Ok(c)
    else
      match DigestOf(c, archive, layers)
      case Err(why) => Err(why)
      case Ok(digest) => Ok(Obj(With(c.members, "hashes", HashesFor(digest))))
  }

  /** All components in order; the first that cannot be completed rejects the file. */
  function HydrateAll(components: seq<Json>, archive: seq<ArchiveEntry>,
                      layers: seq<string>): Result<seq<Json>, Problem>
  {
    if components == [] then Ok([])
    else
      var n := |components| - 1;
      match HydrateAll(components[..n], archive, layers)
      case Err(why) => Err(why)
      case Ok(done) =>
        match Hydrated(components[n], archive, layers)
        case Err(why) => Err(why)
        case Ok(c) => Ok(done + [c])
  }

  /** The document to be written, or why there is none. */
  function Completed(document: Option<Json>, manifest: Option<Json>,
                     archive: seq<ArchiveEntry>): Result<Json, Rejection>
  {
    if document.None? || manifest.None? then Err(Malformed)
    else if !document.value.Obj? || !Get(document.value.members, "components").Arr? then Err(NoComponents)
    else
      match LayerNames(manifest.value)
      case Err(why) => Err(why)
      case Ok(layers) =>
        match HydrateAll(Get(document.value.members, "components").items, archive, layers)
        case Err(why) => Err(FileRejected(why))
        case Ok(components) => Ok(Obj(With(document.value.members, "components", Arr(components))))
  }

  type Parse = string -> Option<Json>
  type PrintJson = Json -> string

  function Written(document: Json, print_: PrintJson): string {
    print_(SortKeys(document)) + "\n"
  }

  /** The bytes of a text in UTF-8. */
  function Utf8Size(text: string): nat {
    if text == "" then 0
    else
      var c := text[|text| - 1] as int;
      Utf8Size(text[..|text| - 1]) + (if c < 0x80 then 1 else if c < 0x800 then 2 else if c < 0x1_0000 then 3 else 4)
  }

  /** One to four bytes to a character, by the ranges of RFC 3629 section 3, and texts add up. */
  lemma {:induction false} Utf8SizeExactly(a: string, b: string, c: char)
    ensures Utf8Size(a + b) == Utf8Size(a) + Utf8Size(b)
    ensures Utf8Size([c]) == 1 + (if c as int >= 0x80 then 1 else 0) + (if c as int >= 0x800 then 1 else 0)
                               + (if c as int >= 0x1_0000 then 1 else 0)
  {
    assert [c][..0] == "";
    if b == "" {
      assert a + b == a;
    } else {
      assert (a + b)[..|a + b| - 1] == a + b[..|b| - 1];
      Utf8SizeExactly(a, b[..|b| - 1], c);
    }
  }

  /** The text that a run leaves in the file, or why it leaves it alone. */
  function Rewritten(text: string, manifest: Option<Json>, archive: seq<ArchiveEntry>, parse: Parse,
                     print_: PrintJson): Result<string, Rejection>
  {
    if Utf8Size(text) > MAX_SBOM then Err(TooLarge)
    else
      match Completed(parse(text), manifest, archive)
      case Err(why) => Err(why)
      case Ok(document) => Ok(Written(document, print_))
  }

  class SbomFile {
    var text: string

    constructor (t: string)
      ensures text == t
    {
      text := t;
    }

    /** Rewrites the file, or leaves it alone and says why. */
    method HydrateFileHashes(archive: seq<ArchiveEntry>, manifest: Option<Json>, parse: Parse, print_: PrintJson)
      returns (rejection: Option<Rejection>)
      modifies this
      ensures match Rewritten(old(text), manifest, archive, parse, print_)
        case Err(why) => rejection == Some(why) && text == old(text)
        case Ok(after) => rejection == None && text == after
      ensures if Utf8Size(old(text)) > 16 * 1024 * 1024 then rejection == Some(TooLarge) && text == old(text)
        else match Completed(parse(old(text)), manifest, archive)
          case Err(why) => rejection == Some(why) && text == old(text)
          case Ok(document) => rejection == None && text == print_(SortKeys(document)) + "\n"
    {
      if Utf8Size(text) > MAX_SBOM {
        return Some(TooLarge);
      }
      var document := parse(text);
      if document.None? || manifest.None? {
        return Some(Malformed);
      }
      if !document.value.Obj? || !Get(document.value.members, "components").Arr? {
        return Some(NoComponents);
      }
      var layers := LayerNames(manifest.value);
      if layers.Err? {
        return Some(layers.error);
      }
      var given := Get(document.value.members, "components").items;
      var components := new Json[|given|](i requires 0 <= i < |given| => given[i]);
      assert components[..] == given;
      var problem := HydrateComponents(components, archive, layers.value);
      if problem.Some? {
        return Some(FileRejected(problem.value));
      }
      text := Written(Obj(With(document.value.members, "components", Arr(components[..]))), print_);
      return None;
    }
  }

  method HydrateComponents(components: array<Json>, archive: seq<ArchiveEntry>, layers: seq<string>)
    returns (problem: Option<Problem>)
    modifies components
    ensures match HydrateAll(old(components[..]), archive, layers)
      case Err(why) => problem == Some(why)
      case Ok(done) => problem == None && components[..] == done
  {
    ghost var given := components[..];
    for i := 0 to components.Length
      invariant HydrateAll(given[..i], archive, layers) == Ok(components[..i])
      invariant components[i..] == given[i..]
    {
      assert given[..i + 1][..i] == given[..i];
      assert components[i] == components[i..][0] == given[i];
      var c := components[i];
      if Hashless(c) {
        var name := Get(c.members, "name");
        var target := if name.Str? then RelativeFile(name.s) else Err(UnsafePath);
        if target.Err? {
          FirstProblemIsFinal(given, i + 1, archive, layers);
          return Some(target.error);
        }
        var digest := SearchLayers(archive, layers, target.value);
        if digest.Err? {
          FirstProblemIsFinal(given, i + 1, archive, layers);
          return Some(digest.error);
        }
        components[i] := Obj(With(c.members, "hashes", HashesFor(digest.value)));
      }
      assert components[..i + 1] == components[..i] + [components[i]];
      assert components[i + 1..] == given[i + 1..];
    }
    assert given[..components.Length] == given && components[..components.Length] == components[..];
    return None;
  }

  lemma {:induction false} FirstProblemIsFinal(components: seq<Json>, n: nat, archive: seq<ArchiveEntry>,
                                               layers: seq<string>)
    requires n <= |components| && HydrateAll(components[..n], archive, layers).Err?
    ensures HydrateAll(components, archive, layers) == HydrateAll(components[..n], archive, layers)
    decreases |components|
  {
    if n < |components| {
      assert components[..|components| - 1][..n] == components[..n];
      FirstProblemIsFinal(components[..|components| - 1], n, archive, layers);
    } else {
      assert components[..n] == components;
    }
  }
}
