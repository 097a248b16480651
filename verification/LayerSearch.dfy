/** The hash of a file the SBOM lists without one: layers are searched from the top, and
    the search stops at the first layer that decides. Opening the archive and reading a
    layer's tar stream are parameters; the search itself and its errors are not. */
module LayerSearch {
  import opened Outcomes
  import opened Text
  import opened LayerImage

  // SHA-256 of no bytes.
  const EMPTY_DIGEST: string := "e3b0c44298fc1c14" + "9afbf4c8996fb924" + "27ae41e4649b934c" + "a495991b7852b855"

  datatype Problem =
    | UnsafePath
    | AmbiguousLayer
    | UnsafeLayer
    | AmbiguousAncestor
    | NotOneEmptyFile
    | Deleted
    | Absent

  /** One entry of the outer archive; `None` if it is not a readable layer file. */
  datatype ArchiveEntry = ArchiveEntry(name: string, layer: Option<Layer>)

  function Named(archive: seq<ArchiveEntry>, name: string): seq<ArchiveEntry> {
    if archive == [] then []
    else (if archive[0].name == name then [archive[0]] else []) + Named(archive[1..], name)
  }

  function OpenLayer(archive: seq<ArchiveEntry>, name: string): Result<Layer, Problem> {
    var members := Named(archive, name);
    if |members| != 1 then Err(AmbiguousLayer)
    else if members[0].layer.None? then Err(UnsafeLayer)
    else Ok(members[0].layer.value)
  }

  function WithoutLeading(s: string, c: char): string {
    if s != "" && s[0] == c then WithoutLeading(s[1..], c) else s
  }

  function WithoutTrailing(s: string, c: char): string {
    if s != "" && s[|s| - 1] == c then WithoutTrailing(s[..|s| - 1], c) else s
  }

  /** The path of a file component inside the image. */
  function RelativeFile(name: string): (r: Result<string, Problem>)
    ensures r.Ok? ==> PlainPath(Split(r.value, '/'))
  {
    if name == "" || name[0] != '/' then Err(UnsafePath)
    else
      var relative := WithoutLeading(name, '/');
      if relative == "" || !PlainPath(Split(relative, '/')) then Err(UnsafePath) else Ok(relative)
  }

  /** A tar entry's name as the search compares it. */
  function Normal(name: string): string {
    WithoutTrailing(if "./" <= name then name[2..] else name, '/')
  }

  predicate Ancestor(path: Path, target: Path) {
    1 <= |path| < |target| && path == target[..|path|]
  }

  datatype Scan = Scan(found: bool, seen: bool, deleted: bool) | Rejected(why: Problem)

  /** One entry's effect on the search for a target in its layer. */
  function Observe(s: Scan, m: Member, target: Path): Scan {
    if s.Rejected? || Normal(m.name) == "" then s
    else
      var path := Split(Normal(m.name), '/');
      if Ancestor(path, target) && !m.kind.Directory? then Rejected(AmbiguousAncestor)
      else if path == target then
        if s.seen || m.kind != Regular(0) then Rejected(NotOneEmptyFile) else Scan(true, true, false)
      else if Hides(path, target) then s.(found := false, deleted := true)
      else s
  }

  function ScanLayer(layer: Layer, target: Path): Scan {
    if layer == [] then Scan(false, false, false)
    else Observe(ScanLayer(layer[..|layer| - 1], target), layer[|layer| - 1], target)
  }

  /** A digest, nothing, or a reason to give up. */
  function Verdict(s: Scan): Result<Option<string>, Problem> {
    if s.Rejected? then Err(s.why)
    else if s.found then Ok(Some(EMPTY_DIGEST))
    else if s.deleted then Err(Deleted)
    else Ok(None)
  }

  /** From the top layer, the last one, down to the first that decides. */
  function Search(read: seq<Result<Layer, Problem>>, target: Path): Result<string, Problem> {
    if read == [] then Err(Absent)
    else
      match read[|read| - 1]
      case Err(why) => Err(why)
      case Ok(layer) =>
        match Verdict(ScanLayer(layer, target))
        case Err(why) => Err(why)
        case Ok(Some(digest)) => Ok(digest)
        case Ok(None) => Search(read[..|read| - 1], target)
  }

  function OpenAll(archive: seq<ArchiveEntry>, names: seq<string>): seq<Result<Layer, Problem>> {
    seq(|names|, i requires 0 <= i < |names| => OpenLayer(archive, names[i]))
  }

  // ---- What is opened

  lemma {:induction false} NamedCounts(archive: seq<ArchiveEntry>, name: string, i: nat)
    requires i < |archive| && archive[i].name == name
    ensures archive[i] in Named(archive, name)
    ensures forall j :: 0 <= j < |archive| && j != i && archive[j].name == name ==> |Named(archive, name)| > 1
  {
    if i > 0 {
      NamedCounts(archive[1..], name, i - 1);
      assert forall j :: 1 <= j < |archive| ==> archive[1..][j - 1] == archive[j];
    } else {
      forall j | 1 <= j < |archive| && archive[j].name == name ensures |Named(archive, name)| > 1 {
        NamedCounts(archive[1..], name, j - 1);
      }
    }
  }

  lemma {:induction false} NamedNone(archive: seq<ArchiveEntry>, name: string)
    ensures Named(archive, name) != [] ==>
      exists i :: 0 <= i < |archive| && archive[i].name == name && archive[i] == Named(archive, name)[0]
  {
    if archive != [] && archive[0].name != name && Named(archive, name) != [] {
      NamedNone(archive[1..], name);
      var i :| 0 <= i < |archive[1..]| && archive[1..][i].name == name &&
          archive[1..][i] == Named(archive[1..], name)[0];
      assert archive[i + 1] == archive[1..][i];
    }
  }

  ghost predicate OnlyEntry(archive: seq<ArchiveEntry>, i: int, name: string) {
    0 <= i < |archive| && forall j :: 0 <= j < |archive| ==> (archive[j].name == name <==> j == i)
  }

  /** A layer is opened exactly when one entry alone has its name and that entry is one. */
  lemma OpenedExactly(archive: seq<ArchiveEntry>, name: string, layer: Layer)
    ensures OpenLayer(archive, name) == Ok(layer) <==>
      exists i :: OnlyEntry(archive, i, name) && archive[i].layer == Some(layer)
  {
    NamedNone(archive, name);
    if OpenLayer(archive, name) == Ok(layer) {
      var i :| 0 <= i < |archive| && archive[i].name == name && archive[i] == Named(archive, name)[0];
      NamedCounts(archive, name, i);
      assert OnlyEntry(archive, i, name);
    }
    if i :| OnlyEntry(archive, i, name) && archive[i].layer == Some(layer) {
      NamedCounts(archive, name, i);
      OneNamed(archive, name, i);
    }
  }

  lemma {:induction false} NoneNamed(archive: seq<ArchiveEntry>, name: string)
    requires forall j :: 0 <= j < |archive| ==> archive[j].name != name
    ensures Named(archive, name) == []
  {
    if archive != [] {
      NoneNamed(archive[1..], name);
    }
  }

  lemma {:induction false} OneNamed(archive: seq<ArchiveEntry>, name: string, i: int)
    requires OnlyEntry(archive, i, name)
    ensures Named(archive, name) == [archive[i]]
  {
    if i == 0 {
      NoneNamed(archive[1..], name);
    } else {
      assert archive[0].name != name;
      assert OnlyEntry(archive[1..], i - 1, name);
      OneNamed(archive[1..], name, i - 1);
    }
  }

  predicate AllSlashes(s: string) {
    forall i :: 0 <= i < |s| ==> s[i] == '/'
  }

  lemma {:induction false} LeadingSlashes(s: string) returns (slashes: string)
    ensures s == slashes + WithoutLeading(s, '/') && AllSlashes(slashes)
    ensures WithoutLeading(s, '/') != "" ==> WithoutLeading(s, '/')[0] != '/'
  {
    if s != "" && s[0] == '/' {
      var more := LeadingSlashes(s[1..]);
      slashes := [s[0]] + more;
      assert s == [s[0]] + s[1..];
    } else {
      slashes := "";
    }
  }

  lemma PlainStart(s: string)
    requires s != "" && PlainPath(Split(s, '/'))
    ensures s[0] != '/'
  {
    assert PlainPart(Split(s, '/')[0]);
  }

  predicate SlashesThen(name: string, n: int) {
    && 0 < n < |name| && (forall i :: 0 <= i < n ==> name[i] == '/')
    && forall part <- Split(name[n..], '/') :: part != "" && part != "." && part != ".."
  }

  lemma PlainParts(path: Path)
    ensures PlainPath(path) <==> forall part <- path :: part != "" && part != "." && part != ".."
  {
    assert forall i :: 0 <= i < |path| ==> path[i] in path;
    assert PlainPath(path) ==> forall part <- path :: PlainPart(part);
  }

  /** A path is accepted exactly when it is slashes, one at least, and plain components;
      these are then the result. */
  lemma RelativeFileExactly(name: string)
    ensures RelativeFile(name).Ok? <==> exists n :: SlashesThen(name, n)
    ensures forall n :: SlashesThen(name, n) ==> RelativeFile(name) == Ok(name[n..])
  {
    var rest := WithoutLeading(name, '/');
    var slashes := LeadingSlashes(name);
    forall n | SlashesThen(name, n) ensures RelativeFile(name) == Ok(name[n..]) {
      PlainParts(Split(name[n..], '/'));
      PlainStart(name[n..]);
      SameSlashes(name, n, slashes, rest);
    }
    if RelativeFile(name).Ok? {
      assert name[|slashes|..] == rest;
      PlainParts(Split(rest, '/'));
      assert SlashesThen(name, |slashes|);
    }
  }

  lemma SameSlashes(name: string, n: int, slashes: string, rest: string)
    requires SlashesThen(name, n) && name[n] != '/'
    requires name == slashes + rest && AllSlashes(slashes) && (rest != "" ==> rest[0] != '/')
    ensures n == |slashes| && name[n..] == rest
  {
    assert rest != "" ==> name[|slashes|] == rest[0];
    assert name[|slashes|..] == rest;
  }

  /** The name less one leading `./` and all its trailing slashes. */
  ghost predicate NormalAs(name: string, r: string, slashes: string) {
    && AllSlashes(slashes) && (r != "" ==> r[|r| - 1] != '/')
    && r + slashes == if "./" <= name then name[2..] else name
  }

  lemma {:induction false} EndingSlashes(s: string) returns (slashes: string)
    ensures s == WithoutTrailing(s, '/') + slashes && AllSlashes(slashes)
    ensures WithoutTrailing(s, '/') != "" ==> WithoutTrailing(s, '/')[|WithoutTrailing(s, '/')| - 1] != '/'
  {
    if s != "" && s[|s| - 1] == '/' {
      var fewer := EndingSlashes(s[..|s| - 1]);
      slashes := fewer + [s[|s| - 1]];
      assert s == s[..|s| - 1] + [s[|s| - 1]];
    } else {
      slashes := "";
    }
  }

  lemma SameEnding(a: string, x: string, b: string, y: string)
    requires a + x == b + y && AllSlashes(x) && AllSlashes(y)
    requires (a != "" ==> a[|a| - 1] != '/') && (b != "" ==> b[|b| - 1] != '/')
    ensures a == b
  {
    assert forall i :: 0 <= i < |a| ==> (a + x)[i] == a[i];
    assert forall i :: 0 <= i < |b| ==> (b + y)[i] == b[i];
    assert (a + x)[..|a|] == a && (b + y)[..|b|] == b;
  }

  /** What an entry's name is compared as, exactly. */
  lemma NormalExactly(name: string, r: string)
    ensures Normal(name) == r <==> exists slashes :: NormalAs(name, r, slashes)
  {
    var s := if "./" <= name then name[2..] else name;
    var slashes := EndingSlashes(s);
    assert NormalAs(name, Normal(name), slashes);
    forall other | NormalAs(name, r, other) ensures r == Normal(name) {
      SameEnding(Normal(name), slashes, r, other);
    }
  }

  // ---- Names as strings and as components

  lemma {:induction false} PartsHoldNoSlash(target: string)
    ensures AllFree(Split(target, '/'), '/')
    ensures Join(Split(target, '/'), '/') == target
  {
    JoinSplit(target, '/');
  }

  /** A joined name is a given string exactly when the string splits into its parts. */
  lemma {:induction false} JoinIs(parts: Path, name: string)
    requires |parts| >= 1 && AllFree(parts, '/')
    ensures name == Join(parts, '/') <==> Split(name, '/') == parts
  {
    SplitJoin(parts, '/');
    JoinSplit(name, '/');
  }

  lemma JoinIsNonempty(parts: Path)
    requires |parts| >= 1 && PlainPath(parts)
    ensures Join(parts, '/') != ""
  {
    assert PlainPart(parts[0]);
  }

  lemma ExtendedHoldsNoSlash(parts: Path, i: nat, prefix: string, part: string)
    requires i <= |parts| && AllFree(parts, '/') && Free(prefix, '/') && Free(part, '/')
    ensures AllFree(parts[..i] + [prefix + part], '/')
  {
    forall j | 0 <= j < i + 1 ensures Free((parts[..i] + [prefix + part])[j], '/') {
      if j < i {
        assert Free(parts[j], '/');
      }
    }
  }

  /** The string the code builds for a name inside a parent, which may be the root. */
  function Child(parent: string, name: string): string {
    if parent != "" then parent + "/" + name else name
  }

  lemma {:induction false} ChildIs(parts: Path, i: nat, name: string, s: string)
    requires i < |parts| && PlainPath(parts) && AllFree(parts, '/') && Free(name, '/')
    ensures s == Child(Join(parts[..i], '/'), name) <==> Split(s, '/') == parts[..i] + [name]
  {
    ExtendedHoldsNoSlash(parts, i, "", name);
    assert "" + name == name;
    JoinIs(parts[..i] + [name], s);
    if i == 0 {
      assert parts[..i] + [name] == [name];
    } else {
      assert PlainPath(parts[..i]) by {
        forall j | 0 <= j < i ensures PlainPart(parts[..i][j]) {
          assert PlainPart(parts[j]);
        }
      }
      JoinIsNonempty(parts[..i]);
      JoinAppend(parts[..i], name, '/');
    }
  }

  /** The markers for a target's first `n` components, and the root's. */
  ghost function Markers(parts: Path, n: nat): set<string>
    requires n <= |parts|
  {
    if n == 0 then {OPAQUE}
    else
      var parent := Join(parts[..n - 1], '/');
      Markers(parts, n - 1) + {Child(parent, WHITEOUT + parts[n - 1]), Child(parent, OPAQUE)}
  }

  ghost function Ancestors(parts: Path): set<string> {
    set i | 1 <= i < |parts| :: Join(parts[..i], '/')
  }

  /** One entry's effect in terms of the name and the two sets the code looks it up in. */
  function ObserveName(s: Scan, m: Member, target: string, ancestors: set<string>, markers: set<string>): Scan {
    var name := Normal(m.name);
    if s.Rejected? || name == "" then s
    else if name in ancestors && !m.kind.Directory? then Rejected(AmbiguousAncestor)
    else if name == target then
      if s.seen || m.kind != Regular(0) then Rejected(NotOneEmptyFile) else Scan(true, true, false)
    else if name in markers then s.(found := false, deleted := true)
    else s
  }

  method LayerHash(archive: seq<ArchiveEntry>, layerName: string, target: string)
    returns (r: Result<Option<string>, Problem>)
    requires PlainPath(Split(target, '/'))
    ensures r == match OpenLayer(archive, layerName)
                 case Err(why) => Err(why)
                 case Ok(layer) => Verdict(ScanLayer(layer, Split(target, '/')))
  {
    var outcome := OpenLayer(archive, layerName);
    if outcome.Err? {
      return Err(outcome.error);
    }
    var layer := outcome.value;
    var found, seenTarget, deleted := false, false, false;
    var parts := Split(target, '/');
    var ancestors := set i | 1 <= i < |parts| :: Join(parts[..i], '/');
    var markers := MarkerNames(parts);
    assert ancestors == Ancestors(parts);
    for i := 0 to |layer|
      invariant ScanLayer(layer[..i], parts) == Scan(found, seenTarget, deleted)
    {
      ScansByName(layer, i, target);
      var name := Normal(layer[i].name);
      if name == "" {
        continue;
      }
      if name in ancestors && !layer[i].kind.Directory? {
        RejectionIsFinal(layer, i + 1, parts);
        return Err(AmbiguousAncestor);
      }
      if name == target {
        if seenTarget || layer[i].kind != Regular(0) {
          RejectionIsFinal(layer, i + 1, parts);
          return Err(NotOneEmptyFile);
        }
        found, seenTarget, deleted := true, true, false;
      } else if name in markers {
        found, deleted := false, true;
      }
    }
    assert layer[..|layer|] == layer;
    if !found && deleted {
      return Err(Deleted);
    }
    return Ok(if found then Some(EMPTY_DIGEST) else None);
  }

  /** The names of every whiteout and opaque marker that hides a target. */
  method MarkerNames(parts: Path) returns (markers: set<string>)
    ensures markers == Markers(parts, |parts|)
  {
    var whiteouts, opaque_ := {}, {OPAQUE};
    for i := 0 to |parts|
      invariant whiteouts + opaque_ == Markers(parts, i)
      invariant OPAQUE in opaque_
    {
      var parent := Join(parts[..i], '/');
      whiteouts := whiteouts + {if parent != "" then parent + "/" + WHITEOUT + parts[i] else WHITEOUT + parts[i]};
      assert parent + "/" + WHITEOUT + parts[i] == parent + "/" + (WHITEOUT + parts[i]);
      if parent != "" {
        opaque_ := opaque_ + {parent + "/" + OPAQUE};
      }
    }
    return whiteouts + opaque_;
  }

  lemma ScansByName(layer: Layer, i: nat, target: string)
    requires i < |layer| && PlainPath(Split(target, '/'))
    ensures var parts := Split(target, '/');
      ScanLayer(layer[..i + 1], parts)
      == ObserveName(ScanLayer(layer[..i], parts), layer[i], target, Ancestors(parts), Markers(parts, |parts|))
  {
    assert layer[..i + 1][..i] == layer[..i];
    ObservesByName(ScanLayer(layer[..i], Split(target, '/')), layer[i], target);
  }

  /** Looking a name up in the two sets decides what comparing components decides. */
  lemma {:induction false} ObservesByName(s: Scan, m: Member, target: string)
    requires PlainPath(Split(target, '/'))
    ensures var parts := Split(target, '/');
      ObserveName(s, m, target, Ancestors(parts), Markers(parts, |parts|)) == Observe(s, m, parts)
  {
    var parts, name := Split(target, '/'), Normal(m.name);
    PartsHoldNoSlash(target);
    JoinIs(parts, name);
    AncestorNames(parts, name);
    MarkersHide(parts, name);
  }

  lemma {:induction false} AncestorNames(parts: Path, name: string)
    requires AllFree(parts, '/')
    ensures name in Ancestors(parts) <==> Ancestor(Split(name, '/'), parts)
  {
    forall i | 1 <= i < |parts| ensures name == Join(parts[..i], '/') <==> Split(name, '/') == parts[..i] {
      assert AllFree(parts[..i], '/') by {
        forall j | 0 <= j < i ensures Free(parts[..i][j], '/') { assert Free(parts[j], '/'); }
      }
      JoinIs(parts[..i], name);
    }
    if Ancestor(Split(name, '/'), parts) {
      var n := |Split(name, '/')|;
      assert name == Join(parts[..n], '/');
    }
  }

  lemma MarkersStep(parts: Path, n: nat, name: string)
    requires 0 < n <= |parts|
    ensures name in Markers(parts, n) <==>
      || name in Markers(parts, n - 1)
      || name == Child(Join(parts[..n - 1], '/'), WHITEOUT + parts[n - 1])
      || name == Child(Join(parts[..n - 1], '/'), OPAQUE)
  {
  }

  lemma {:induction false} MarkersWithin(parts: Path, n: nat, name: string)
    requires n <= |parts| && PlainPath(parts) && AllFree(parts, '/')
    ensures name in Markers(parts, n) <==> name == OPAQUE || HidesWithin(Split(name, '/'), parts, n)
  {
    if n == 0 {
      assert !HidesWithin(Split(name, '/'), parts, 0);
    } else {
      MarkersWithin(parts, n - 1, name);
      NextMarkers(parts, n - 1, name);
      MarkersStep(parts, n, name);
    }
  }

  lemma MarkersHide(parts: Path, name: string)
    requires |parts| > 0 && PlainPath(parts) && AllFree(parts, '/')
    ensures name in Markers(parts, |parts|) <==> Hides(Split(name, '/'), parts)
  {
    MarkersWithin(parts, |parts|, name);
    if name == OPAQUE {
      SplitWhole(OPAQUE, '/');
    }
  }

  /** Whether a name hides the target through one of its first `n` components. */
  ghost predicate HidesWithin(path: Path, target: Path, n: nat) {
    Hides(path, target) && |path| <= n
  }

  lemma NextMarkers(parts: Path, i: nat, name: string)
    requires i < |parts| && PlainPath(parts) && AllFree(parts, '/')
    ensures HidesWithin(Split(name, '/'), parts, i + 1) <==>
      || HidesWithin(Split(name, '/'), parts, i)
      || name == Child(Join(parts[..i], '/'), WHITEOUT + parts[i])
      || name == Child(Join(parts[..i], '/'), OPAQUE)
  {
    assert Free(parts[i], '/');
    ChildIs(parts, i, WHITEOUT + parts[i], name);
    ChildIs(parts, i, OPAQUE, name);
    HidesAtLength(Split(name, '/'), parts, i);
  }

  lemma HidesAtLength(path: Path, parts: Path, i: nat)
    requires i < |parts|
    ensures HidesWithin(path, parts, i + 1) <==>
      HidesWithin(path, parts, i) || path == parts[..i] + [WHITEOUT + parts[i]] || path == parts[..i] + [OPAQUE]
  {
    if |path| == i + 1 {
      assert path == path[..i] + [path[i]];
    }
  }

  lemma {:induction false} RejectionIsFinal(layer: Layer, n: nat, target: Path)
    requires n <= |layer| && ScanLayer(layer[..n], target).Rejected?
    ensures ScanLayer(layer, target) == ScanLayer(layer[..n], target)
    decreases |layer|
  {
    if n < |layer| {
      assert layer[..|layer| - 1][..n] == layer[..n];
      RejectionIsFinal(layer[..|layer| - 1], n, target);
    } else {
      assert layer[..n] == layer;
    }
  }

  method SearchLayers(archive: seq<ArchiveEntry>, layers: seq<string>, target: string)
    returns (r: Result<string, Problem>)
    requires PlainPath(Split(target, '/'))
    ensures r == Search(OpenAll(archive, layers), Split(target, '/'))
  {
    ghost var read := OpenAll(archive, layers);
    var i := |layers|;
    assert read[..i] == read;
    while i > 0
      invariant 0 <= i <= |layers|
      invariant Search(read, Split(target, '/')) == Search(read[..i], Split(target, '/'))
    {
      i := i - 1;
      assert read[..i + 1][..i] == read[..i];
      var digest := LayerHash(archive, layers[i], target);
      if digest.Err? {
        return Err(digest.error);
      }
      if digest.value.Some? {
        return Ok(digest.value.value);
      }
    }
    return Err(Absent);
  }
}
