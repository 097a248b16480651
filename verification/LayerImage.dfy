/** What a stack of image layers means: every layer's tar entries applied to one map from
    paths to files, bottom layer first. Two readings of a whiteout are defined, in plain
    tar order and as the image layer specification words it (it hides lower layers only). */
module LayerImage {
  import opened Outcomes
  import opened Text

  const OPAQUE: string := ".wh..wh..opq"
  const WHITEOUT: string := ".wh."

  datatype Kind = Regular(size: nat) | Directory | Special

  datatype Member = Member(name: string, kind: Kind)

  type Layer = seq<Member>
  type Path = seq<string>
  type Files = map<Path, Kind>

  /** The components an entry's name resolves to inside the image root. */
  function Clean(parts: seq<string>): Path {
    if parts == [] then []
    else
      var above, last := Clean(parts[..|parts| - 1]), parts[|parts| - 1];
      if last == "" || last == "." then above
      else if last != ".." then above + [last]
      else if above == [] then []
      else above[..|above| - 1]
  }

  function Resolve(name: string): Path {
    Clean(Split(name, '/'))
  }

  predicate PlainPart(part: string) {
    part != "" && part != "." && part != ".."
  }

  predicate PlainPath(path: Path) {
    forall i :: 0 <= i < |path| ==> PlainPart(path[i])
  }

  predicate Under(dir: Path, path: Path) {
    |dir| < |path| && path[..|dir|] == dir
  }

  predicate WhiteoutNamed(path: Path) {
    |path| > 0 && WHITEOUT <= path[|path| - 1]
  }

  function Clear(files: Files, dir: Path): Files {
    map path | path in files && !Under(dir, path) :: files[path]
  }

  /** The marker hides a whole directory's contents, or one name and all below it. */
  function Hide(files: Files, marker: Path): Files
    requires WhiteoutNamed(marker)
  {
    var dir, last := marker[..|marker| - 1], marker[|marker| - 1];
    if last == OPAQUE then Clear(files, dir)
    else
      var hidden := dir + [last[|WHITEOUT|..]];
      Clear(files, hidden) - {hidden}
  }

  /** Anything but a directory also replaces what was below its path. */
  function Place(files: Files, path: Path, kind: Kind): Files {
    (if kind.Directory? then files else Clear(files, path))[path := kind]
  }

  function Apply(files: Files, m: Member): Files {
    var path := Resolve(m.name);
    if path == [] then files
    else if WhiteoutNamed(path) then Hide(files, path)
    else Place(files, path, m.kind)
  }

  function ApplyLayer(files: Files, layer: Layer): Files {
    if layer == [] then files
    else Apply(ApplyLayer(files, layer[..|layer| - 1]), layer[|layer| - 1])
  }

  /** The final image, in tar order. */
  function Final(stack: seq<Layer>): Files {
    if stack == [] then map[]
    else ApplyLayer(Final(stack[..|stack| - 1]), stack[|stack| - 1])
  }

  function HideLower(files: Files, layer: Layer): Files {
    if layer == [] then files
    else
      var before, path := HideLower(files, layer[..|layer| - 1]), Resolve(layer[|layer| - 1].name);
      if WhiteoutNamed(path) then Hide(before, path) else before
  }

  function PlaceEntries(files: Files, layer: Layer): Files {
    if layer == [] then files
    else
      var before, m := PlaceEntries(files, layer[..|layer| - 1]), layer[|layer| - 1];
      var path := Resolve(m.name);
      if path == [] || WhiteoutNamed(path) then before else Place(before, path, m.kind)
  }

  /** The final image when whiteouts hide lower layers only. */
  function FinalHidingLower(stack: seq<Layer>): Files {
    if stack == [] then map[]
    else
      var top := stack[|stack| - 1];
      PlaceEntries(HideLower(FinalHidingLower(stack[..|stack| - 1]), top), top)
  }

  function At(files: Files, path: Path): Option<Kind> {
    if path in files then Some(files[path]) else None
  }

  /** Neither reading ever stores a file under a whiteout's name. */
  ghost predicate NoMarkers(files: Files) {
    forall path :: path in files ==> !WhiteoutNamed(path)
  }

  lemma {:induction false} LayerStoresNoMarker(files: Files, layer: Layer)
    requires NoMarkers(files)
    ensures NoMarkers(ApplyLayer(files, layer))
    ensures NoMarkers(HideLower(files, layer))
    ensures NoMarkers(PlaceEntries(files, layer))
  {
    if layer != [] {
      LayerStoresNoMarker(files, layer[..|layer| - 1]);
    }
  }

  lemma {:induction false} MarkersAreNeverStored(stack: seq<Layer>)
    ensures NoMarkers(Final(stack))
    ensures NoMarkers(FinalHidingLower(stack))
  {
    if stack != [] {
      var lower, top := stack[..|stack| - 1], stack[|stack| - 1];
      MarkersAreNeverStored(lower);
      LayerStoresNoMarker(Final(lower), top);
      LayerStoresNoMarker(FinalHidingLower(lower), top);
      LayerStoresNoMarker(HideLower(FinalHidingLower(lower), top), top);
    }
  }

  /** What a marker and an entry do to one path, whatever else the image holds. */
  predicate Hides(marker: Path, path: Path) {
    && 1 <= |marker| <= |path|
    && marker[..|marker| - 1] == path[..|marker| - 1]
    && (marker[|marker| - 1] == OPAQUE || marker[|marker| - 1] == WHITEOUT + path[|marker| - 1])
  }

  /** The markers of the image specification, by their names: `.wh..wh..opq` hides what is in its
      directory, and `.wh.` before a name hides that name and what is below it. */
  lemma HidesExactly(dir: Path, last: string, path: Path)
    ensures WhiteoutNamed(dir + [last]) <==> ".wh." <= last
    ensures Hides(dir + [last], path) <==>
      && |path| > |dir| && path[..|dir|] == dir
      && (last == ".wh..wh..opq" || last == ".wh." + path[|dir|])
  {
    assert (dir + [last])[..|dir|] == dir && (dir + [last])[|dir|] == last;
  }

  /** Going into a part and up again, a dot and an empty part lead nowhere; nothing is above the root. */
  lemma CleanExactly(parts: seq<string>, part: string)
    requires PlainPart(part)
    ensures Clean(parts + [part]) == Clean(parts) + [part]
    ensures Clean(parts + ["."]) == Clean(parts) && Clean(parts + [""]) == Clean(parts)
    ensures Clean(parts + [part] + [".."]) == Clean(parts) && Clean([".."]) == []
  {
    assert (parts + [part])[..|parts|] == parts && (parts + ["."])[..|parts|] == parts;
    assert (parts + [""])[..|parts|] == parts && [".."][..0] == [];
    assert (parts + [part] + [".."])[..|parts| + 1] == parts + [part];
  }

  lemma HideAt(files: Files, marker: Path, path: Path)
    requires WhiteoutNamed(marker)
    ensures At(Hide(files, marker), path) == if Hides(marker, path) then None else At(files, path)
  {
    var n := |marker| - 1;
    var dir, last := marker[..n], marker[n];
    if last == OPAQUE {
      assert Hides(marker, path) <==> Under(dir, path);
    } else {
      var hidden := dir + [last[|WHITEOUT|..]];
      assert last == WHITEOUT + last[|WHITEOUT|..];
      assert |path| > n ==> path[..n + 1] == path[..n] + [path[n]];
      assert hidden[..n] == dir;
      assert Hides(marker, path) <==> path == hidden || Under(hidden, path);
    }
  }

  lemma PlaceAt(files: Files, path: Path, kind: Kind, other: Path)
    requires Under(path, other) ==> kind.Directory?
    ensures At(Place(files, path, kind), other) == if other == path then Some(kind) else At(files, other)
  {
  }
}
