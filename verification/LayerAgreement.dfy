/** The early-exit search against applying every layer. It takes account of the entries
    that are spelled as they resolve; what a digest, "absent" and "deleted" say about the
    final image is settled by the entries it overlooks, which are all spelled otherwise. */
module LayerAgreement {
  import opened Outcomes
  import opened Text
  import opened LayerImage
  import opened LayerSearch

  /** The name is compared as the path it resolves to. */
  predicate Spelled(m: Member) {
    Split(Normal(m.name), '/') == Resolve(m.name)
  }

  /** The entry settles what is at the target: it is at it, it hides it, or it is no
      directory and above it. */
  predicate Concerns(m: Member, target: Path) {
    var path := Resolve(m.name);
    || path == target
    || Hides(path, target)
    || (path != [] && Under(path, target) && !WhiteoutNamed(path) && !m.kind.Directory?)
  }

  function Effect(m: Member, target: Path): Option<Kind> {
    if Resolve(m.name) == target then Some(m.kind) else None
  }

  function LastConcern(entries: seq<Member>, target: Path): Option<Member> {
    if entries == [] then None
    else
      var n := |entries| - 1;
      if Concerns(entries[n], target) then Some(entries[n]) else LastConcern(entries[..n], target)
  }

  /** What is at the target after the entries, given what was there before. */
  function Settled(entries: seq<Member>, target: Path, before: Option<Kind>): Option<Kind> {
    match LastConcern(entries, target)
    case None => before
    case Some(m) => Effect(m, target)
  }

  /** No entry that concerns the target is spelled otherwise than it resolves. */
  predicate SpelledFor(layer: Layer, target: Path) {
    forall i :: 0 <= i < |layer| && Concerns(layer[i], target) ==> Spelled(layer[i])
  }

  /** The layers' contents, whatever an unreadable one may hold. */
  ghost predicate Holds(read: seq<Result<Layer, Problem>>, stack: seq<Layer>) {
    && |read| == |stack|
    && (forall i :: 0 <= i < |read| && read[i].Ok? ==> stack[i] == read[i].value)
    && (forall i :: 0 <= i < |read| && read[i].Err? ==> Unopened(read[i].error))
  }

  predicate Unopened(p: Problem) {
    p == AmbiguousLayer || p == UnsafeLayer
  }

  /** What the archive yields for the manifest's layers is such a reading. */
  lemma ArchiveHolds(archive: seq<ArchiveEntry>, names: seq<string>, stack: seq<Layer>)
    requires |stack| == |names|
    requires forall i :: 0 <= i < |names| && OpenLayer(archive, names[i]).Ok? ==>
      stack[i] == OpenLayer(archive, names[i]).value
    ensures Holds(OpenAll(archive, names), stack)
  {
    forall i | 0 <= i < |names| ensures OpenAll(archive, names)[i] == OpenLayer(archive, names[i]) {
    }
  }

  // ---- Names

  lemma {:induction false} CleanPlain(path: Path)
    requires PlainPath(path)
    ensures Clean(path) == path
  {
    if path != [] {
      var n := |path| - 1;
      assert PlainPath(path[..n]) by {
        forall j | 0 <= j < n ensures PlainPart(path[..n][j]) { assert PlainPart(path[j]); }
      }
      CleanPlain(path[..n]);
      assert PlainPart(path[n]);
      assert path == path[..n] + [path[n]];
    }
  }

  lemma {:induction false} CleanDotFirst(parts: seq<string>)
    ensures Clean(["."] + parts) == Clean(parts)
  {
    var all := ["."] + parts;
    if parts == [] {
      assert all == ["."] && all[..0] == [];
    } else {
      assert all[..|all| - 1] == ["."] + parts[..|parts| - 1];
      CleanDotFirst(parts[..|parts| - 1]);
    }
  }

  lemma {:induction false} TrailingSlashes(name: string)
    ensures Resolve(WithoutTrailing(name, '/')) == Resolve(name)
  {
    if name != "" && name[|name| - 1] == '/' {
      var shorter := name[..|name| - 1];
      assert name == shorter + ['/'] + "";
      SplitConcat(shorter, "", '/');
      assert Split("", '/') == [""];
      var parts := Split(shorter, '/');
      assert (parts + [""])[..|parts|] == parts;
      TrailingSlashes(shorter);
    }
  }

  /** Normalising a name for comparison never changes the path it resolves to. */
  lemma {:induction false} NormalKeepsPath(name: string)
    ensures Resolve(Normal(name)) == Resolve(name)
  {
    if "./" <= name {
      var rest := name[2..];
      assert name == "." + ['/'] + rest;
      SplitConcat(".", rest, '/');
      SplitWhole(".", '/');
      CleanDotFirst(Split(rest, '/'));
      TrailingSlashes(rest);
    } else {
      TrailingSlashes(name);
    }
  }

  /** A spelling of a path: its components, after one `./` or not, and slashes at the end or not. */
  ghost predicate SpellingOf(name: string, path: Path, slashes: string) {
    AllSlashes(slashes) && (name == Join(path, '/') + slashes || name == "./" + Join(path, '/') + slashes)
  }

  lemma StartsAsItsFirstPart(path: Path)
    requires PlainPath(path) && |path| > 0 && Free(path[0], '/')
    ensures !("./" <= Join(path, '/'))
  {
    var first := path[0];
    assert PlainPart(first) && first <= Join(path, '/');
    if |first| == 1 {
      assert first == [first[0]] && first[0] != '.';
    } else {
      assert first[1] in first && Join(path, '/')[1] == first[1];
    }
  }

  lemma JoinedStartsAndEnds(path: Path)
    requires PlainPath(path) && |path| > 0 && AllFree(path, '/')
    ensures var joined := Join(path, '/');
      joined != "" && joined[|joined| - 1] != '/'
      && forall slashes :: AllSlashes(slashes) ==> !("./" <= joined + slashes)
  {
    var joined := Join(path, '/');
    JoinIs(path, joined);
    JoinIsNonempty(path);
    assert PlainPart(path[|path| - 1]) && PlainPart(path[0]);
    if joined[|joined| - 1] == '/' {
      EndsWithEmptyPart(joined);
    }
    assert Free(path[0], '/');
    StartsAsItsFirstPart(path);
    SplitWhole(".", '/');
    forall slashes | AllSlashes(slashes) ensures !("./" <= joined + slashes) {
      assert joined == (joined + slashes)[..|joined|];
    }
  }

  /** Exactly which names the search takes for a path: one `./` and trailing slashes do not matter,
      and nothing else is overlooked. */
  lemma RecognisedExactly(name: string, path: Path)
    requires PlainPath(path) && |path| > 0 && AllFree(path, '/')
    ensures Split(Normal(name), '/') == path <==> exists slashes :: SpellingOf(name, path, slashes)
  {
    var joined := Join(path, '/');
    JoinIs(path, Normal(name));
    JoinedStartsAndEnds(path);
    NormalExactly(name, joined);
    if slashes :| NormalAs(name, joined, slashes) {
      assert SpellingOf(name, path, slashes);
    }
    if slashes :| SpellingOf(name, path, slashes) {
      assert NormalAs(name, joined, slashes);
    }
  }

  lemma PlainSplitIsSpelled(m: Member)
    requires PlainPath(Split(Normal(m.name), '/'))
    ensures Spelled(m)
  {
    NormalKeepsPath(m.name);
    CleanPlain(Split(Normal(m.name), '/'));
  }

  // ---- One entry

  lemma MarkerIsPlain(marker: Path, target: Path)
    requires PlainPath(target) && Hides(marker, target)
    ensures PlainPath(marker) && WhiteoutNamed(marker)
  {
    var n := |marker| - 1;
    assert |marker[n]| >= 4;
    forall i | 0 <= i < |marker| ensures PlainPart(marker[i]) {
      if i < n {
        assert marker[i] == marker[..n][i] == target[..n][i] && PlainPart(target[i]);
      }
    }
  }

  /** The search recognises only entries spelled as they resolve. */
  lemma Unrecognised(s: Scan, m: Member, target: Path)
    requires PlainPath(target) && !Spelled(m)
    ensures Observe(s, m, target) == s
  {
    var path := Split(Normal(m.name), '/');
    if Ancestor(path, target) || path == target {
      assert PlainPath(path) by {
        forall i | 0 <= i < |path| ensures PlainPart(path[i]) { assert path[i] == target[i] && PlainPart(target[i]); }
      }
      PlainSplitIsSpelled(m);
    } else if Hides(path, target) {
      MarkerIsPlain(path, target);
      PlainSplitIsSpelled(m);
    }
  }

  ghost predicate Plain(target: Path) {
    PlainPath(target) && |target| > 0 && !WhiteoutNamed(target)
  }

  /** An entry that concerns the target and is spelled as it resolves is rejected or
      taken for what it is; every other entry leaves the scan alone. */
  lemma ObserveAgrees(s: Scan, m: Member, target: Path)
    requires Plain(target) && s.Scan? && Observe(s, m, target).Scan?
    ensures var path, after := Resolve(m.name), Observe(s, m, target);
      if !Concerns(m, target) || !Spelled(m) then after == s
      else if path == target then !s.seen && after == Scan(true, true, false) && m.kind == Regular(0)
      else Hides(path, target) && after == s.(found := false, deleted := true)
  {
    if !Spelled(m) {
      Unrecognised(s, m, target);
    }
  }

  lemma PlaceBelow(files: Files, path: Path, kind: Kind, other: Path)
    requires Under(path, other) && !kind.Directory?
    ensures At(Place(files, path, kind), other) == None
  {
  }

  lemma ApplyAt(files: Files, m: Member, target: Path)
    requires Plain(target)
    ensures At(Apply(files, m), target) == if Concerns(m, target) then Effect(m, target) else At(files, target)
  {
    var path := Resolve(m.name);
    if Hides(path, target) {
      MarkerIsPlain(path, target);
    }
    if path != [] {
      if WhiteoutNamed(path) {
        HideAt(files, path, target);
      } else if Under(path, target) && !m.kind.Directory? {
        PlaceBelow(files, path, m.kind, target);
      } else {
        PlaceAt(files, path, m.kind, target);
      }
    }
  }

  lemma {:induction false} ApplyLayerAt(files: Files, layer: Layer, target: Path)
    requires Plain(target)
    ensures At(ApplyLayer(files, layer), target) == Settled(layer, target, At(files, target))
  {
    if layer != [] {
      var n := |layer| - 1;
      ApplyLayerAt(files, layer[..n], target);
      ApplyAt(ApplyLayer(files, layer[..n]), layer[n], target);
    }
  }

  lemma {:induction false} SettledConcat(a: seq<Member>, b: seq<Member>, target: Path, before: Option<Kind>)
    ensures Settled(a + b, target, before) == Settled(b, target, Settled(a, target, before))
  {
    if b == [] {
      assert a + b == a;
    } else {
      var n := |b| - 1;
      assert (a + b)[..|a + b| - 1] == a + b[..n] && (a + b)[|a + b| - 1] == b[n];
      SettledConcat(a, b[..n], target, before);
    }
  }

  lemma SettledLast(entries: seq<Member>, m: Member, target: Path, before: Option<Kind>)
    ensures Settled(entries + [m], target, before)
      == if Concerns(m, target) then Effect(m, target) else Settled(entries, target, before)
  {
    assert (entries + [m])[..|entries|] == entries;
  }

  // ---- One layer

  lemma {:induction false} EarlierScan(layer: Layer, target: Path)
    requires layer != []
    ensures ScanLayer(layer, target).Scan? ==> ScanLayer(layer[..|layer| - 1], target).Scan?
  {
  }

  /** The entries after the last one that the scan took account of. */
  function Unseen(layer: Layer, target: Path): seq<Member> {
    if layer == [] then []
    else
      var n := |layer| - 1;
      if Concerns(layer[n], target) && Spelled(layer[n]) then [] else Unseen(layer[..n], target) + [layer[n]]
  }

  ghost predicate AllMisspelled(entries: seq<Member>, target: Path) {
    forall i :: 0 <= i < |entries| && Concerns(entries[i], target) ==> !Spelled(entries[i])
  }

  lemma {:induction false} UnseenAreMisspelled(layer: Layer, target: Path)
    ensures AllMisspelled(Unseen(layer, target), target)
  {
    if layer != [] {
      UnseenAreMisspelled(layer[..|layer| - 1], target);
    }
  }

  /** What the scan makes of the target, given what was there before. */
  function Claimed(s: Scan, before: Option<Kind>): Option<Kind>
    requires s.Scan?
  {
    if s.found then Some(Regular(0)) else if s.deleted then None else before
  }

  lemma ScanStep(layer: Layer, target: Path)
    requires layer != [] && Plain(target) && ScanLayer(layer, target).Scan?
    ensures var n := |layer| - 1;
      var s, after := ScanLayer(layer[..n], target), ScanLayer(layer, target);
      && s.Scan?
      && (if !Concerns(layer[n], target) || !Spelled(layer[n]) then after == s
          else if Resolve(layer[n].name) == target then
            !s.seen && after == Scan(true, true, false) && Effect(layer[n], target) == Some(Regular(0))
          else after == s.(found := false, deleted := true) && Effect(layer[n], target) == None)
  {
    EarlierScan(layer, target);
    ObserveAgrees(ScanLayer(layer[..|layer| - 1], target), layer[|layer| - 1], target);
  }

  lemma {:induction false} ScanFlags(layer: Layer, target: Path)
    requires Plain(target) && ScanLayer(layer, target).Scan?
    ensures var s := ScanLayer(layer, target);
      !(s.found && s.deleted) && (s.found ==> s.seen) && (s.seen && !s.found ==> s.deleted)
  {
    if layer != [] {
      ScanStep(layer, target);
      ScanFlags(layer[..|layer| - 1], target);
    }
  }

  lemma UnseenStep(layer: Layer, target: Path)
    requires layer != []
    ensures var n := |layer| - 1;
      Unseen(layer, target)
      == if Concerns(layer[n], target) && Spelled(layer[n]) then [] else Unseen(layer[..n], target) + [layer[n]]
  {
  }

  predicate Silent(s: Scan) {
    s.Scan? && !s.found && !s.deleted
  }

  lemma SilentStep(layer: Layer, target: Path)
    requires layer != [] && Plain(target) && Silent(ScanLayer(layer, target))
    ensures Silent(ScanLayer(layer[..|layer| - 1], target))
    ensures Unseen(layer, target) == Unseen(layer[..|layer| - 1], target) + [layer[|layer| - 1]]
  {
    ScanStep(layer, target);
    UnseenStep(layer, target);
  }

  lemma {:induction false} SilentLayerIsUnseen(layer: Layer, target: Path)
    requires Plain(target) && Silent(ScanLayer(layer, target))
    ensures Unseen(layer, target) == layer
  {
    if layer != [] {
      SilentStep(layer, target);
      SilentLayerIsUnseen(layer[..|layer| - 1], target);
      assert layer[..|layer| - 1] + [layer[|layer| - 1]] == layer;
    }
  }

  /** The agreement at one more entry: s and t are the scans before and after it, `unseen` what the
      scan had overlooked before it. */
  lemma LayerStep(lower: Layer, m: Member, target: Path, before: Option<Kind>, unseen: seq<Member>, s: Scan, t: Scan)
    requires s.Scan? && t.Scan? && Settled(lower, target, before) == Settled(unseen, target, Claimed(s, before))
    requires if !Concerns(m, target) || !Spelled(m) then t == s else Effect(m, target) == Claimed(t, before)
    ensures Settled(lower + [m], target, before)
      == Settled(if Concerns(m, target) && Spelled(m) then [] else unseen + [m], target, Claimed(t, before))
  {
    SettledLast(lower, m, target, before);
    SettledLast(unseen, m, target, Claimed(s, before));
  }

  /** What a layer leaves at the target is what the scan claims, unless an entry the scan
      overlooked comes after and settles it otherwise. */
  lemma {:induction false} LayerAgrees(layer: Layer, target: Path, before: Option<Kind>)
    requires Plain(target) && ScanLayer(layer, target).Scan?
    ensures Settled(layer, target, before)
      == Settled(Unseen(layer, target), target, Claimed(ScanLayer(layer, target), before))
  {
    if layer != [] {
      var n := |layer| - 1;
      var lower, m := layer[..n], layer[n];
      ScanStep(layer, target);
      UnseenStep(layer, target);
      LayerAgrees(lower, target, before);
      LayerStep(lower, m, target, before, Unseen(lower, target), ScanLayer(lower, target), ScanLayer(layer, target));
      assert lower + [m] == layer;
    }
  }

  ghost predicate HidesAt(layer: Layer, i: int, target: Path) {
    0 <= i < |layer| && Hides(Resolve(layer[i].name), target)
  }

  ghost predicate PlacesAt(layer: Layer, i: int, target: Path) {
    0 <= i < |layer| && Resolve(layer[i].name) == target
  }

  /** Some entry of the layer hides the target. */
  ghost predicate Hidden(layer: Layer, target: Path) {
    exists i :: HidesAt(layer, i, target)
  }

  ghost predicate Placed(layer: Layer, target: Path) {
    exists i :: PlacesAt(layer, i, target)
  }

  /** The layer puts a file at the target and marks the target deleted after that. */
  ghost predicate HiddenAfterPlaced(layer: Layer, target: Path) {
    exists i, j :: PlacesAt(layer, i, target) && HidesAt(layer, j, target) && i < j
  }

  lemma {:induction false} LayerAgreesHidingLower(layer: Layer, target: Path, files: Files)
    requires Plain(target) && SpelledFor(layer, target) && ScanLayer(layer, target).Scan?
    ensures var s := ScanLayer(layer, target);
      && At(HideLower(files, layer), target) == (if Hidden(layer, target) then None else At(files, target))
      && At(PlaceEntries(files, layer), target) == (if s.seen then Some(Regular(0)) else At(files, target))
      && (s.deleted ==> Hidden(layer, target))
      && (!s.seen && Hidden(layer, target) ==> s.deleted)
  {
    if layer != [] {
      var lower, m := layer[..|layer| - 1], layer[|layer| - 1];
      EarlierScan(layer, target);
      EarlierSpelled(layer, target);
      LayerAgreesHidingLower(lower, target, files);
      ObserveAgrees(ScanLayer(lower, target), m, target);
      HiddenStep(layer, target);
      var path := Resolve(m.name);
      if path != [] {
        if WhiteoutNamed(path) {
          HideAt(HideLower(files, lower), path, target);
        } else {
          PlaceAt(PlaceEntries(files, lower), path, m.kind, target);
        }
      }
    }
  }

  lemma EarlierSpelled(layer: Layer, target: Path)
    requires layer != [] && SpelledFor(layer, target)
    ensures SpelledFor(layer[..|layer| - 1], target)
    ensures Concerns(layer[|layer| - 1], target) ==> Spelled(layer[|layer| - 1])
  {
  }

  lemma HidesEarlier(layer: Layer, i: int, target: Path)
    requires layer != [] && i != |layer| - 1
    ensures HidesAt(layer, i, target) <==> HidesAt(layer[..|layer| - 1], i, target)
    ensures PlacesAt(layer, i, target) <==> PlacesAt(layer[..|layer| - 1], i, target)
  {
  }

  lemma HiddenStep(layer: Layer, target: Path)
    requires layer != []
    ensures Hidden(layer, target) <==>
      Hidden(layer[..|layer| - 1], target) || HidesAt(layer, |layer| - 1, target)
  {
    var n := |layer| - 1;
    if Hidden(layer[..n], target) {
      var i :| HidesAt(layer[..n], i, target);
      HidesEarlier(layer, i, target);
    }
    if Hidden(layer, target) && !HidesAt(layer, n, target) {
      var i :| HidesAt(layer, i, target);
      HidesEarlier(layer, i, target);
    }
  }

  lemma {:induction false} SeenIsPlaced(layer: Layer, target: Path)
    requires Plain(target) && SpelledFor(layer, target) && ScanLayer(layer, target).Scan?
    ensures ScanLayer(layer, target).seen <==> Placed(layer, target)
    ensures ScanLayer(layer, target).seen && ScanLayer(layer, target).deleted ==> HiddenAfterPlaced(layer, target)
  {
    if layer != [] {
      var n := |layer| - 1;
      var s, before := ScanLayer(layer, target), ScanLayer(layer[..n], target);
      EarlierScan(layer, target);
      EarlierSpelled(layer, target);
      SeenIsPlaced(layer[..n], target);
      ObserveAgrees(before, layer[n], target);
      assert PlacesAt(layer, n, target) <==> Resolve(layer[n].name) == target;
      assert HidesAt(layer, n, target) <==> Hides(Resolve(layer[n].name), target);
      if Placed(layer[..n], target) {
        var i :| PlacesAt(layer[..n], i, target);
        HidesEarlier(layer, i, target);
      }
      if Placed(layer, target) && !PlacesAt(layer, n, target) {
        var i :| PlacesAt(layer, i, target);
        HidesEarlier(layer, i, target);
      }
      if HiddenAfterPlaced(layer[..n], target) {
        var i, j :| PlacesAt(layer[..n], i, target) && HidesAt(layer[..n], j, target) && i < j;
        HidesEarlier(layer, i, target);
        HidesEarlier(layer, j, target);
      }
    }
  }

  // ---- Which layers are rejected

  ghost predicate NamesTarget(layer: Layer, i: int, target: Path) {
    0 <= i < |layer| && Split(Normal(layer[i].name), '/') == target
  }

  /** Something other than a directory above the target, or than an empty file at it. */
  ghost predicate WrongKind(layer: Layer, i: int, target: Path) {
    && 0 <= i < |layer|
    && ((Ancestor(Split(Normal(layer[i].name), '/'), target) && !layer[i].kind.Directory?)
        || (NamesTarget(layer, i, target) && layer[i].kind != Regular(0)))
  }

  ghost predicate TargetNamed(layer: Layer, target: Path) {
    exists i :: NamesTarget(layer, i, target)
  }

  ghost predicate Rejectable(layer: Layer, target: Path) {
    || (exists i :: WrongKind(layer, i, target))
    || (exists i, j :: NamesTarget(layer, i, target) && NamesTarget(layer, j, target) && i < j)
  }

  lemma NamesEarlier(layer: Layer, i: int, target: Path)
    requires layer != [] && i != |layer| - 1
    ensures NamesTarget(layer, i, target) <==> NamesTarget(layer[..|layer| - 1], i, target)
    ensures WrongKind(layer, i, target) <==> WrongKind(layer[..|layer| - 1], i, target)
  {
  }

  lemma SeenStep(layer: Layer, target: Path)
    requires layer != []
    ensures TargetNamed(layer, target) <==>
      TargetNamed(layer[..|layer| - 1], target) || NamesTarget(layer, |layer| - 1, target)
  {
    var n := |layer| - 1;
    if i :| NamesTarget(layer[..n], i, target) {
      NamesEarlier(layer, i, target);
    }
    if !NamesTarget(layer, n, target) {
      if i :| NamesTarget(layer, i, target) {
        NamesEarlier(layer, i, target);
      }
    }
  }

  lemma RejectableStep(layer: Layer, target: Path)
    requires layer != []
    ensures Rejectable(layer, target) <==>
      || Rejectable(layer[..|layer| - 1], target)
      || WrongKind(layer, |layer| - 1, target)
      || (NamesTarget(layer, |layer| - 1, target) && TargetNamed(layer[..|layer| - 1], target))
  {
    var n := |layer| - 1;
    forall i | i != n
      ensures NamesTarget(layer, i, target) <==> NamesTarget(layer[..n], i, target)
      ensures WrongKind(layer, i, target) <==> WrongKind(layer[..n], i, target)
    {
      NamesEarlier(layer, i, target);
    }
    if i :| NamesTarget(layer[..n], i, target) {
      assert i < n;
    }
  }

  /** A layer is rejected exactly for an entry of the wrong kind at or above the target,
      or for two entries at the target; until then a target once named stays seen. */
  lemma {:induction false} LayersRejectedExactly(layer: Layer, target: Path)
    requires PlainPath(target)
    ensures ScanLayer(layer, target).Rejected? <==> Rejectable(layer, target)
    ensures ScanLayer(layer, target).Scan? ==>
      (ScanLayer(layer, target).seen <==> TargetNamed(layer, target))
  {
    if layer != [] {
      LayersRejectedExactly(layer[..|layer| - 1], target);
      SeenStep(layer, target);
      RejectableStep(layer, target);
      EmptyNamesNothing(layer, |layer| - 1, target);
    }
  }

  lemma EmptyNamesNothing(layer: Layer, i: int, target: Path)
    requires 0 <= i < |layer| && PlainPath(target)
    ensures Normal(layer[i].name) == "" ==> !NamesTarget(layer, i, target) && !WrongKind(layer, i, target)
  {
    if Normal(layer[i].name) == "" {
      assert Split("", '/') == [""];
      assert |target| > 0 ==> PlainPart(target[0]);
    }
  }

  lemma {:induction false} ScanRejection(layer: Layer, target: Path)
    ensures var s := ScanLayer(layer, target);
      s.Rejected? ==> s.why == AmbiguousAncestor || s.why == NotOneEmptyFile
  {
    if layer != [] {
      ScanRejection(layer[..|layer| - 1], target);
    }
  }

  // ---- The whole image

  lemma {:induction false} LowerStack(read: seq<Result<Layer, Problem>>, stack: seq<Layer>)
    requires stack != [] && Holds(read, stack)
    ensures read != [] && Holds(read[..|read| - 1], stack[..|stack| - 1])
    ensures read[|read| - 1].Ok? ==> stack[|stack| - 1] == read[|read| - 1].value
    ensures read[|read| - 1].Err? ==> Unopened(read[|read| - 1].error)
  {
  }

  /** The entries after the last one that the search took account of, up to the top. */
  function Overlooked(read: seq<Result<Layer, Problem>>, target: Path): seq<Member> {
    if read == [] || read[|read| - 1].Err? then []
    else
      var layer := read[|read| - 1].value;
      if Verdict(ScanLayer(layer, target)) == Ok(None) then Overlooked(read[..|read| - 1], target) + layer
      else Unseen(layer, target)
  }

  lemma {:induction false} OverlookedAreMisspelled(read: seq<Result<Layer, Problem>>, target: Path)
    requires Plain(target)
    ensures AllMisspelled(Overlooked(read, target), target)
  {
    if read != [] && read[|read| - 1].Ok? {
      var layer := read[|read| - 1].value;
      UnseenAreMisspelled(layer, target);
      if Verdict(ScanLayer(layer, target)) == Ok(None) {
        OverlookedAreMisspelled(read[..|read| - 1], target);
        SilentLayerIsUnseen(layer, target);
      }
    }
  }

  lemma TopLayerClaims(stack: seq<Layer>, target: Path)
    requires stack != [] && Plain(target) && ScanLayer(stack[|stack| - 1], target).Scan?
    ensures var top, lower := stack[|stack| - 1], stack[..|stack| - 1];
      At(Final(stack), target)
      == Settled(Unseen(top, target), target, Claimed(ScanLayer(top, target), At(Final(lower), target)))
  {
    var n := |stack| - 1;
    ApplyLayerAt(Final(stack[..n]), stack[n], target);
    LayerAgrees(stack[n], target, At(Final(stack[..n]), target));
  }

  /** A layer that decides nothing is overlooked as a whole. */
  lemma SilentTop(read: seq<Result<Layer, Problem>>, layer: Layer, target: Path, claim: Option<Kind>)
    requires Plain(target) && read != [] && read[|read| - 1] == Ok(layer)
    requires Verdict(ScanLayer(layer, target)) == Ok(None)
    ensures Unseen(layer, target) == layer && AllMisspelled(layer, target)
    ensures Settled(Overlooked(read, target), target, claim)
      == Settled(layer, target, Settled(Overlooked(read[..|read| - 1], target), target, claim))
  {
    SilentLayerIsUnseen(layer, target);
    UnseenAreMisspelled(layer, target);
    OverlookedStep(read, layer, target);
    SettledConcat(Overlooked(read[..|read| - 1], target), layer, target, claim);
  }

  lemma OverlookedStep(read: seq<Result<Layer, Problem>>, layer: Layer, target: Path)
    requires read != [] && read[|read| - 1] == Ok(layer) && Verdict(ScanLayer(layer, target)) == Ok(None)
    ensures Overlooked(read, target) == Overlooked(read[..|read| - 1], target) + layer
  {
  }

  /** What the final image holds at a target that is no whiteout's name: what the search
      claims, unless an overlooked entry settles it otherwise. */
  lemma {:induction false} SearchDecidesFinalImage(read: seq<Result<Layer, Problem>>, stack: seq<Layer>, target: Path)
    requires Holds(read, stack) && Plain(target)
    ensures Search(read, target).Ok? ==>
      Search(read, target).value == EMPTY_DIGEST
      && At(Final(stack), target) == Settled(Overlooked(read, target), target, Some(Regular(0)))
    ensures Search(read, target) == Err(Absent) || Search(read, target) == Err(Deleted) ==>
      At(Final(stack), target) == Settled(Overlooked(read, target), target, None)
  {
    if stack != [] {
      var n := |stack| - 1;
      LowerStack(read, stack);
      ScanRejection(stack[n], target);
      if read[n].Ok? && ScanLayer(stack[n], target).Scan? {
        TopLayerClaims(stack, target);
        if Verdict(ScanLayer(stack[n], target)) == Ok(None) {
          SearchDecidesFinalImage(read[..n], stack[..n], target);
          SilentTop(read, stack[n], target, Some(Regular(0)));
          SilentTop(read, stack[n], target, None);
        }
      }
    }
  }

  /** Nothing overlooked concerns the target, or the last that does puts an empty file there. */
  ghost predicate OverlooksNoHarm(read: seq<Result<Layer, Problem>>, target: Path) {
    var last := LastConcern(Overlooked(read, target), target);
    last.None? || (Resolve(last.value.name) == target && last.value.kind == Regular(0))
  }

  /** Exactly when a digest is right: an empty regular file is there if and only if the name
      is no whiteout's and no entry overlooked after the deciding one leaves something else.
      Everything overlooked that concerns the target is misspelled. */
  lemma DigestIsRightExactly(read: seq<Result<Layer, Problem>>, stack: seq<Layer>, target: Path)
    requires Holds(read, stack) && PlainPath(target) && |target| > 0 && Search(read, target).Ok?
    ensures At(Final(stack), target) == Some(Regular(0)) <==>
      !WhiteoutNamed(target) && OverlooksNoHarm(read, target)
    ensures !WhiteoutNamed(target) ==> AllMisspelled(Overlooked(read, target), target)
  {
    MarkersAreNeverStored(stack);
    if !WhiteoutNamed(target) {
      SearchDecidesFinalImage(read, stack, target);
      OverlookedAreMisspelled(read, target);
    }
  }

  /** Exactly when "absent" and "deleted" are right: nothing is there unless the last
      overlooked entry that concerns the target is at it. */
  lemma RefusalIsRightExactly(read: seq<Result<Layer, Problem>>, stack: seq<Layer>, target: Path)
    requires Holds(read, stack) && PlainPath(target) && |target| > 0
    requires Search(read, target) == Err(Absent) || Search(read, target) == Err(Deleted)
    ensures At(Final(stack), target) == None <==>
      || WhiteoutNamed(target)
      || LastConcern(Overlooked(read, target), target).None?
      || Resolve(LastConcern(Overlooked(read, target), target).value.name) != target
  {
    MarkersAreNeverStored(stack);
    if !WhiteoutNamed(target) {
      SearchDecidesFinalImage(read, stack, target);
    }
  }

  /** In every layer the search reads, what concerns the target is spelled as it resolves. */
  predicate SpelledWhereSearched(read: seq<Result<Layer, Problem>>, target: Path) {
    if read == [] || read[|read| - 1].Err? then true
    else
      var layer := read[|read| - 1].value;
      && SpelledFor(layer, target)
      && (Verdict(ScanLayer(layer, target)) == Ok(None) ==> SpelledWhereSearched(read[..|read| - 1], target))
  }

  ghost predicate NoneConcerns(entries: seq<Member>, target: Path) {
    forall i :: 0 <= i < |entries| ==> !Concerns(entries[i], target)
  }

  lemma {:induction false} SpelledIsSeen(layer: Layer, target: Path)
    requires SpelledFor(layer, target)
    ensures NoneConcerns(Unseen(layer, target), target)
  {
    if layer != [] {
      EarlierSpelled(layer, target);
      SpelledIsSeen(layer[..|layer| - 1], target);
    }
  }

  lemma {:induction false} NoConcern(entries: seq<Member>, target: Path)
    requires NoneConcerns(entries, target)
    ensures LastConcern(entries, target) == None
  {
    if entries != [] {
      NoConcern(entries[..|entries| - 1], target);
    }
  }

  /** Then nothing that matters is overlooked, so the search is right. */
  lemma {:induction false} SpelledIsNotOverlooked(read: seq<Result<Layer, Problem>>, target: Path)
    requires Plain(target) && SpelledWhereSearched(read, target)
    ensures NoneConcerns(Overlooked(read, target), target)
    ensures LastConcern(Overlooked(read, target), target) == None
  {
    if read != [] && read[|read| - 1].Ok? {
      var layer := read[|read| - 1].value;
      SpelledIsSeen(layer, target);
      if Verdict(ScanLayer(layer, target)) == Ok(None) {
        SpelledIsNotOverlooked(read[..|read| - 1], target);
        SilentLayerIsUnseen(layer, target);
      }
    }
    NoConcern(Overlooked(read, target), target);
  }

  /** The layer the search stops at; -1 if it runs through all of them. */
  function Deciding(read: seq<Result<Layer, Problem>>, target: Path): int {
    if read == [] then -1
    else
      var n := |read| - 1;
      if read[n].Ok? && Verdict(ScanLayer(read[n].value, target)) == Ok(None) then Deciding(read[..n], target)
      else n
  }

  // ---- When whiteouts hide lower layers only

  /** The last entry at the target, or above it and no directory. */
  function LastPlacing(layer: Layer, target: Path): Option<Member> {
    if layer == [] then None
    else
      var n := |layer| - 1;
      if Concerns(layer[n], target) && !WhiteoutNamed(Resolve(layer[n].name)) then Some(layer[n])
      else LastPlacing(layer[..n], target)
  }

  /** What the layer makes of the target, if anything: its own entries come after its whiteouts. */
  ghost function Touch(layer: Layer, target: Path): Option<Option<Kind>> {
    if LastPlacing(layer, target).Some? then Some(Effect(LastPlacing(layer, target).value, target))
    else if Hidden(layer, target) then Some(None)
    else None
  }

  lemma {:induction false} PlaceEntriesAt(files: Files, layer: Layer, target: Path)
    requires Plain(target)
    ensures At(PlaceEntries(files, layer), target)
      == match LastPlacing(layer, target) { case None => At(files, target) case Some(m) => Effect(m, target) }
  {
    if layer != [] {
      var n := |layer| - 1;
      var before, m := PlaceEntries(files, layer[..n]), layer[n];
      PlaceEntriesAt(files, layer[..n], target);
      var path := Resolve(m.name);
      if Hides(path, target) {
        MarkerIsPlain(path, target);
      }
      if path != [] && !WhiteoutNamed(path) {
        if Under(path, target) && !m.kind.Directory? {
          PlaceBelow(before, path, m.kind, target);
        } else {
          PlaceAt(before, path, m.kind, target);
        }
      }
    }
  }

  lemma {:induction false} HideLowerAt(files: Files, layer: Layer, target: Path)
    requires Plain(target)
    ensures At(HideLower(files, layer), target) == if Hidden(layer, target) then None else At(files, target)
  {
    if layer != [] {
      var n := |layer| - 1;
      HideLowerAt(files, layer[..n], target);
      HiddenStep(layer, target);
      var path := Resolve(layer[n].name);
      if Hides(path, target) {
        MarkerIsPlain(path, target);
      }
      if WhiteoutNamed(path) {
        HideAt(HideLower(files, layer[..n]), path, target);
      }
    }
  }

  lemma {:induction false} ScanTouches(layer: Layer, target: Path)
    requires Plain(target) && ScanLayer(layer, target).Scan?
    ensures ScanLayer(layer, target).seen ==> LastPlacing(layer, target).Some?
    ensures ScanLayer(layer, target).deleted ==> Hidden(layer, target)
  {
    if layer != [] {
      var n := |layer| - 1;
      ScanStep(layer, target);
      ScanTouches(layer[..n], target);
      HiddenStep(layer, target);
      ScanRecognises(layer, target);
    }
  }

  lemma ScanRecognises(layer: Layer, target: Path)
    requires layer != [] && Plain(target) && ScanLayer(layer, target).Scan?
    ensures var n := |layer| - 1;
      ScanLayer(layer, target) != ScanLayer(layer[..n], target) ==>
        if Resolve(layer[n].name) == target then LastPlacing(layer, target) == Some(layer[n])
        else HidesAt(layer, n, target)
  {
    EarlierScan(layer, target);
    ObserveAgrees(ScanLayer(layer[..|layer| - 1], target), layer[|layer| - 1], target);
  }

  /** What the highest layer that touches the target leaves there, from the top down to the
      layer that decides the search. */
  ghost function HighestTouch(read: seq<Result<Layer, Problem>>, target: Path): Option<Kind> {
    if read == [] || read[|read| - 1].Err? then None
    else
      var layer := read[|read| - 1].value;
      if Touch(layer, target).Some? then Touch(layer, target).value
      else if Verdict(ScanLayer(layer, target)) == Ok(None) then HighestTouch(read[..|read| - 1], target)
      else None
  }

  lemma TopHidingLower(stack: seq<Layer>, target: Path)
    requires stack != [] && Plain(target)
    ensures var n := |stack| - 1;
      At(FinalHidingLower(stack), target)
      == if Touch(stack[n], target).Some? then Touch(stack[n], target).value
         else At(FinalHidingLower(stack[..n]), target)
  {
    var n := |stack| - 1;
    HideLowerAt(FinalHidingLower(stack[..n]), stack[n], target);
    PlaceEntriesAt(HideLower(FinalHidingLower(stack[..n]), stack[n]), stack[n], target);
  }

  /** For any image, what it holds at a target when whiteouts hide lower layers only: what the
      highest layer that touches the target leaves, among those the search has read. */
  lemma {:induction false} SearchDecidesImageHidingLower(
      read: seq<Result<Layer, Problem>>, stack: seq<Layer>, target: Path)
    requires Holds(read, stack) && Plain(target)
    requires Search(read, target).Ok? || Search(read, target) == Err(Absent) || Search(read, target) == Err(Deleted)
    ensures At(FinalHidingLower(stack), target) == HighestTouch(read, target)
  {
    if stack != [] {
      var n := |stack| - 1;
      LowerStack(read, stack);
      ScanRejection(stack[n], target);
      ScanTouches(stack[n], target);
      ScanFlags(stack[n], target);
      TopHidingLower(stack, target);
      if Verdict(ScanLayer(stack[n], target)) == Ok(None) {
        SearchDecidesImageHidingLower(read[..n], stack[..n], target);
      }
    }
  }

  /** What the search overlooked does no harm when whiteouts hide lower layers only: of the layers
      it passed without a verdict and, below them, the entries that follow the deciding one and
      are no whiteouts, the highest that touches the target leaves an empty file there. */
  ghost predicate OverlooksNoHarmHidingLower(read: seq<Result<Layer, Problem>>, target: Path) {
    if read == [] || read[|read| - 1].Err? then true
    else
      var layer := read[|read| - 1].value;
      if Verdict(ScanLayer(layer, target)) != Ok(None) then
        var last := LastPlacing(Unseen(layer, target), target);
        last.None? || Effect(last.value, target) == Some(Regular(0))
      else if Touch(layer, target).Some? then Touch(layer, target).value == Some(Regular(0))
      else OverlooksNoHarmHidingLower(read[..|read| - 1], target)
  }

  /** In the deciding layer the entry that decides is there unless one placed after it is. */
  lemma {:induction false} FoundIsPlaced(layer: Layer, target: Path)
    requires Plain(target) && ScanLayer(layer, target).Scan? && ScanLayer(layer, target).found
    ensures LastPlacing(layer, target).Some?
    ensures Effect(LastPlacing(layer, target).value, target)
      == if LastPlacing(Unseen(layer, target), target).None? then Some(Regular(0))
         else Effect(LastPlacing(Unseen(layer, target), target).value, target)
  {
    var n := |layer| - 1;
    ScanStep(layer, target);
    UnseenStep(layer, target);
    if !(Concerns(layer[n], target) && Spelled(layer[n])) {
      FoundIsPlaced(layer[..n], target);
      LastPlacingStep(Unseen(layer[..n], target), layer[n], target);
    }
  }

  lemma LastPlacingStep(entries: seq<Member>, m: Member, target: Path)
    ensures LastPlacing(entries + [m], target)
      == if Concerns(m, target) && !WhiteoutNamed(Resolve(m.name)) then Some(m) else LastPlacing(entries, target)
  {
    assert (entries + [m])[..|entries|] == entries;
  }

  lemma {:induction false} FoundTouchesHighest(read: seq<Result<Layer, Problem>>, target: Path)
    requires Plain(target) && Search(read, target).Ok?
    ensures HighestTouch(read, target) == Some(Regular(0)) <==> OverlooksNoHarmHidingLower(read, target)
  {
    var n := |read| - 1;
    var layer := read[n].value;
    if Verdict(ScanLayer(layer, target)) == Ok(None) {
      FoundTouchesHighest(read[..n], target);
    } else {
      FoundIsPlaced(layer, target);
    }
  }

  /** Exactly when a digest is right in this reading: the name is no whiteout's and nothing the
      search overlooked leaves anything but an empty file. All of that is misspelled
      (`SilentTop`, `UnseenAreMisspelled`). */
  lemma DigestIsRightHidingLowerExactly(read: seq<Result<Layer, Problem>>, stack: seq<Layer>, target: Path)
    requires Holds(read, stack) && PlainPath(target) && |target| > 0 && Search(read, target).Ok?
    ensures At(FinalHidingLower(stack), target) == Some(Regular(0)) <==>
      !WhiteoutNamed(target) && OverlooksNoHarmHidingLower(read, target)
  {
    MarkersAreNeverStored(stack);
    if !WhiteoutNamed(target) {
      SearchDecidesImageHidingLower(read, stack, target);
      FoundTouchesHighest(read, target);
    }
  }

  /** With what concerns the target spelled as it resolves where the search reads, a digest is right
      and "absent" too; and a file that is there all the same is called deleted exactly when the
      layer that decides marks it deleted after placing it. */
  lemma {:induction false} SpelledSearchHidingLower(
      read: seq<Result<Layer, Problem>>, stack: seq<Layer>, target: Path)
    requires Holds(read, stack) && PlainPath(target) && |target| > 0 && SpelledWhereSearched(read, target)
    ensures Search(read, target).Ok? ==>
      (At(FinalHidingLower(stack), target) == Some(Regular(0)) <==> !WhiteoutNamed(target))
    ensures Search(read, target) == Err(Absent) ==> At(FinalHidingLower(stack), target) == None
    ensures Search(read, target) == Err(Deleted) ==>
      var k := Deciding(read, target);
      && 0 <= k < |stack|
      && (At(FinalHidingLower(stack), target) != None <==>
          !WhiteoutNamed(target) && HiddenAfterPlaced(stack[k], target))
  {
    MarkersAreNeverStored(stack);
    if stack != [] {
      var n := |stack| - 1;
      LowerStack(read, stack);
      if read[n].Ok? && Verdict(ScanLayer(stack[n], target)) == Ok(None) {
        SpelledSearchHidingLower(read[..n], stack[..n], target);
      }
      ScanRejection(stack[n], target);
      if read[n].Ok? && !WhiteoutNamed(target) && ScanLayer(stack[n], target).Scan? {
        SpelledTopHidingLower(stack, target);
      }
    }
  }

  lemma SpelledTopHidingLower(stack: seq<Layer>, target: Path)
    requires stack != [] && Plain(target)
    requires SpelledFor(stack[|stack| - 1], target) && ScanLayer(stack[|stack| - 1], target).Scan?
    ensures var n := |stack| - 1;
      var s := ScanLayer(stack[n], target);
      && (s.found ==> At(FinalHidingLower(stack), target) == Some(Regular(0)))
      && (!s.found && s.deleted ==> (At(FinalHidingLower(stack), target) != None <==>
          HiddenAfterPlaced(stack[n], target)))
      && (!s.found && !s.deleted ==> At(FinalHidingLower(stack), target) == At(FinalHidingLower(stack[..n]), target))
  {
    var n := |stack| - 1;
    var top, lower := stack[n], FinalHidingLower(stack[..n]);
    ScanFlags(top, target);
    LayerAgreesHidingLower(top, target, lower);
    LayerAgreesHidingLower(top, target, HideLower(lower, top));
    SeenIsPlaced(top, target);
    assert HiddenAfterPlaced(top, target) ==> Placed(top, target);
  }

  // ---- Where a digest says nothing

  lemma EndsWithEmptyPart(name: string)
    requires name != "" && name[|name| - 1] == '/'
    ensures Split(name, '/')[|Split(name, '/')| - 1] == ""
  {
    assert name == name[..|name| - 1] + ['/'] + "";
    SplitConcat(name[..|name| - 1], "", '/');
  }

  lemma {:induction false} TargetIsNormal(target: Path)
    requires PlainPath(target) && |target| > 0 && AllFree(target, '/')
    ensures Normal(Join(target, '/')) == Join(target, '/') && Split(Join(target, '/'), '/') == target
    ensures Join(target, '/') != ""
  {
    var name := Join(target, '/');
    assert PlainPart(target[0]) && PlainPart(target[|target| - 1]);
    SplitJoin(target, '/');
    if name != "" && name[|name| - 1] == '/' {
      EndsWithEmptyPart(name);
    }
  }

  function OneFile(target: Path): Layer {
    [Member(Join(target, '/'), Regular(0))]
  }

  /** Every whiteout's name has an image in which the search finds a file that the image
      does not hold. */
  lemma WhiteoutNameIsFoundInVain(target: Path)
    requires PlainPath(target) && AllFree(target, '/') && WhiteoutNamed(target)
    ensures Search([Ok(OneFile(target))], target) == Ok(EMPTY_DIGEST)
    ensures At(Final([OneFile(target)]), target) == None
  {
    TargetIsNormal(target);
    FoundInOneFile(target);
    MarkersAreNeverStored([OneFile(target)]);
  }

  lemma ScanSingle(m: Member, target: Path)
    ensures ScanLayer([m], target) == Observe(Scan(false, false, false), m, target)
  {
    assert [m][..0] == [];
    assert ScanLayer([m][..0], target) == Scan(false, false, false);
  }

  lemma EntryAtTarget(m: Member, target: Path)
    requires PlainPath(target) && Normal(m.name) != "" && Split(Normal(m.name), '/') == target && m.kind == Regular(0)
    ensures Observe(Scan(false, false, false), m, target) == Scan(true, true, false)
  {
  }

  lemma FoundInOneFile(target: Path)
    requires PlainPath(target) && |target| > 0 && AllFree(target, '/')
    ensures ScanLayer(OneFile(target), target) == Scan(true, true, false)
  {
    var m := OneFile(target)[0];
    TargetIsNormal(target);
    EntryAtTarget(m, target);
    ScanSingle(m, target);
  }

  lemma SearchTwo(bottom: Layer, top: Layer, target: Path)
    requires ScanLayer(bottom, target) == Scan(true, true, false) && ScanLayer(top, target) == Scan(false, false, false)
    ensures Search([Ok(bottom), Ok(top)], target) == Ok(EMPTY_DIGEST)
  {
    var read: seq<Result<Layer, Problem>> := [Ok(bottom), Ok(top)];
    assert read[..1] == [Ok(bottom)];
    assert Search(read, target) == Search([Ok(bottom)], target);
  }

  /** An entry for a path, its name spelled with a leading slash. */
  function Slashed(path: Path, kind: Kind): Member {
    Member("/" + Join(path, '/'), kind)
  }

  lemma {:induction false} CleanRooted(path: Path)
    requires PlainPath(path)
    ensures Clean([""] + path) == path
  {
    var rooted := [""] + path;
    if path == [] {
      assert rooted == [""] && rooted[..0] == [];
    } else {
      var n := |path| - 1;
      assert rooted[..|rooted| - 1] == [""] + path[..n] && rooted[|rooted| - 1] == path[n];
      assert PlainPath(path[..n]) by {
        forall j | 0 <= j < n ensures PlainPart(path[..n][j]) { assert PlainPart(path[j]); }
      }
      CleanRooted(path[..n]);
      assert PlainPart(path[n]);
    }
  }

  lemma SlashedResolves(path: Path, kind: Kind)
    requires PlainPath(path) && |path| > 0 && AllFree(path, '/')
    ensures Resolve(Slashed(path, kind).name) == path && !Spelled(Slashed(path, kind))
  {
    var name := "/" + Join(path, '/');
    TargetIsNormal(path);
    assert name == "" + ['/'] + Join(path, '/');
    SplitConcat("", Join(path, '/'), '/');
    assert Split("", '/') == [""];
    CleanRooted(path);
    NormalOfSlashed(path);
    assert |Split(name, '/')| == |path| + 1;
  }

  lemma NormalOfSlashed(path: Path)
    requires PlainPath(path) && |path| > 0 && AllFree(path, '/')
    ensures Normal("/" + Join(path, '/')) == "/" + Join(path, '/')
  {
    var joined := Join(path, '/');
    TargetIsNormal(path);
    assert PlainPart(path[|path| - 1]);
    if joined[|joined| - 1] == '/' {
      EndsWithEmptyPart(joined);
    }
  }

  lemma FinalOfTwo(bottom: Layer, top: Layer)
    ensures Final([bottom, top]) == ApplyLayer(ApplyLayer(map[], bottom), top)
  {
    var stack := [bottom, top];
    assert stack[..1] == [bottom] && [bottom][..0] == [];
    assert Final([bottom]) == ApplyLayer(map[], bottom);
  }

  lemma SettledByOne(m: Member, target: Path, before: Option<Kind>)
    ensures Settled([m], target, before) == if Concerns(m, target) then Effect(m, target) else before
  {
    assert [m][..0] == [];
    assert LastConcern([m][..0], target) == None;
  }

  lemma FinalTwo(bottom: Layer, m: Member, target: Path)
    requires Plain(target)
    ensures At(Final([bottom, [m]]), target)
      == if Concerns(m, target) then Effect(m, target) else At(ApplyLayer(map[], bottom), target)
  {
    FinalOfTwo(bottom, [m]);
    ApplyLayerAt(ApplyLayer(map[], bottom), [m], target);
    SettledByOne(m, target, At(ApplyLayer(map[], bottom), target));
  }

  lemma OneFileIsThere(target: Path)
    requires Plain(target) && AllFree(target, '/')
    ensures At(ApplyLayer(map[], OneFile(target)), target) == Some(Regular(0))
    ensures At(FinalHidingLower([OneFile(target)]), target) == Some(Regular(0))
  {
    var m := OneFile(target)[0];
    TargetIsNormal(target);
    PlainSplitIsSpelled(m);
    ApplyLayerAt(map[], [m], target);
    SettledByOne(m, target, None);
    TouchOfOne(m, target);
    TopHidingLower([[m]], target);
  }

  lemma TouchOfOne(m: Member, target: Path)
    requires Plain(target)
    ensures Touch([m], target) == if Concerns(m, target) then Some(Effect(m, target)) else None
  {
    assert [m][..0] == [] && LastPlacing([m][..0], target) == None;
    if Hides(Resolve(m.name), target) {
      MarkerIsPlain(Resolve(m.name), target);
      assert HidesAt([m], 0, target);
    }
    if Concerns(m, target) && WhiteoutNamed(Resolve(m.name)) {
      assert HidesAt([m], 0, target);
    }
  }

  lemma HidingLowerTwo(bottom: Layer, m: Member, target: Path)
    requires Plain(target)
    ensures At(FinalHidingLower([bottom, [m]]), target)
      == if Concerns(m, target) then Effect(m, target) else At(FinalHidingLower([bottom]), target)
  {
    var stack := [bottom, [m]];
    assert stack[..1] == [bottom];
    TopHidingLower(stack, target);
    TouchOfOne(m, target);
  }

  /** An entry spelled with a leading slash is never recognised, whatever it is: for every
      target the search finds the empty file below it, while in both readings the image holds what
      the entry leaves there, a whiteout nothing, another file that file, and the empty file only
      if the entry does not concern it. */
  lemma SlashedEntryIsMissed(target: Path, path: Path, kind: Kind)
    requires Plain(target) && AllFree(target, '/')
    requires PlainPath(path) && |path| > 0 && AllFree(path, '/')
    ensures Search([Ok(OneFile(target)), Ok([Slashed(path, kind)])], target) == Ok(EMPTY_DIGEST)
    ensures var stack := [OneFile(target), [Slashed(path, kind)]];
      var held := if path == target then Some(kind)
                  else if Hides(path, target) then None
                  else if Under(path, target) && !WhiteoutNamed(path) && !kind.Directory? then None
                  else Some(Regular(0));
      At(Final(stack), target) == held && At(FinalHidingLower(stack), target) == held
  {
    var m := Slashed(path, kind);
    SlashedResolves(path, kind);
    FoundInOneFile(target);
    ScanSingle(m, target);
    Unrecognised(Scan(false, false, false), m, target);
    SearchTwo(OneFile(target), [m], target);
    OneFileIsThere(target);
    FinalTwo(OneFile(target), m, target);
    HidingLowerTwo(OneFile(target), m, target);
  }
}
