/** What completing an SBOM conserves, what the digests it adds say about the image, and
    that completing it again changes nothing. */
module HydrationProperties {
  import opened Outcomes
  import opened Text
  import opened Numerals
  import opened Order
  import opened CanonicalJson
  import opened LayerImage
  import opened LayerSearch
  import opened LayerAgreement
  import opened SbomHydration

  // ---- One dictionary

  lemma {:induction false} GetWith(members: seq<Entry>, key: string, value: Json, other: string)
    ensures Get(With(members, key, value), other) == if other == key then value else Get(members, other)
  {
    if members != [] && members[0].key != key {
      GetWith(members[1..], key, value, other);
    }
  }

  /** A present key keeps its place and an absent one is added at the end. */
  lemma {:induction false} KeysWith(members: seq<Entry>, key: string, value: Json)
    ensures Keys(With(members, key, value)) == if key in Keys(members) then Keys(members) else Keys(members) + [key]
  {
    if members == [] {
      assert With(members, key, value)[1..] == [];
    } else if members[0].key == key {
      assert With(members, key, value)[1..] == members[1..];
    } else {
      KeysWith(members[1..], key, value);
      assert With(members, key, value)[1..] == With(members[1..], key, value);
    }
  }

  // ---- One component

  lemma {:induction false} SearchFindsOnlyEmptyFiles(read: seq<Result<Layer, Problem>>, target: Path)
    ensures Search(read, target).Ok? ==> Search(read, target).value == EMPTY_DIGEST
  {
    if read != [] {
      SearchFindsOnlyEmptyFiles(read[..|read| - 1], target);
    }
  }

  lemma AddedHashIsEvidence()
    ensures HasSha256(HashesFor(EMPTY_DIGEST))
  {
    assert AllHex("e3b0c44298fc1c14") && AllHex("9afbf4c8996fb924");
    assert AllHex("27ae41e4649b934c") && AllHex("a495991b7852b855");
    assert Sha256Text(EMPTY_DIGEST);
    var hash := HashesFor(EMPTY_DIGEST).items[0];
    GetWith([], "alg", Str("SHA-256"), "alg");
    assert Get(hash.members, "alg") == Str("SHA-256");
    assert Get(hash.members[1..], "content") == Str(EMPTY_DIGEST);
    assert Sha256Hash(hash);
  }

  /** A file component without a hash: an object of type file with no entry in an array `hashes` that
      is an object with the algorithm SHA-256 and 64 hexadecimal digits. */
  lemma HashlessExactly(c: Json)
    ensures Hashless(c) <==>
      && c.Obj? && Get(c.members, "type") == Str("file")
      && (Get(c.members, "hashes").Arr? ==>
            forall i :: 0 <= i < |Get(c.members, "hashes").items| ==>
              var h := Get(c.members, "hashes").items[i];
              !(h.Obj? && Get(h.members, "alg") == Str("SHA-256") && Get(h.members, "content").Str?
                && |Get(h.members, "content").s| == 64
                && forall d <- Get(h.members, "content").s :: '0' <= d <= '9' || 'a' <= d <= 'f'))
  {
    if c.Obj? && Get(c.members, "hashes").Arr? {
      var items := Get(c.members, "hashes").items;
      forall i | 0 <= i < |items|
        ensures Sha256Hash(items[i]) <==>
          && items[i].Obj? && Get(items[i].members, "alg") == Str("SHA-256") && Get(items[i].members, "content").Str?
          && |Get(items[i].members, "content").s| == 64
          && forall d <- Get(items[i].members, "content").s :: '0' <= d <= '9' || 'a' <= d <= 'f'
      {
        if items[i].Obj? && Get(items[i].members, "content").Str? {
          HexText(Get(items[i].members, "content").s);
        }
      }
    }
  }

  lemma HexText(s: string)
    ensures AllHex(s) <==> forall d <- s :: '0' <= d <= '9' || 'a' <= d <= 'f'
  {
    assert forall i :: 0 <= i < |s| ==> s[i] in s;
  }

  /** The component after the run: nothing but its hashes may differ, and only if it was
      a file without one. */
  ghost predicate Conserved(before: Json, after: Json) {
    if !Hashless(before) then after == before
    else
      && after.Obj?
      && Keys(after.members) == (if "hashes" in Keys(before.members) then Keys(before.members)
                                 else Keys(before.members) + ["hashes"])
      && Get(after.members, "hashes") == Arr([Obj([
           CanonicalJson.Member("alg", Str("SHA-256")),
           CanonicalJson.Member("content", Str("e3b0c44298fc1c14" + "9afbf4c8996fb924" + "27ae41e4649b934c"
                                               + "a495991b7852b855"))])])
      && (forall key :: key != "hashes" ==> Get(after.members, key) == Get(before.members, key))
  }

  lemma ComponentIsConserved(c: Json, archive: seq<ArchiveEntry>, layers: seq<string>)
    requires Hydrated(c, archive, layers).Ok?
    ensures Conserved(c, Hydrated(c, archive, layers).value)
    ensures !Hashless(Hydrated(c, archive, layers).value)
  {
    if Hashless(c) {
      var digest := DigestOf(c, archive, layers).value;
      SearchFindsOnlyEmptyFiles(OpenAll(archive, layers),
                                Split(RelativeFile(Get(c.members, "name").s).value, '/'));
      var after := Hydrated(c, archive, layers).value;
      forall key ensures Get(after.members, key) == if key == "hashes" then HashesFor(digest) else Get(c.members, key) {
        GetWith(c.members, "hashes", HashesFor(digest), key);
      }
      KeysWith(c.members, "hashes", HashesFor(digest));
      AddedHashIsEvidence();
    }
  }

  // ---- The whole document

  /** The file is completed exactly when every component is, each on its own. */
  lemma {:induction false} EachComponentIsHydrated(components: seq<Json>, archive: seq<ArchiveEntry>,
                                                   layers: seq<string>)
    ensures HydrateAll(components, archive, layers).Ok? <==>
      forall i :: 0 <= i < |components| ==> Hydrated(components[i], archive, layers).Ok?
    ensures HydrateAll(components, archive, layers).Ok? ==>
      var done := HydrateAll(components, archive, layers).value;
      |done| == |components|
      && forall i :: 0 <= i < |components| ==> Hydrated(components[i], archive, layers) == Ok(done[i])
  {
    if components != [] {
      var n := |components| - 1;
      EachComponentIsHydrated(components[..n], archive, layers);
      if forall i :: 0 <= i < |components| ==> Hydrated(components[i], archive, layers).Ok? {
        assert forall i :: 0 <= i < n ==> components[..n][i] == components[i];
      } else {
        var i :| 0 <= i < |components| && !Hydrated(components[i], archive, layers).Ok?;
        assert i < n ==> components[..n][i] == components[i];
      }
    }
  }

  function ComponentsOf(document: Json): seq<Json>
    requires document.Obj? && Get(document.members, "components").Arr?
  {
    Get(document.members, "components").items
  }

  /** A completed document has the same components in the same order, only the hashes of
      its hashless files differ, and every file component passes the hash clause. */
  lemma HydrationConserves(document: Json, manifest: Json, archive: seq<ArchiveEntry>)
    requires Completed(Some(document), Some(manifest), archive).Ok?
    ensures var after := Completed(Some(document), Some(manifest), archive).value;
      && after.Obj? && Get(after.members, "components").Arr?
      && (forall key :: key != "components" ==> Get(after.members, key) == Get(document.members, key))
      && |ComponentsOf(after)| == |ComponentsOf(document)|
      && (forall i :: 0 <= i < |ComponentsOf(document)| ==>
            Conserved(ComponentsOf(document)[i], ComponentsOf(after)[i]))
      && (forall i :: 0 <= i < |ComponentsOf(after)| && FileComponent(ComponentsOf(after)[i]) ==>
            HasSha256(Get(ComponentsOf(after)[i].members, "hashes")))
  {
    var layers := LayerNames(manifest).value;
    var given := ComponentsOf(document);
    var done := HydrateAll(given, archive, layers).value;
    var after := Completed(Some(document), Some(manifest), archive).value;
    forall key
      ensures Get(after.members, key) == if key == "components" then Arr(done) else Get(document.members, key)
    {
      GetWith(document.members, "components", Arr(done), key);
    }
    EachComponentIsHydrated(given, archive, layers);
    forall i | 0 <= i < |given| ensures Conserved(given[i], done[i]) && !Hashless(done[i]) {
      assert Hydrated(given[i], archive, layers) == Ok(done[i]);
      ComponentIsConserved(given[i], archive, layers);
    }
  }

  /** The manifest describes one image with these layers, bottom first: distinct names, none of them
      absolute and none with a part `..`. */
  ghost predicate ListsLayers(manifest: Json, names: seq<string>) {
    && manifest.Arr? && |manifest.items| == 1 && manifest.items[0].Obj?
    && var layers := Get(manifest.items[0].members, "Layers");
       && layers.Arr? && |layers.items| == |names| > 0
       && (forall i :: 0 <= i < |names| ==> layers.items[i] == Str(names[i]))
       && (forall i, j :: 0 <= i < j < |names| ==> names[i] != names[j])
       && (forall i :: 0 <= i < |names| ==> !("/" <= names[i]) && ".." !in Split(names[i], '/'))
  }

  /** The layers searched are exactly those that the manifest lists, in its order. */
  lemma LayerNamesExactly(manifest: Json, names: seq<string>)
    ensures LayerNames(manifest) == Ok(names) <==> ListsLayers(manifest, names)
    ensures LayerNames(manifest) == Err(NotOneImage) <==>
      !(manifest.Arr? && |manifest.items| == 1 && manifest.items[0].Obj?)
  {
    if manifest.Arr? && |manifest.items| == 1 && manifest.items[0].Obj? {
      var layers := Get(manifest.items[0].members, "Layers");
      if ListsLayers(manifest, names) {
        assert forall i :: 0 <= i < |names| ==> SafeLayer(layers.items[i]);
        assert Strings(layers.items) == names;
      }
      if LayerNames(manifest) == Ok(names) {
        assert forall i :: 0 <= i < |names| ==> SafeLayer(layers.items[i]) && layers.items[i] == Str(names[i]);
      }
    }
  }

  /** The stack holds what the archive has under these names, wherever that is one readable layer. */
  ghost predicate StackOf(archive: seq<ArchiveEntry>, names: seq<string>, stack: seq<Layer>) {
    && |stack| == |names|
    && forall i, j :: 0 <= i < |names| && OnlyEntry(archive, j, names[i]) && archive[j].layer.Some? ==>
         stack[i] == archive[j].layer.value
  }

  lemma StackIsRead(archive: seq<ArchiveEntry>, names: seq<string>, stack: seq<Layer>)
    requires StackOf(archive, names, stack)
    ensures Holds(OpenAll(archive, names), stack)
  {
    forall i | 0 <= i < |names| && OpenLayer(archive, names[i]).Ok?
      ensures stack[i] == OpenLayer(archive, names[i]).value
    {
      OpenedExactly(archive, names[i], OpenLayer(archive, names[i]).value);
    }
    ArchiveHolds(archive, names, stack);
  }

  /** Exactly when the file is completed: components, one image with its list of layers, and for every
      hashless file a path that the search finds. */
  lemma CompletedExactly(document: Json, manifest: Json, archive: seq<ArchiveEntry>, names: seq<string>)
    requires ListsLayers(manifest, names)
    ensures Completed(Some(document), Some(manifest), archive).Ok? <==>
      && document.Obj? && Get(document.members, "components").Arr?
      && forall i :: 0 <= i < |ComponentsOf(document)| && Hashless(ComponentsOf(document)[i]) ==>
           var name := Get(ComponentsOf(document)[i].members, "name");
           name.Str? && exists n ::
             SlashesThen(name.s, n) && Search(OpenAll(archive, names), Split(name.s[n..], '/')).Ok?
  {
    LayerNamesExactly(manifest, names);
    if document.Obj? && Get(document.members, "components").Arr? {
      var components := ComponentsOf(document);
      EachComponentIsHydrated(components, archive, names);
      forall i | 0 <= i < |components| && Hashless(components[i])
        ensures Hydrated(components[i], archive, names).Ok? <==>
          var name := Get(components[i].members, "name");
          name.Str? && exists n ::
            SlashesThen(name.s, n) && Search(OpenAll(archive, names), Split(name.s[n..], '/')).Ok?
      {
        FoundExactly(components[i], archive, names);
      }
    }
  }

  lemma FoundExactly(c: Json, archive: seq<ArchiveEntry>, names: seq<string>)
    requires Hashless(c)
    ensures Hydrated(c, archive, names).Ok? <==>
      var name := Get(c.members, "name");
      name.Str? && exists n ::
        SlashesThen(name.s, n) && Search(OpenAll(archive, names), Split(name.s[n..], '/')).Ok?
  {
    var name := Get(c.members, "name");
    if name.Str? {
      RelativeFileExactly(name.s);
    }
  }

  /** When a digest that is added is the digest of what the final image holds there: exactly, in
      each of the two readings, and in both whenever what concerns the file is spelled as it
      resolves and its name is no whiteout's. The layers are the manifest's, bottom first. */
  lemma AddedDigestsAreTrue(document: Json, manifest: Json, archive: seq<ArchiveEntry>, names: seq<string>,
                            stack: seq<Layer>, i: nat, n: int)
    requires Completed(Some(document), Some(manifest), archive).Ok?
    requires i < |ComponentsOf(document)| && Hashless(ComponentsOf(document)[i])
    requires ListsLayers(manifest, names) && StackOf(archive, names, stack)
    requires var name := Get(ComponentsOf(document)[i].members, "name"); name.Str? && SlashesThen(name.s, n)
    ensures var target := Split(Get(ComponentsOf(document)[i].members, "name").s[n..], '/');
      var read := OpenAll(archive, names);
      && (At(Final(stack), target) == Some(Regular(0)) <==> !WhiteoutNamed(target) && OverlooksNoHarm(read, target))
      && (At(FinalHidingLower(stack), target) == Some(Regular(0)) <==>
           !WhiteoutNamed(target) && OverlooksNoHarmHidingLower(read, target))
      && (!WhiteoutNamed(target) && SpelledWhereSearched(read, target) ==>
           At(Final(stack), target) == Some(Regular(0)) && At(FinalHidingLower(stack), target) == Some(Regular(0)))
  {
    var name := Get(ComponentsOf(document)[i].members, "name").s;
    var read, target := OpenAll(archive, names), Split(name[n..], '/');
    LayerNamesExactly(manifest, names);
    StackIsRead(archive, names, stack);
    EachComponentIsHydrated(ComponentsOf(document), archive, names);
    assert Hydrated(ComponentsOf(document)[i], archive, names).Ok?;
    RelativeFileExactly(name);
    assert Search(read, target).Ok?;
    DigestIsRightExactly(read, stack, target);
    DigestIsRightHidingLowerExactly(read, stack, target);
    if !WhiteoutNamed(target) && SpelledWhereSearched(read, target) {
      SpelledIsNotOverlooked(read, target);
      SpelledSearchHidingLower(read, stack, target);
    }
  }

  // ---- Running it again

  lemma {:induction false} NothingToHydrate(components: seq<Json>, archive: seq<ArchiveEntry>, layers: seq<string>)
    requires forall i :: 0 <= i < |components| ==> !Hashless(components[i])
    ensures HydrateAll(components, archive, layers) == Ok(components)
  {
    if components != [] {
      var n := |components| - 1;
      NothingToHydrate(components[..n], archive, layers);
      assert components[..n] + [components[n]] == components;
    }
  }

  lemma {:induction false} WithSame(members: seq<Entry>, key: string)
    requires Get(members, key) != Null
    ensures With(members, key, Get(members, key)) == members
  {
    if members[0].key != key {
      WithSame(members[1..], key);
      assert [members[0]] + members[1..] == members;
    } else {
      assert [CanonicalJson.Member(key, members[0].value)] + members[1..] == members;
    }
  }

  /** A document without hashless files is left as it is. */
  lemma CompleteStays(document: Json, manifest: Json, archive: seq<ArchiveEntry>)
    requires document.Obj? && Get(document.members, "components").Arr? && LayerNames(manifest).Ok?
    requires forall i :: 0 <= i < |ComponentsOf(document)| ==> !Hashless(ComponentsOf(document)[i])
    ensures Completed(Some(document), Some(manifest), archive) == Ok(document)
  {
    NothingToHydrate(ComponentsOf(document), archive, LayerNames(manifest).value);
    WithSame(document.members, "components");
  }

  // ---- Sorting the keys of what is written

  function SortedMembers(members: seq<Entry>): (r: seq<Entry>)
    ensures |r| == |members|
    ensures forall i :: 0 <= i < |r| ==> r[i] == CanonicalJson.Member(members[i].key, SortKeys(members[i].value))
  {
    seq(|members|, i requires 0 <= i < |members| => CanonicalJson.Member(members[i].key, SortKeys(members[i].value)))
  }

  lemma SortKeysOfObj(members: seq<Entry>)
    ensures SortKeys(Obj(members)) == Obj(Sort(SortedMembers(members), ByKey))
  {
    assert seq(|members|, i requires 0 <= i < |members| =>
             CanonicalJson.Member(members[i].key, SortKeys(members[i].value)))
        == SortedMembers(members);
  }

  lemma SortedMembersAreDistinct(members: seq<Entry>)
    requires UniqueKeys(Obj(members))
    ensures DistinctKeys(SortedMembers(members), ByKey)
    ensures StrictlySorted(Sort(SortedMembers(members), ByKey), ByKey)
  {
    SortSorts(SortedMembers(members), ByKey);
  }

  lemma SortedStays(s: seq<Entry>)
    requires StrictlySorted(s, ByKey)
    ensures Sort(s, ByKey) == s
  {
    forall i, j | 0 <= i < j < |s| ensures ByKey(s[i]) != ByKey(s[j]) {
      LessIsTotal(ByKey(s[i]), ByKey(s[j]));
    }
    SortSorts(s, ByKey);
    forall x ensures x in Sort(s, ByKey) <==> x in s {
      InSorted(s, x);
    }
    SortedSameElements(Sort(s, ByKey), s, ByKey);
  }

  lemma {:induction false} SortKeysIsIdempotent(v: Json)
    requires UniqueKeys(v)
    ensures SortKeys(SortKeys(v)) == SortKeys(v)
    decreases v
  {
    match v
    case Arr(items) =>
      forall i | 0 <= i < |items| ensures SortKeys(SortKeys(items[i])) == SortKeys(items[i]) {
        SortKeysIsIdempotent(items[i]);
      }
      assert SortKeys(SortKeys(v)).items == SortKeys(v).items;
    case Obj(members) =>
      forall i | 0 <= i < |members| ensures SortKeys(SortKeys(members[i].value)) == SortKeys(members[i].value) {
        SortKeysIsIdempotent(members[i].value);
      }
      SortedObjStays(members);
    case _ =>
  }

  lemma SortedObjStays(members: seq<Entry>)
    requires UniqueKeys(Obj(members))
    requires forall i :: 0 <= i < |members| ==> SortKeys(SortKeys(members[i].value)) == SortKeys(members[i].value)
    ensures SortKeys(SortKeys(Obj(members))) == SortKeys(Obj(members))
  {
    var plain := SortedMembers(members);
    var sorted := Sort(plain, ByKey);
    SortKeysOfObj(members);
    SortKeysOfObj(sorted);
    SortedMembersAreDistinct(members);
    forall i | 0 <= i < |sorted| ensures SortedMembers(sorted)[i] == sorted[i] {
      assert sorted[i] in sorted;
      InSorted(plain, sorted[i]);
      var j :| 0 <= j < |plain| && plain[j] == sorted[i];
    }
    assert SortedMembers(sorted) == sorted;
    SortedStays(sorted);
  }

  // ---- Looking a key up after sorting

  lemma GetSorted(members: seq<Entry>, key: string)
    requires UniqueKeys(Obj(members))
    ensures Get(SortKeys(Obj(members)).members, key) == SortKeys(Get(members, key))
  {
    var plain := SortedMembers(members);
    var sorted := Sort(plain, ByKey);
    SortKeysOfObj(members);
    SortedMembersAreDistinct(members);
    forall i, j | 0 <= i < j < |sorted| ensures sorted[i].key != sorted[j].key {
      LessIsTotal(ByKey(sorted[i]), ByKey(sorted[j]));
    }
    if i :| 0 <= i < |members| && members[i].key == key {
      GetFinds(members, i);
      InSorted(plain, plain[i]);
      var j :| 0 <= j < |sorted| && sorted[j] == plain[i];
      GetFinds(sorted, j);
    } else {
      GetMisses(members, key);
      forall j | 0 <= j < |sorted| ensures sorted[j].key != key {
        InSorted(plain, sorted[j]);
        var i :| 0 <= i < |plain| && plain[i] == sorted[j];
      }
      GetMisses(sorted, key);
    }
  }

  lemma SortedHash(v: Json)
    requires UniqueKeys(v)
    ensures Sha256Hash(SortKeys(v)) <==> Sha256Hash(v)
  {
    if v.Obj? {
      SortKeysOfObj(v.members);
      GetSorted(v.members, "alg");
      GetSorted(v.members, "content");
    }
  }

  lemma SortedHashless(c: Json)
    requires UniqueKeys(c)
    ensures Hashless(SortKeys(c)) <==> Hashless(c)
  {
    if c.Obj? {
      SortKeysOfObj(c.members);
      GetSorted(c.members, "type");
      GetSorted(c.members, "hashes");
      GetIsUnique(c.members, "hashes");
      var hashes := Get(c.members, "hashes");
      if hashes.Arr? {
        forall i | 0 <= i < |hashes.items|
          ensures Sha256Hash(SortKeys(hashes.items[i])) <==> Sha256Hash(hashes.items[i])
        {
          SortedHash(hashes.items[i]);
        }
        SortedEvidence(hashes.items);
      }
    }
  }

  lemma SortedEvidence(items: seq<Json>)
    requires forall i :: 0 <= i < |items| ==> (Sha256Hash(SortKeys(items[i])) <==> Sha256Hash(items[i]))
    ensures HasSha256(SortKeys(Arr(items))) <==> HasSha256(Arr(items))
  {
    var sorted := SortKeys(Arr(items)).items;
    assert forall i :: 0 <= i < |items| ==> sorted[i] == SortKeys(items[i]);
    if i :| 0 <= i < |items| && Sha256Hash(items[i]) {
      assert Sha256Hash(sorted[i]);
    }
    if i :| 0 <= i < |sorted| && Sha256Hash(sorted[i]) {
      assert Sha256Hash(items[i]);
    }
  }

  // ---- The second run

  lemma {:induction false} WithElements(members: seq<Entry>, key: string, value: Json, i: nat)
    requires i < |With(members, key, value)|
    ensures var x := With(members, key, value)[i]; x == CanonicalJson.Member(key, value) || x in members
  {
    if members != [] && members[0].key != key && i > 0 {
      WithElements(members[1..], key, value, i - 1);
    }
  }

  lemma UniqueTail(members: seq<Entry>)
    requires members != [] && UniqueKeys(Obj(members))
    ensures UniqueKeys(Obj(members[1..]))
    ensures forall i :: 0 <= i < |members[1..]| ==> members[1..][i].key != members[0].key
  {
    assert forall i :: 0 <= i < |members[1..]| ==> members[1..][i] == members[i + 1];
  }

  lemma {:induction false} WithIsUnique(members: seq<Entry>, key: string, value: Json)
    requires UniqueKeys(Obj(members)) && UniqueKeys(value)
    ensures UniqueKeys(Obj(With(members, key, value)))
  {
    if members != [] {
      UniqueTail(members);
      if members[0].key != key {
        WithIsUnique(members[1..], key, value);
        var rest := With(members[1..], key, value);
        forall i | 0 <= i < |rest| ensures rest[i].key != members[0].key {
          WithElements(members[1..], key, value, i);
        }
      }
    }
  }

  lemma HydratedIsUnique(c: Json, archive: seq<ArchiveEntry>, layers: seq<string>)
    requires UniqueKeys(c) && Hydrated(c, archive, layers).Ok?
    ensures UniqueKeys(Hydrated(c, archive, layers).value)
  {
    if Hashless(c) {
      var hashes := HashesFor(DigestOf(c, archive, layers).value);
      assert UniqueKeys(hashes.items[0]);
      WithIsUnique(c.members, "hashes", hashes);
    }
  }

  lemma CompletedIsUnique(document: Json, manifest: Json, archive: seq<ArchiveEntry>)
    requires UniqueKeys(document) && Completed(Some(document), Some(manifest), archive).Ok?
    ensures UniqueKeys(Completed(Some(document), Some(manifest), archive).value)
  {
    var layers := LayerNames(manifest).value;
    var given := ComponentsOf(document);
    var done := HydrateAll(given, archive, layers).value;
    EachComponentIsHydrated(given, archive, layers);
    GetIsUnique(document.members, "components");
    forall i | 0 <= i < |done| ensures UniqueKeys(done[i]) {
      assert Hydrated(given[i], archive, layers) == Ok(done[i]);
      HydratedIsUnique(given[i], archive, layers);
    }
    WithIsUnique(document.members, "components", Arr(done));
  }

  lemma SortedStaysComplete(document: Json, manifest: Json, archive: seq<ArchiveEntry>)
    requires document.Obj? && Get(document.members, "components").Arr? && LayerNames(manifest).Ok?
    requires UniqueKeys(document)
    requires forall i :: 0 <= i < |ComponentsOf(document)| ==> !Hashless(ComponentsOf(document)[i])
    ensures Completed(Some(SortKeys(document)), Some(manifest), archive) == Ok(SortKeys(document))
  {
    SortKeysOfObj(document.members);
    GetSorted(document.members, "components");
    GetIsUnique(document.members, "components");
    var given, sorted := ComponentsOf(document), ComponentsOf(SortKeys(document));
    forall i | 0 <= i < |sorted| ensures !Hashless(sorted[i]) {
      assert sorted[i] == SortKeys(given[i]);
      SortedHashless(given[i]);
    }
    CompleteStays(SortKeys(document), manifest, archive);
  }

  /** JSON reading refuses repeated keys and undoes printing. */
  ghost predicate Faithful(parse: Parse, print_: PrintJson) {
    && (forall t :: parse(t).Some? ==> UniqueKeys(parse(t).value))
    && (forall d :: UniqueKeys(d) ==> parse(print_(d) + "\n") == Some(d))
  }

  /** A second run, whatever image it is held against, leaves the file as the first one wrote it,
      or refuses it exactly when the hashes added have made it longer than what is read. */
  lemma SecondRunChangesNothing(text: string, manifest: Option<Json>, archive: seq<ArchiveEntry>,
                                manifest2: Json, archive2: seq<ArchiveEntry>, parse: Parse, print_: PrintJson)
    requires Faithful(parse, print_) && Rewritten(text, manifest, archive, parse, print_).Ok?
    requires LayerNames(manifest2).Ok?
    ensures var once := Rewritten(text, manifest, archive, parse, print_).value;
      Rewritten(once, Some(manifest2), archive2, parse, print_)
      == if Utf8Size(once) <= MAX_SBOM then Ok(once) else Err(TooLarge)
  {
    var document := parse(text).value;
    var done := Completed(Some(document), Some(manifest.value), archive).value;
    HydrationConserves(document, manifest.value, archive);
    CompletedIsUnique(document, manifest.value, archive);
    SortedStaysComplete(done, manifest2, archive2);
    SortKeysIsIdempotent(done);
    SortedIsUnique(done);
  }

  lemma {:induction false} SortedIsUnique(v: Json)
    requires UniqueKeys(v)
    ensures UniqueKeys(SortKeys(v))
    decreases v
  {
    match v
    case Arr(items) =>
      forall i | 0 <= i < |items| ensures UniqueKeys(SortKeys(items[i])) {
        SortedIsUnique(items[i]);
      }
    case Obj(members) =>
      forall i | 0 <= i < |members| ensures UniqueKeys(SortKeys(members[i].value)) {
        SortedIsUnique(members[i].value);
      }
      SortedObjIsUnique(members);
    case _ =>
  }

  lemma SortedObjIsUnique(members: seq<Entry>)
    requires UniqueKeys(Obj(members))
    requires forall i :: 0 <= i < |members| ==> UniqueKeys(SortKeys(members[i].value))
    ensures UniqueKeys(SortKeys(Obj(members)))
  {
    var plain := SortedMembers(members);
    var sorted := Sort(plain, ByKey);
    SortKeysOfObj(members);
    SortedMembersAreDistinct(members);
    forall i, j | 0 <= i < j < |sorted| ensures sorted[i].key != sorted[j].key {
      LessIsTotal(ByKey(sorted[i]), ByKey(sorted[j]));
    }
    forall i | 0 <= i < |sorted| ensures UniqueKeys(sorted[i].value) {
      InSorted(plain, sorted[i]);
      var j :| 0 <= j < |plain| && plain[j] == sorted[i];
    }
  }

  // ---- What is written

  /** The same value but for the order in which objects list their members. */
  ghost predicate Rearranged(v: Json, w: Json)
    decreases v
  {
    match (v, w)
    case (Arr(xs), Arr(ys)) => |xs| == |ys| && forall i :: 0 <= i < |xs| ==> Rearranged(xs[i], ys[i])
    case (Obj(xs), Obj(ys)) =>
      && |xs| == |ys| && KeySet(xs) == KeySet(ys)
      && forall i, j :: 0 <= i < |xs| && 0 <= j < |ys| && xs[i].key == ys[j].key ==>
           Rearranged(xs[i].value, ys[j].value)
    case _ => v == w
  }

  /** At every level keys come in ascending order, by code points. */
  ghost predicate KeysAscend(v: Json)
    decreases v
  {
    match v
    case Arr(items) => forall i :: 0 <= i < |items| ==> KeysAscend(items[i])
    case Obj(members) =>
      && (forall i, j :: 0 <= i < j < |members| ==> Less(members[i].key, members[j].key))
      && forall i :: 0 <= i < |members| ==> KeysAscend(members[i].value)
    case _ => true
  }

  /** What the file is printed from: the completed document, only rearranged, with ascending keys. */
  lemma {:induction false} SortedExactly(v: Json)
    requires UniqueKeys(v)
    ensures Rearranged(v, SortKeys(v)) && KeysAscend(SortKeys(v))
    decreases v
  {
    match v
    case Arr(items) =>
      forall i | 0 <= i < |items| ensures Rearranged(items[i], SortKeys(items[i])) && KeysAscend(SortKeys(items[i])) {
        SortedExactly(items[i]);
      }
    case Obj(members) =>
      forall i | 0 <= i < |members|
        ensures Rearranged(members[i].value, SortKeys(members[i].value)) && KeysAscend(SortKeys(members[i].value))
      {
        SortedExactly(members[i].value);
      }
      SortKeysOfObj(members);
      SortedObject(members);
    case _ =>
  }

  /** Sorting keeps the members, by number and by key. */
  lemma SortingKeepsMembers(plain: seq<Entry>)
    ensures var sorted := Sort(plain, ByKey);
      && |sorted| == |plain| && KeySet(sorted) == KeySet(plain)
      && forall j :: 0 <= j < |sorted| ==> sorted[j] in plain
  {
    var sorted := Sort(plain, ByKey);
    SortPermutes(plain, ByKey);
    assert |multiset(sorted)| == |multiset(plain)|;
    forall j | 0 <= j < |sorted| ensures sorted[j] in plain {
      InSorted(plain, sorted[j]);
    }
    forall i | 0 <= i < |plain| ensures plain[i].key in KeySet(sorted) {
      InSorted(plain, plain[i]);
      var j :| 0 <= j < |sorted| && sorted[j] == plain[i];
    }
    forall j | 0 <= j < |sorted| ensures sorted[j].key in KeySet(plain) {
      var i :| 0 <= i < |plain| && plain[i] == sorted[j];
    }
  }

  lemma SortedObject(members: seq<Entry>)
    requires UniqueKeys(Obj(members))
    requires forall i :: 0 <= i < |members| ==>
      Rearranged(members[i].value, SortKeys(members[i].value)) && KeysAscend(SortKeys(members[i].value))
    ensures var sorted := Sort(SortedMembers(members), ByKey);
      Rearranged(Obj(members), Obj(sorted)) && KeysAscend(Obj(sorted))
  {
    var plain := SortedMembers(members);
    var sorted := Sort(plain, ByKey);
    SortedMembersAreDistinct(members);
    SortingKeepsMembers(plain);
    assert KeySet(members) == KeySet(plain);
    forall i, j | 0 <= i < |members| && 0 <= j < |sorted| && members[i].key == sorted[j].key
      ensures Rearranged(members[i].value, sorted[j].value)
    {
      var k :| 0 <= k < |plain| && plain[k] == sorted[j];
      assert members[k].key == members[i].key;
    }
    forall j | 0 <= j < |sorted| ensures KeysAscend(sorted[j].value) {
      var k :| 0 <= k < |plain| && plain[k] == sorted[j];
    }
  }
}
