/**
 * Markers and payloads of the hot cache (cmd/llm-proxy/cache_manager.go: materializedPath, complete,
 * cacheResult, hotArtifactExists, evict, and the marker written by ensureArtifact), and the invariant that
 * every complete marker has its payload.
 */
module Cache {
  import opened Prelude
  import opened Paths
  import opened FileSystem
  import opened Layout
  import Archive
  import CacheKeys
  import Repair
  import RoundTrip

  const MARKERS := ".llm-cache"
  const SPEC := "cache.json"

  function KeyOf(spec: CacheSpec): string { CacheKeys.Key(spec.kind, spec.repo, spec.revision) }

  function Area(hot: Path): Path { hot + [MARKERS] }

  function Marker(hot: Path, key: string): Path { hot + [MARKERS, key] }

  function Dashed(repo: string): string {
    if repo == "" then "" else (if repo[0] == '/' then "--" else [repo[0]]) + Dashed(repo[1..])
  }

  /** materializedPath. */
  function Payload(hot: Path, spec: CacheSpec): Path {
    if spec.kind == CacheKeys.HUB then hot + ["hub", "models--" + Dashed(spec.repo)] else hot + spec.target
  }

  predicate Complete(fs: Files, dir: Path) { Stat(fs, dir + [Archive.COMPLETE]).Some? }

  /** hotArtifactExists. */
  predicate HotArtifactExists(fs: Files, hot: Path, spec: CacheSpec) {
    if spec.kind == CacheKeys.HUB then Stat(fs, Payload(hot, spec)).Some?
    else Repair.AllServed(fs, hot, Payload(hot, spec), spec.files)
  }

  datatype State = Hot | ColdHit | External

  /** cacheResult. */
  function CacheResult(fs: Files, hot: Path, cold: Path, spec: CacheSpec): State {
    if Complete(fs, Marker(hot, KeyOf(spec))) then Hot
    else if Complete(fs, cold + ["artifacts", KeyOf(spec)]) then ColdHit
    else if HotArtifactExists(fs, hot, spec) then Hot
    else External
  }

  /** The specification recorded with a marker, if it can be read. */
  function MarkerSpec(fs: Files, hot: Path, key: string): Option<CacheSpec> {
    match Read(fs, Marker(hot, key) + [SPEC])
    case Some(SpecJson(s)) => Some(s)
    case _ => None
  }

  /** evict: the payload the marker speaks of, then the marker. */
  function Evict(fs: Files, hot: Path, key: string): Files {
    var s := MarkerSpec(fs, hot, key);
    var rest :=
      if s.Some? && ((s.value.kind == CacheKeys.HUB && s.value.repo != "") || s.value.kind == CacheKeys.FILES)
      then RemoveAll(fs, Payload(hot, s.value)) else fs;
    RemoveAll(rest, Marker(hot, key))
  }

  /** The marker ensureArtifact writes: its directory, the completion mark, then the specification. */
  function Mark(fs: Files, hot: Path, spec: CacheSpec): Outcome {
    var dir := Marker(hot, KeyOf(spec));
    var m := MkdirAll(fs, dir);
    if !m.ok then m
    else
      var c := Write(m.fs, dir + [Archive.COMPLETE], Stamp);
      if !c.ok then c else Write(c.fs, dir + [SPEC], SpecJson(spec))
  }

  // ------------------------------------------------------------------ paths without links

  predicate Straight(fs: Files, p: Path) {
    forall i :: 0 < i <= |p| && p[..i] in fs ==> !fs[p[..i]].Link?
  }

  lemma {:induction false} WalkStraight(fs: Files, p: Path, i: nat, links: nat)
    requires IsPath(p) && Straight(fs, p) && i <= |p|
    ensures var q := Walk(fs, p[..i], p[i..], links);
            q.Some? ==> q.value == p && (i < |p| ==> p in fs)
    decreases |p| - i
  {
    if i == |p| {
      assert p[..i] == p && p[i..] == [];
    } else {
      assert p[i..][0] == p[i] && p[i..][1..] == p[i + 1..] && p[i] in p;
      assert p[..i] + [p[i]] == p[..i + 1] && p[..|p|] == p;
      WalkStraight(fs, p, i + 1, links);
    }
  }

  lemma ResolveStraight(fs: Files, p: Path)
    requires Tree(fs) && IsPath(p) && p != [] && Straight(fs, p)
    ensures Resolve(fs, p) == if p in fs then Some(p) else None
  {
    assert p[..|p|] == p && p[..0] == [] && p[0..] == p;
    if p in fs {
      ResolveEntry(fs, p);
    } else {
      WalkStraight(fs, p, 0, LINK_LIMIT);
    }
  }

  lemma StraightDir(fs: Files, p: Path)
    requires p != [] && Straight(fs, p)
    ensures Straight(fs, Dir(p))
  {
    forall i | 0 < i <= |Dir(p)| && Dir(p)[..i] in fs ensures !fs[Dir(p)[..i]].Link? {
      assert Dir(p)[..i] == p[..i];
    }
  }

  lemma PlaceStraight(fs: Files, p: Path)
    requires Tree(fs) && IsPath(p) && p != [] && Straight(fs, Dir(p))
    ensures Place(fs, p) == if IsFolder(fs, Dir(p)) then Some(p) else None
  {
    assert forall c :: c in Dir(p) ==> c in p;
    if IsFolder(fs, Dir(p)) {
      PlaceOfReal(fs, p);
    } else {
      ResolveStraight(fs, Dir(p));
    }
  }

  lemma RemoveAllStraight(fs: Files, p: Path)
    requires Tree(fs) && IsPath(p) && p != [] && Straight(fs, Dir(p))
    ensures RemoveAll(fs, p) == Without(fs, p)
  {
    PlaceStraight(fs, p);
    if !IsFolder(fs, Dir(p)) {
      forall q | q in fs ensures !(p <= q) {
        if p <= q {
          assert q[..|p| - 1] == Dir(p);
          AncestorIsFolder(fs, q, |p| - 1);
        }
      }
      assert Without(fs, p) == fs;
    }
  }

  // ------------------------------------------------------------------ the invariant

  /** A file of an artifact in place: a regular file, or a relative link to a regular blob of the store. */
  ghost predicate FileInstalled(fs: Files, hot: Path, p: Path) {
    && p in fs && p != []
    && (|| fs[p].File?
        || exists n :: InStore(fs, hot, n) && fs[p] == Link(LinkTo(p, Archive.HotBlobs(hot) + [n])))
  }

  predicate InStore(fs: Files, hot: Path, n: string) {
    Archive.HotBlobs(hot) + [n] in fs && fs[Archive.HotBlobs(hot) + [n]].File?
  }

  ghost predicate Installed(fs: Files, hot: Path, spec: CacheSpec) {
    if spec.kind == CacheKeys.HUB then Payload(hot, spec) in fs && fs[Payload(hot, spec)].Folder?
    else forall f :: f in spec.files ==> FileInstalled(fs, hot, Payload(hot, spec) + f)
  }

  /**
   * The artifacts the cache serves, by key, and the keys of those whose files may still lie as an earlier
   * release left them.
   */
  datatype Specs = Specs(known: map<string, CacheSpec>, legacy: set<string>)

  /** The files of an artifact as an earlier release left them: links in real directories, wherever they lead. */
  predicate Outdated(fs: Files, hot: Path, spec: CacheSpec) {
    && spec.kind == CacheKeys.FILES
    && forall f :: f in spec.files ==> f != [] && IsLinkIn(fs, Payload(hot, spec), f)
  }

  predicate IsLinkIn(fs: Files, root: Path, f: Path)
    requires f != []
  {
    root + f in fs && fs[root + f].Link? && IsFolder(fs, Dir(root + f)) && root <= Dir(root + f)
  }

  /** The payload of a key is installed, or may lie, and lies, as an earlier release left it. */
  ghost predicate Stands(fs: Files, hot: Path, specs: Specs, k: string)
    requires k in specs.known
  {
    Installed(fs, hot, specs.known[k]) || (k in specs.legacy && Outdated(fs, hot, specs.known[k]))
  }

  /**
   * The artifacts the cache serves, by key: each specification has its key, file artifacts lie below gguf
   * and off the blob store, and no two payloads overlap.
   */
  ghost predicate Catalogue(hot: Path, specs: Specs) {
    && IsPath(hot) && hot != []
    && (forall k :: k in specs.known ==> KeyOf(specs.known[k]) == k && Fits(hot, specs.known[k]))
    && forall k, l :: k in specs.known && l in specs.known && k != l ==>
          Apart(Payload(hot, specs.known[k]), Payload(hot, specs.known[l]))
  }

  predicate Fits(hot: Path, spec: CacheSpec) {
    && Proper(KeyOf(spec)) && IsPath(Payload(hot, spec))
    && (|| spec.kind == CacheKeys.HUB
        || (spec.kind == CacheKeys.FILES && BelowGguf(spec.target) && Apart(Payload(hot, spec), Archive.HotBlobs(hot))))
  }

  lemma MarkerNames()
    ensures Proper(MARKERS) && Proper(Archive.COMPLETE) && Proper(SPEC) && Archive.COMPLETE != SPEC
    ensures MARKERS != GGUF && MARKERS != "hub" && GGUF != "hub"
  {
    assert |MARKERS| == 10 && |Archive.COMPLETE| == 9 && |SPEC| == 10 && |GGUF| == 4 && |"hub"| == 3;
    assert MARKERS[1] == 'l' && Archive.COMPLETE[1] == 'c' && SPEC[1] == 'a' && SPEC[0] == 'c';
  }

  /** Payloads, the blob store and the markers lie apart from each other. */
  lemma PlacesApart(hot: Path, spec: CacheSpec)
    requires Fits(hot, spec)
    ensures Apart(Payload(hot, spec), Area(hot)) && Apart(Payload(hot, spec), Archive.HotBlobs(hot))
    ensures Apart(Archive.HotBlobs(hot), Area(hot)) && |Payload(hot, spec)| > |hot| + 1 && hot <= Payload(hot, spec)
  {
    MarkerNames();
    var p, a, b := Payload(hot, spec), Area(hot), Archive.HotBlobs(hot);
    assert a[|hot|] == MARKERS && b[|hot|] == GGUF;
    assert p[|hot|] == if spec.kind == CacheKeys.HUB then "hub" else GGUF;
  }

  /** Real directories above the markers and the payloads, and no links among the markers. */
  ghost predicate Base(fs: Files, hot: Path, specs: Specs) {
    && Tree(fs) && Straight(fs, Area(hot)) && (forall p :: p in fs && Area(hot) <= p ==> !fs[p].Link?)
    && forall k :: k in specs.known ==> StraightAbove(fs, Payload(hot, specs.known[k]))
  }

  predicate StraightAbove(fs: Files, p: Path) { p != [] && Straight(fs, Dir(p)) }

  /** A complete marker has its payload, and a recorded specification speaks of that payload. */
  ghost predicate MarkerSound(fs: Files, hot: Path, specs: Specs, k: string) {
    && (Marker(hot, k) + [Archive.COMPLETE] in fs ==> k in specs.known && Stands(fs, hot, specs, k))
    && (Marker(hot, k) + [SPEC] in fs && fs[Marker(hot, k) + [SPEC]].File?
        && fs[Marker(hot, k) + [SPEC]].data.SpecJson? ==>
          k in specs.known && Payload(hot, fs[Marker(hot, k) + [SPEC]].data.spec) == Payload(hot, specs.known[k]))
  }

  ghost predicate Inv(fs: Files, hot: Path, specs: Specs) {
    Base(fs, hot, specs) && forall k :: MarkerSound(fs, hot, specs, k)
  }

  /** Below the markers everything is where its name says. */
  lemma InArea(fs: Files, hot: Path, specs: Specs, x: Path)
    requires Base(fs, hot, specs) && IsPath(hot) && IsPath(x)
    ensures Straight(fs, Area(hot) + x) && IsPath(Area(hot) + x)
    ensures Resolve(fs, Area(hot) + x) == if Area(hot) + x in fs then Some(Area(hot) + x) else None
  {
    MarkerNames();
    var p := Area(hot) + x;
    forall i | 0 < i <= |p| && p[..i] in fs ensures !fs[p[..i]].Link? {
      if i <= |Area(hot)| {
        assert p[..i] == Area(hot)[..i];
      } else {
        assert Area(hot) <= p[..i];
      }
    }
    ResolveStraight(fs, p);
  }

  lemma CompleteIff(fs: Files, hot: Path, specs: Specs, k: string)
    requires Base(fs, hot, specs) && IsPath(hot) && Proper(k)
    ensures Complete(fs, Marker(hot, k)) <==> Marker(hot, k) + [Archive.COMPLETE] in fs
  {
    MarkerNames();
    assert Marker(hot, k) + [Archive.COMPLETE] == Area(hot) + [k, Archive.COMPLETE];
    InArea(fs, hot, specs, [k, Archive.COMPLETE]);
  }

  /** An installed artifact passes hotArtifactExists. */
  lemma InstalledExists(fs: Files, hot: Path, spec: CacheSpec)
    requires Tree(fs) && Fits(hot, spec) && Installed(fs, hot, spec)
    ensures HotArtifactExists(fs, hot, spec)
  {
    var root := Payload(hot, spec);
    if spec.kind == CacheKeys.HUB {
      ResolveEntry(fs, root);
    } else {
      forall f | f in spec.files ensures Repair.FileServed(fs, hot, root + f) {
        FileIsServed(fs, hot, spec, f);
      }
    }
  }

  lemma FileIsServed(fs: Files, hot: Path, spec: CacheSpec, f: Path)
    requires Tree(fs) && Fits(hot, spec) && spec.kind == CacheKeys.FILES
    requires FileInstalled(fs, hot, Payload(hot, spec) + f)
    ensures Repair.FileServed(fs, hot, Payload(hot, spec) + f)
  {
    var p := Payload(hot, spec) + f;
    if fs[p].File? {
      ResolveEntry(fs, p);
      assert hot + [GGUF] <= p;
      EscapeTest(hot + [GGUF], p);
    } else {
      var n :| InStore(fs, hot, n) && fs[p] == Link(LinkTo(p, Archive.HotBlobs(hot) + [n]));
      var b := Archive.HotBlobs(hot) + [n];
      FollowLink(fs, p, b);
      assert hot + [GGUF] <= b;
      EscapeTest(hot + [GGUF], b);
    }
  }

  /** Payload and store unchanged: the artifact stays installed. */
  lemma InstalledKept(fs: Files, next: Files, hot: Path, spec: CacheSpec)
    requires Installed(fs, hot, spec)
    requires forall p :: p in fs && (Payload(hot, spec) <= p || Archive.HotBlobs(hot) <= p) ==>
               p in next && next[p] == fs[p]
    ensures Installed(next, hot, spec)
  {
    var root := Payload(hot, spec);
    if spec.kind != CacheKeys.HUB {
      forall f | f in spec.files ensures FileInstalled(next, hot, root + f) {
        assert FileInstalled(fs, hot, root + f) && root <= root + f;
        if fs[root + f].Link? {
          var n :| InStore(fs, hot, n) && fs[root + f] == Link(LinkTo(root + f, Archive.HotBlobs(hot) + [n]));
          assert Archive.HotBlobs(hot) <= Archive.HotBlobs(hot) + [n];
          assert InStore(next, hot, n);
        }
      }
    }
  }

  /** Payload and store unchanged: the payload stands as it did. */
  lemma StandsKept(fs: Files, next: Files, hot: Path, specs: Specs, k: string)
    requires k in specs.known && Stands(fs, hot, specs, k)
    requires forall p :: p in fs && (Payload(hot, specs.known[k]) <= p || Archive.HotBlobs(hot) <= p) ==>
               p in next && next[p] == fs[p]
    ensures Stands(next, hot, specs, k)
  {
    var spec := specs.known[k];
    var root := Payload(hot, spec);
    if Installed(fs, hot, spec) {
      InstalledKept(fs, next, hot, spec);
    } else {
      forall f | f in spec.files ensures f != [] && IsLinkIn(next, root, f) {
        assert IsLinkIn(fs, root, f) && root <= root + f;
      }
    }
  }

  // ------------------------------------------------------------------ evicting

  lemma StraightFewer(fs: Files, next: Files, p: Path)
    requires Straight(fs, p) && Extends(next, fs)
    ensures Straight(next, p)
  {
    forall i | 0 < i <= |p| && p[..i] in next ensures !next[p[..i]].Link? {
      assert p[..i] in fs;
    }
  }

  lemma BaseWithout(fs: Files, hot: Path, specs: Specs, q: Path)
    requires Base(fs, hot, specs)
    ensures Base(Without(fs, q), hot, specs) && Extends(Without(fs, q), fs)
  {
    RoundTrip.WithoutTree(fs, q);
    StraightFewer(fs, Without(fs, q), Area(hot));
    forall k | k in specs.known ensures StraightAbove(Without(fs, q), Payload(hot, specs.known[k])) {
      StraightFewer(fs, Without(fs, q), Dir(Payload(hot, specs.known[k])));
    }
  }

  /** Removing a tree that is neither the payload nor the store of an artifact leaves its marker sound. */
  lemma SoundWithout(fs: Files, hot: Path, specs: Specs, q: Path, l: string)
    requires MarkerSound(fs, hot, specs, l)
    requires l in specs.known ==> Apart(q, Payload(hot, specs.known[l])) && Apart(q, Archive.HotBlobs(hot))
    ensures MarkerSound(Without(fs, q), hot, specs, l)
  {
    var next := Without(fs, q);
    if Marker(hot, l) + [Archive.COMPLETE] in next {
      forall p | p in fs && (Payload(hot, specs.known[l]) <= p || Archive.HotBlobs(hot) <= p)
        ensures p in next && next[p] == fs[p]
      {
        if Payload(hot, specs.known[l]) <= p {
          ApartBelow(Payload(hot, specs.known[l]), q, p);
        } else {
          ApartBelow(Archive.HotBlobs(hot), q, p);
        }
      }
      StandsKept(fs, next, hot, specs, l);
    }
  }

  /** Without its marker directory a key is sound. */
  lemma SoundUnmarked(fs: Files, hot: Path, specs: Specs, k: string)
    ensures MarkerSound(Without(fs, Marker(hot, k)), hot, specs, k)
    ensures Marker(hot, k) + [Archive.COMPLETE] !in Without(fs, Marker(hot, k))
  {
    assert Marker(hot, k) <= Marker(hot, k) + [Archive.COMPLETE] && Marker(hot, k) <= Marker(hot, k) + [SPEC];
  }

  lemma MarkersApart(hot: Path, k: string, l: string)
    requires k != l
    ensures Apart(Marker(hot, k), Marker(hot, l))
  {
    assert Marker(hot, k)[|hot| + 1] == k && Marker(hot, l)[|hot| + 1] == l;
  }

  /** A marker lies apart from every payload and from the store. */
  lemma MarkerOff(hot: Path, spec: CacheSpec, k: string)
    requires Fits(hot, spec)
    ensures Apart(Marker(hot, k), Payload(hot, spec)) && Apart(Marker(hot, k), Archive.HotBlobs(hot))
  {
    PlacesApart(hot, spec);
    assert Area(hot) <= Marker(hot, k);
    ApartBelow(Area(hot), Payload(hot, spec), Marker(hot, k));
    ApartBelow(Area(hot), Archive.HotBlobs(hot), Marker(hot, k));
  }

  /** A specification that can be read from a marker speaks of the payload of its key. */
  lemma MarkerSpecIs(fs: Files, hot: Path, specs: Specs, k: string)
    requires IsPath(hot) && Inv(fs, hot, specs) && Proper(k) && MarkerSpec(fs, hot, k).Some?
    ensures k in specs.known && Payload(hot, MarkerSpec(fs, hot, k).value) == Payload(hot, specs.known[k])
  {
    MarkerNames();
    assert Marker(hot, k) + [SPEC] == Area(hot) + [k, SPEC];
    InArea(fs, hot, specs, [k, SPEC]);
    assert MarkerSound(fs, hot, specs, k);
  }

  lemma PayloadRemoved(fs: Files, hot: Path, specs: Specs, k: string)
    requires Catalogue(hot, specs) && Base(fs, hot, specs) && k in specs.known
    ensures RemoveAll(fs, Payload(hot, specs.known[k])) == Without(fs, Payload(hot, specs.known[k]))
  {
    assert StraightAbove(fs, Payload(hot, specs.known[k]));
    RemoveAllStraight(fs, Payload(hot, specs.known[k]));
  }

  /** What evict removes besides the marker: nothing, or the payload of this key. */
  lemma EvictIs(fs: Files, hot: Path, specs: Specs, k: string)
    requires Catalogue(hot, specs) && Inv(fs, hot, specs) && Proper(k)
    ensures || Evict(fs, hot, k) == Without(fs, Marker(hot, k))
            || (k in specs.known
                && Evict(fs, hot, k) == Without(Without(fs, Payload(hot, specs.known[k])), Marker(hot, k)))
  {
    MarkerRemoved(fs, hot, specs, k);
    if MarkerSpec(fs, hot, k).Some? {
      MarkerSpecIs(fs, hot, specs, k);
      PayloadRemoved(fs, hot, specs, k);
      BaseWithout(fs, hot, specs, Payload(hot, specs.known[k]));
      MarkerRemoved(Without(fs, Payload(hot, specs.known[k])), hot, specs, k);
    }
  }

  lemma MarkerRemoved(fs: Files, hot: Path, specs: Specs, k: string)
    requires Base(fs, hot, specs) && IsPath(hot) && Proper(k)
    ensures RemoveAll(fs, Marker(hot, k)) == Without(fs, Marker(hot, k))
  {
    assert Marker(hot, k) == Area(hot) + [k];
    InArea(fs, hot, specs, [k]);
    StraightDir(fs, Marker(hot, k));
    RemoveAllStraight(fs, Marker(hot, k));
  }

  /** Removing the payload of one key and a marker leaves every other artifact installed. */
  lemma InstalledBeside(fs: Files, hot: Path, specs: Specs, k: string, l: string)
    requires Catalogue(hot, specs) && Inv(fs, hot, specs) && Proper(k) && l in specs.known && l != k
    ensures Installed(fs, hot, specs.known[l]) ==> Installed(Evict(fs, hot, k), hot, specs.known[l])
  {
    var q, h := Payload(hot, specs.known[l]), Archive.HotBlobs(hot);
    EvictIs(fs, hot, specs, k);
    MarkerOff(hot, specs.known[l], k);
    if k in specs.known {
      PlacesApart(hot, specs.known[k]);
    }
    if Installed(fs, hot, specs.known[l]) {
      forall p | p in fs && (q <= p || h <= p) ensures p in Evict(fs, hot, k) && Evict(fs, hot, k)[p] == fs[p] {
        var x := if q <= p then q else h;
        ApartBelow(x, Marker(hot, k), p);
        if k in specs.known {
          ApartBelow(x, Payload(hot, specs.known[k]), p);
        }
      }
      InstalledKept(fs, Evict(fs, hot, k), hot, specs.known[l]);
    }
  }

  /** Evicting keeps the invariant, removes the marker, and keeps every other complete marker. */
  lemma EvictKeeps(fs: Files, hot: Path, specs: Specs, k: string)
    requires Catalogue(hot, specs) && Inv(fs, hot, specs) && Proper(k)
    ensures Inv(Evict(fs, hot, k), hot, specs)
    ensures Marker(hot, k) + [Archive.COMPLETE] !in Evict(fs, hot, k)
    ensures forall l :: l != k && Marker(hot, l) + [Archive.COMPLETE] in fs ==>
              Marker(hot, l) + [Archive.COMPLETE] in Evict(fs, hot, k)
  {
    EvictIs(fs, hot, specs, k);
    if Evict(fs, hot, k) == Without(fs, Marker(hot, k)) {
      DropMarker(fs, hot, specs, k);
    } else {
      DropPayload(fs, hot, specs, k);
    }
  }

  ghost predicate SoundBut(fs: Files, hot: Path, specs: Specs, k: string) {
    Base(fs, hot, specs) && forall l :: l != k ==> MarkerSound(fs, hot, specs, l)
  }

  lemma DropMarker(fs: Files, hot: Path, specs: Specs, k: string)
    requires Catalogue(hot, specs) && SoundBut(fs, hot, specs, k)
    ensures var next := Without(fs, Marker(hot, k));
            && Inv(next, hot, specs) && Marker(hot, k) + [Archive.COMPLETE] !in next
            && forall l :: l != k && Marker(hot, l) + [Archive.COMPLETE] in fs ==>
                  Marker(hot, l) + [Archive.COMPLETE] in next
  {
    var next := Without(fs, Marker(hot, k));
    BaseWithout(fs, hot, specs, Marker(hot, k));
    SoundUnmarked(fs, hot, specs, k);
    forall l ensures MarkerSound(next, hot, specs, l) {
      if l != k {
        if l in specs.known {
          MarkerOff(hot, specs.known[l], k);
        }
        SoundWithout(fs, hot, specs, Marker(hot, k), l);
      }
    }
    forall l | l != k && Marker(hot, l) + [Archive.COMPLETE] in fs ensures Marker(hot, l) + [Archive.COMPLETE] in next {
      MarkersApart(hot, l, k);
      ApartBelow(Marker(hot, l), Marker(hot, k), Marker(hot, l) + [Archive.COMPLETE]);
    }
  }

  lemma DropPayload(fs: Files, hot: Path, specs: Specs, k: string)
    requires Catalogue(hot, specs) && Inv(fs, hot, specs) && k in specs.known
    ensures var next := Without(Without(fs, Payload(hot, specs.known[k])), Marker(hot, k));
            && Inv(next, hot, specs) && Marker(hot, k) + [Archive.COMPLETE] !in next
            && forall l :: l != k && Marker(hot, l) + [Archive.COMPLETE] in fs ==>
                  Marker(hot, l) + [Archive.COMPLETE] in next
  {
    var q := Payload(hot, specs.known[k]);
    var mid := Without(fs, q);
    BaseWithout(fs, hot, specs, q);
    PlacesApart(hot, specs.known[k]);
    forall l | l != k ensures MarkerSound(mid, hot, specs, l) {
      assert MarkerSound(fs, hot, specs, l);
      SoundWithout(fs, hot, specs, q, l);
    }
    DropMarker(mid, hot, specs, k);
    forall l | Marker(hot, l) + [Archive.COMPLETE] in fs ensures Marker(hot, l) + [Archive.COMPLETE] in mid {
      assert Area(hot) <= Marker(hot, l) + [Archive.COMPLETE];
      ApartBelow(Area(hot), q, Marker(hot, l) + [Archive.COMPLETE]);
    }
  }

  // ------------------------------------------------------------------ filling a payload

  /**
   * What clearing and filling the payload of an artifact may do, whether it succeeds or not: below the
   * payload anything; elsewhere only directories on the way and entries of the blob store are new, and
   * nothing is lost.  Success installs the artifact.
   */
  ghost predicate Populates(fs: Files, o: Outcome, hot: Path, spec: CacheSpec) {
    && Tree(o.fs)
    && (forall p :: p in fs && !(Payload(hot, spec) <= p) ==> p in o.fs && o.fs[p] == fs[p])
    && (forall p :: p in o.fs && p !in fs ==> NewPath(o.fs, hot, spec, p))
    && (o.ok ==> Installed(o.fs, hot, spec))
  }

  predicate NewPath(fs: Files, hot: Path, spec: CacheSpec, p: Path)
    requires p in fs
  {
    || Payload(hot, spec) <= p
    || (fs[p].Folder? && (p <= Payload(hot, spec) || p <= Archive.HotBlobs(hot)))
    || Archive.HotBlobs(hot) <= p
  }

  lemma NewOffArea(fs: Files, hot: Path, spec: CacheSpec, p: Path)
    requires Fits(hot, spec) && p in fs && NewPath(fs, hot, spec, p)
    ensures !(Area(hot) <= p)
  {
    PlacesApart(hot, spec);
    if Area(hot) <= p {
      ApartBelow(Area(hot), Payload(hot, spec), p);
      ApartBelow(Area(hot), Archive.HotBlobs(hot), p);
    }
  }

  /** New entries put no link on the way to a place apart from the payload and the store. */
  lemma StraightMore(fs: Files, o: Outcome, hot: Path, spec: CacheSpec, d: Path)
    requires Populates(fs, o, hot, spec) && Straight(fs, d)
    requires !(Payload(hot, spec) <= d) && !(Archive.HotBlobs(hot) <= d)
    ensures Straight(o.fs, d)
  {
    forall i | 0 < i <= |d| && d[..i] in o.fs ensures !o.fs[d[..i]].Link? {
      var p := d[..i];
      assert p <= d;
      if Payload(hot, spec) <= p {
        PrefixTrans(Payload(hot, spec), p, d);
      } else if Archive.HotBlobs(hot) <= p {
        PrefixTrans(Archive.HotBlobs(hot), p, d);
      } else if p !in fs {
        assert NewPath(o.fs, hot, spec, p);
      }
    }
  }

  /** The parent of a place lies below another place only if the place does. */
  lemma NotAbove(a: Path, p: Path)
    requires p != [] && !(a <= p)
    ensures !(a <= Dir(p))
  {
    PrefixOfDir(a, p);
  }

  lemma BasePopulated(fs: Files, o: Outcome, hot: Path, specs: Specs, k: string)
    requires Catalogue(hot, specs) && Base(fs, hot, specs) && k in specs.known && Populates(fs, o, hot, specs.known[k])
    ensures Base(o.fs, hot, specs)
  {
    var P, H := Payload(hot, specs.known[k]), Archive.HotBlobs(hot);
    PlacesApart(hot, specs.known[k]);
    StraightMore(fs, o, hot, specs.known[k], Area(hot));
    forall p | p in o.fs && Area(hot) <= p ensures !o.fs[p].Link? {
      ApartBelow(Area(hot), P, p);
      if p !in fs {
        NewOffArea(o.fs, hot, specs.known[k], p);
      }
    }
    forall l | l in specs.known ensures StraightAbove(o.fs, Payload(hot, specs.known[l])) {
      var q := Payload(hot, specs.known[l]);
      assert StraightAbove(fs, q);
      PlacesApart(hot, specs.known[l]);
      NotAbove(H, q);
      if l == k {
        assert !(P <= Dir(P));
      } else {
        NotAbove(P, q);
      }
      StraightMore(fs, o, hot, specs.known[k], Dir(q));
    }
  }

  /** Markers are not touched by filling a payload. */
  lemma MarkersPopulated(fs: Files, o: Outcome, hot: Path, spec: CacheSpec, p: Path)
    requires Fits(hot, spec) && Populates(fs, o, hot, spec) && Area(hot) <= p
    ensures p in o.fs <==> p in fs
    ensures p in fs ==> o.fs[p] == fs[p]
  {
    PlacesApart(hot, spec);
    ApartBelow(Area(hot), Payload(hot, spec), p);
    if p in o.fs && p !in fs {
      NewOffArea(o.fs, hot, spec, p);
    }
  }

  /** Filling the payload of an artifact that has no complete marker keeps the invariant. */
  lemma PopulateKeeps(fs: Files, o: Outcome, hot: Path, specs: Specs, k: string)
    requires Catalogue(hot, specs) && Inv(fs, hot, specs) && k in specs.known && Populates(fs, o, hot, specs.known[k])
    requires Marker(hot, k) + [Archive.COMPLETE] !in fs
    ensures Inv(o.fs, hot, specs)
    ensures forall l :: Marker(hot, l) + [Archive.COMPLETE] in fs <==> Marker(hot, l) + [Archive.COMPLETE] in o.fs
  {
    BasePopulated(fs, o, hot, specs, k);
    forall l
      ensures MarkerSound(o.fs, hot, specs, l)
      ensures Marker(hot, l) + [Archive.COMPLETE] in fs <==> Marker(hot, l) + [Archive.COMPLETE] in o.fs
    {
      SoundPopulated(fs, o, hot, specs, k, l);
    }
  }

  lemma SoundPopulated(fs: Files, o: Outcome, hot: Path, specs: Specs, k: string, l: string)
    requires Catalogue(hot, specs) && Inv(fs, hot, specs) && k in specs.known && Populates(fs, o, hot, specs.known[k])
    requires Marker(hot, k) + [Archive.COMPLETE] !in fs
    ensures MarkerSound(o.fs, hot, specs, l)
    ensures Marker(hot, l) + [Archive.COMPLETE] in fs <==> Marker(hot, l) + [Archive.COMPLETE] in o.fs
  {
    assert MarkerSound(fs, hot, specs, l);
    assert Area(hot) <= Marker(hot, l) + [Archive.COMPLETE] && Area(hot) <= Marker(hot, l) + [SPEC];
    MarkersPopulated(fs, o, hot, specs.known[k], Marker(hot, l) + [Archive.COMPLETE]);
    MarkersPopulated(fs, o, hot, specs.known[k], Marker(hot, l) + [SPEC]);
    if Marker(hot, l) + [Archive.COMPLETE] in fs {
      PlacesApart(hot, specs.known[k]);
      forall p | p in fs && (Payload(hot, specs.known[l]) <= p || Archive.HotBlobs(hot) <= p)
        ensures p in o.fs && o.fs[p] == fs[p]
      {
        if Payload(hot, specs.known[l]) <= p {
          ApartBelow(Payload(hot, specs.known[l]), Payload(hot, specs.known[k]), p);
        } else {
          ApartBelow(Archive.HotBlobs(hot), Payload(hot, specs.known[k]), p);
        }
      }
      StandsKept(fs, o.fs, hot, specs, l);
    }
  }

  // ------------------------------------------------------------------ marking

  /** What writing a marker may do: directories on the way, the completion mark and the specification. */
  ghost predicate MarkOf(fs: Files, next: Files, hot: Path, spec: CacheSpec) {
    && Tree(next) && (forall p :: p in fs ==> p in next)
    && forall p :: p in next ==> (p in fs && next[p] == fs[p]) || MarkPath(next, hot, spec, p)
  }

  predicate MarkPath(fs: Files, hot: Path, spec: CacheSpec, p: Path)
    requires p in fs
  {
    var dir := Marker(hot, KeyOf(spec));
    || (p <= dir && fs[p].Folder?)
    || (p == dir + [Archive.COMPLETE] && fs[p] == File(Stamp))
    || (p == dir + [SPEC] && fs[p] == File(SpecJson(spec)))
  }

  /** Directories on the way to `p` are all that is new. */
  predicate MadeOn(fs: Files, next: Files, p: Path) {
    Tree(next) && Extends(fs, next) && forall q :: q in next && q !in fs ==> q <= p && next[q].Folder?
  }

  lemma StraightMade(fs: Files, next: Files, p: Path, r: Path)
    requires Straight(fs, r) && MadeOn(fs, next, p)
    ensures Straight(next, r)
  {
    forall i | 0 < i <= |r| && r[..i] in next ensures !next[r[..i]].Link? {
      assert r[..i] in fs || next[r[..i]].Folder?;
    }
  }

  lemma MadeLonger(fs: Files, next: Files, p: Path)
    requires p != [] && MadeOn(fs, next, Dir(p))
    ensures MadeOn(fs, next, p)
  {
    forall q | q in next && q !in fs ensures q <= p {
      PrefixOfDir(q, p);
    }
  }

  lemma MadeChild(fs: Files, next: Files, p: Path)
    requires p != [] && IsPath(p) && MadeOn(fs, next, p) && p !in next && IsFolder(next, Dir(p))
    ensures MadeOn(fs, next[p := Folder], p)
  {
    RoundTrip.ChildAdded(next, p, Folder);
  }

  /** os.MkdirAll on a path without links makes directories on that path and nothing else. */
  lemma {:induction false} MkdirStraight(fs: Files, p: Path)
    requires Tree(fs) && IsPath(p) && Straight(fs, p)
    ensures var o := MkdirAll(fs, p);
            MadeOn(fs, o.fs, p) && (o.ok ==> IsFolder(o.fs, p))
    decreases |p|
  {
    if p == [] {
    } else {
      ResolveStraight(fs, p);
      if p !in fs {
        var d := Dir(p);
        assert forall c :: c in d ==> c in p;
        StraightDir(fs, p);
        MkdirStraight(fs, d);
        var next := MkdirAll(fs, d).fs;
        StraightMade(fs, next, d, d);
        MadeLonger(fs, next, p);
        PlaceStraight(next, p);
        if IsFolder(next, d) && p !in next {
          MadeChild(fs, next, p);
        }
      }
    }
  }

  lemma WriteStraight(fs: Files, p: Path, data: Content)
    requires Tree(fs) && IsPath(p) && p != [] && Straight(fs, p)
    ensures var o := Write(fs, p, data);
            && Tree(o.fs) && (o.fs == fs || (o.fs == fs[p := File(data)] && (p in fs ==> fs[p].File?)))
            && (o.ok ==> p in o.fs && o.fs[p] == File(data))
  {
    ResolveStraight(fs, p);
    StraightDir(fs, p);
    PlaceStraight(fs, p);
    var o := Write(fs, p, data);
    forall q | q in o.fs ensures q != [] && IsPath(q) && IsFolder(o.fs, Dir(q)) {
      if q != p {
        assert q in fs && IsFolder(fs, Dir(q));
      }
    }
  }

  lemma MarkOfMade(fs: Files, next: Files, hot: Path, spec: CacheSpec)
    requires MadeOn(fs, next, Marker(hot, KeyOf(spec)))
    ensures MarkOf(fs, next, hot, spec)
  {
  }

  lemma MarkOfWritten(fs: Files, mid: Files, next: Files, hot: Path, spec: CacheSpec, p: Path, data: Content)
    requires MarkOf(fs, mid, hot, spec) && Tree(next) && (next == mid || next == mid[p := File(data)])
    requires || (p == Marker(hot, KeyOf(spec)) + [Archive.COMPLETE] && data == Stamp)
             || (p == Marker(hot, KeyOf(spec)) + [SPEC] && data == SpecJson(spec))
    ensures MarkOf(fs, next, hot, spec)
  {
    forall q | q in next ensures (q in fs && next[q] == fs[q]) || MarkPath(next, hot, spec, q) {
      if q != p {
        assert q in mid && next[q] == mid[q];
      }
    }
  }

  /** Below a key's marker nothing has become a link. */
  lemma MarkStraight(fs: Files, next: Files, hot: Path, spec: CacheSpec, r: Path)
    requires MarkOf(fs, next, hot, spec) && Straight(fs, r)
    ensures Straight(next, r)
  {
    forall i | 0 < i <= |r| && r[..i] in next ensures !next[r[..i]].Link? {
      assert (r[..i] in fs && next[r[..i]] == fs[r[..i]]) || MarkPath(next, hot, spec, r[..i]);
    }
  }

  /** Writing a marker does what it may do; after success the key is complete. */
  lemma MarkIs(fs: Files, hot: Path, specs: Specs, spec: CacheSpec)
    requires Base(fs, hot, specs) && IsPath(hot) && Proper(KeyOf(spec))
    ensures MarkOf(fs, Mark(fs, hot, spec).fs, hot, spec)
    ensures Mark(fs, hot, spec).ok ==> Marker(hot, KeyOf(spec)) + [Archive.COMPLETE] in Mark(fs, hot, spec).fs
  {
    MarkerNames();
    var k := KeyOf(spec);
    var dir := Marker(hot, k);
    var c, s := dir + [Archive.COMPLETE], dir + [SPEC];
    assert dir == Area(hot) + [k] && c == Area(hot) + [k, Archive.COMPLETE] && s == Area(hot) + [k, SPEC];
    InArea(fs, hot, specs, [k]);
    InArea(fs, hot, specs, [k, Archive.COMPLETE]);
    InArea(fs, hot, specs, [k, SPEC]);
    MkdirStraight(fs, dir);
    var m := MkdirAll(fs, dir);
    MarkOfMade(fs, m.fs, hot, spec);
    if m.ok {
      MarkStraight(fs, m.fs, hot, spec, c);
      WriteStraight(m.fs, c, Stamp);
      var w := Write(m.fs, c, Stamp);
      MarkOfWritten(fs, m.fs, w.fs, hot, spec, c, Stamp);
      if w.ok {
        MarkStraight(fs, w.fs, hot, spec, s);
        WriteStraight(w.fs, s, SpecJson(spec));
        MarkOfWritten(fs, w.fs, Write(w.fs, s, SpecJson(spec)).fs, hot, spec, s, SpecJson(spec));
      }
    }
  }

  /** The request asks for the catalogued artifact; inventory discovery may have filled in size and files. */
  predicate Asks(spec: CacheSpec, known: CacheSpec) {
    && spec.kind == known.kind && spec.repo == known.repo && spec.revision == known.revision
    && spec.target == known.target
    && (spec.kind == CacheKeys.HUB || spec.files == known.files)
  }

  lemma BaseMarked(fs: Files, next: Files, hot: Path, specs: Specs, spec: CacheSpec)
    requires Base(fs, hot, specs) && MarkOf(fs, next, hot, spec)
    ensures Base(next, hot, specs)
  {
    MarkStraight(fs, next, hot, spec, Area(hot));
    forall p | p in next && Area(hot) <= p ensures !next[p].Link? {
      assert (p in fs && next[p] == fs[p]) || MarkPath(next, hot, spec, p);
    }
    forall l | l in specs.known ensures StraightAbove(next, Payload(hot, specs.known[l])) {
      assert StraightAbove(fs, Payload(hot, specs.known[l]));
      MarkStraight(fs, next, hot, spec, Dir(Payload(hot, specs.known[l])));
    }
  }

  /** Payloads and the store are not touched by writing a marker. */
  lemma MarkedOutside(fs: Files, next: Files, hot: Path, spec: CacheSpec, known: CacheSpec, p: Path)
    requires MarkOf(fs, next, hot, spec) && Fits(hot, known) && p in fs && !(p <= Marker(hot, KeyOf(spec)))
    requires Payload(hot, known) <= p || Archive.HotBlobs(hot) <= p
    ensures p in next && next[p] == fs[p]
  {
    var dir := Marker(hot, KeyOf(spec));
    MarkerOff(hot, known, KeyOf(spec));
    if p == dir + [Archive.COMPLETE] || p == dir + [SPEC] {
      assert dir <= p;
      ApartBelow(dir, Payload(hot, known), p);
      ApartBelow(dir, Archive.HotBlobs(hot), p);
    }
    assert (p in fs && next[p] == fs[p]) || MarkPath(next, hot, spec, p);
  }

  lemma BelowNotAbove(hot: Path, known: CacheSpec, k: string, p: Path)
    requires Fits(hot, known) && (Payload(hot, known) <= p || Archive.HotBlobs(hot) <= p)
    ensures !(p <= Marker(hot, k))
  {
    MarkerOff(hot, known, k);
    if p <= Marker(hot, k) {
      if Payload(hot, known) <= p {
        PrefixTrans(Payload(hot, known), p, Marker(hot, k));
      } else {
        PrefixTrans(Archive.HotBlobs(hot), p, Marker(hot, k));
      }
    }
  }

  /** Payloads and the store are as they were. */
  lemma PayloadMarked(fs: Files, next: Files, hot: Path, spec: CacheSpec, known: CacheSpec)
    requires MarkOf(fs, next, hot, spec) && Fits(hot, known)
    ensures forall p :: p in fs && (Payload(hot, known) <= p || Archive.HotBlobs(hot) <= p) ==>
              p in next && next[p] == fs[p]
  {
    forall p | p in fs && (Payload(hot, known) <= p || Archive.HotBlobs(hot) <= p)
      ensures p in next && next[p] == fs[p]
    {
      BelowNotAbove(hot, known, KeyOf(spec), p);
      MarkedOutside(fs, next, hot, spec, known, p);
    }
  }

  /** The marker files of another key are not touched. */
  lemma OtherMarker(fs: Files, next: Files, hot: Path, spec: CacheSpec, l: string, c: string)
    requires MarkOf(fs, next, hot, spec) && l != KeyOf(spec)
    ensures var p := Marker(hot, l) + [c];
            (p in next <==> p in fs) && (p in fs ==> next[p] == fs[p])
  {
    var p, dir := Marker(hot, l) + [c], Marker(hot, KeyOf(spec));
    MarkersApart(hot, l, KeyOf(spec));
    ApartBelow(Marker(hot, l), dir, p);
    assert dir <= dir + [Archive.COMPLETE] && dir <= dir + [SPEC];
  }

  /** Marking an installed artifact keeps the invariant and every complete marker. */
  lemma MarkKeeps(fs: Files, hot: Path, specs: Specs, spec: CacheSpec)
    requires Catalogue(hot, specs) && Inv(fs, hot, specs) && KeyOf(spec) in specs.known
    requires Asks(spec, specs.known[KeyOf(spec)])
    requires Installed(fs, hot, specs.known[KeyOf(spec)])
    ensures Inv(Mark(fs, hot, spec).fs, hot, specs) && Installed(Mark(fs, hot, spec).fs, hot, specs.known[KeyOf(spec)])
    ensures Mark(fs, hot, spec).ok ==> Marker(hot, KeyOf(spec)) + [Archive.COMPLETE] in Mark(fs, hot, spec).fs
    ensures forall l :: Marker(hot, l) + [Archive.COMPLETE] in fs ==>
              Marker(hot, l) + [Archive.COMPLETE] in Mark(fs, hot, spec).fs
  {
    var k := KeyOf(spec);
    var next := Mark(fs, hot, spec).fs;
    MarkIs(fs, hot, specs, spec);
    BaseMarked(fs, next, hot, specs, spec);
    PayloadMarked(fs, next, hot, spec, specs.known[k]);
    InstalledKept(fs, next, hot, specs.known[k]);
    forall l ensures MarkerSound(next, hot, specs, l) {
      assert MarkerSound(fs, hot, specs, l);
      if l != k {
        OtherMarker(fs, next, hot, spec, l, Archive.COMPLETE);
        OtherMarker(fs, next, hot, spec, l, SPEC);
        if Marker(hot, l) + [Archive.COMPLETE] in next {
          PayloadMarked(fs, next, hot, spec, specs.known[l]);
          StandsKept(fs, next, hot, specs, l);
        }
      } else {
        OwnSpec(fs, next, hot, spec);
      }
    }
  }

  lemma OwnSpec(fs: Files, next: Files, hot: Path, spec: CacheSpec)
    requires MarkOf(fs, next, hot, spec)
    ensures var p := Marker(hot, KeyOf(spec)) + [SPEC];
            p in next ==> (p in fs && next[p] == fs[p]) || next[p].Folder? || next[p] == File(SpecJson(spec))
  {
    var dir := Marker(hot, KeyOf(spec));
    MarkerNames();
    assert (dir + [SPEC])[|dir|] != (dir + [Archive.COMPLETE])[|dir|];
  }

  // ------------------------------------------------------------------ promotion fills a payload

  /** Promoting a complete cold artifact is such a filling, and it succeeds; blob names stay content addresses. */
  lemma PromotePopulates(
      fs: Files, dir: Path, hot: Path, spec: CacheSpec, archived: CacheSpec, store: Store,
      entries: map<Path, Entry>, files: seq<Path>, items: seq<Item>)
    requires RoundTrip.Cold(fs, dir, archived, store, entries, files, items)
    requires RoundTrip.HotReady(fs, hot, spec.target, store)
    requires Apart(hot + spec.target, dir) && PrefixFree(entries) && (forall f :: f in entries ==> Named(f, entries[f]))
    requires spec.kind == CacheKeys.FILES && forall f :: f in spec.files ==> f in entries
    ensures var o := RoundTrip.Promote(fs, dir, hot, spec.target, items);
            var plan := Archive.HotPlan(hot, spec.target, store);
            o.ok && Populates(fs, o, hot, spec) && StoreAgrees(o.fs, plan) && Clear(o.fs, plan.blobs)
  {
    RoundTrip.PromoteWorks(fs, dir, hot, spec.target, archived, store, entries, files, items);
    var o := RoundTrip.Promote(fs, dir, hot, spec.target, items);
    KindsAreTwo();
    forall p | p in o.fs && p !in fs ensures NewPath(o.fs, hot, spec, p) {
      StagedNew(fs, o.fs, hot, spec, store, entries, p);
    }
    StagedInstalled(o.fs, hot, spec, store, entries);
  }

  lemma StagedNew(fs: Files, next: Files, hot: Path, spec: CacheSpec, store: Store, entries: map<Path, Entry>, p: Path)
    requires Stage(next, Archive.HotPlan(hot, spec.target, store), entries) && spec.kind != CacheKeys.HUB
    requires AddsOnly(Without(fs, hot + spec.target), next, Archive.HotPlan(hot, spec.target, store))
    requires p in next && p !in fs
    ensures NewPath(next, hot, spec, p)
  {
    var plan := Archive.HotPlan(hot, spec.target, store);
    assert p !in Without(fs, plan.root);
    assert Comparable(p, plan.root) || Comparable(p, plan.blobs);
    if p <= plan.root {
      ClearAt(next, plan.root, p);
    } else if p <= plan.blobs {
      ClearAt(next, plan.blobs, p);
    }
  }

  lemma StagedInstalled(next: Files, hot: Path, spec: CacheSpec, store: Store, entries: map<Path, Entry>)
    requires Stage(next, Archive.HotPlan(hot, spec.target, store), entries) && spec.kind != CacheKeys.HUB
    requires forall f :: f in spec.files ==> f in entries
    ensures Installed(next, hot, spec)
  {
    var plan := Archive.HotPlan(hot, spec.target, store);
    forall f | f in spec.files ensures FileInstalled(next, hot, plan.root + f) {
      assert LaidAt(next, plan.root, plan.blobs, store, f, entries[f]);
      if entries[f].Blob? {
        assert InStore(next, hot, entries[f].name);
      }
    }
  }

  // ------------------------------------------------------------------ one marker for several requests

  /**
   * The key does not depend on the requested files: with a complete marker, a request for other files of
   * the same revision is reported hot although none of them is there.
   */
  lemma SharedKeyReportsHot(fs: Files, hot: Path, cold: Path, spec: CacheSpec, other: CacheSpec)
    requires other == spec.(files := other.files) && spec.kind == CacheKeys.FILES
    requires Complete(fs, Marker(hot, KeyOf(spec))) && other.files != []
    requires Stat(fs, Payload(hot, other) + other.files[0]).None?
    ensures CacheResult(fs, hot, cold, other) == Hot && !HotArtifactExists(fs, hot, other)
  {
    assert other.files[0] in other.files;
    assert !Repair.FileServed(fs, hot, Payload(hot, other) + other.files[0]);
    KindsAreTwo();
  }

  lemma KindsAreTwo()
    ensures CacheKeys.HUB != CacheKeys.FILES
  {
    assert |CacheKeys.HUB| == 15 && |CacheKeys.FILES| == 17;
  }
}
