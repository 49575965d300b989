/**
 * Repair as one operation of the cache: on sound storage it can be attempted for every complete marker whose files
 * are not all served, keeps everything sound however it ends, and installs the artifact when it succeeds.
 */
module Revival {
  import opened Prelude
  import opened Paths
  import opened FileSystem
  import opened Layout
  import opened Archive
  import opened Repair
  import Cache
  import CacheKeys
  import ColdStore
  import RoundTrip

  // ------------------------------------------------------------------ what a repair changes, however it ends

  /** Some of the requested links have been redirected, and nothing else has changed. */
  predicate Partly(orig: Files, fs: Files, hot: Path, touched: set<Path>) {
    RelinkOf(orig, fs, hot) && forall p :: p in orig && p !in touched ==> fs[p] == orig[p]
  }

  lemma {:induction false} RelinkPartly(
      orig: Files, fs: Files, hot: Path, root: Path, files: seq<Path>, touched: set<Path>)
    requires Tree(orig) && IsFolder(orig, HotBlobs(hot)) && RealParents(orig, root, files)
    requires Partly(orig, fs, hot, touched) && Requested(root, files) <= touched
    ensures Partly(orig, RelinkFiles(fs, hot, root, files).fs, hot, touched)
    decreases |files|
  {
    if files != [] {
      var p := root + files[0];
      var o := RelinkFile(fs, hot, p);
      ParentsOfRest(orig, root, files);
      RequestedStep(root, files);
      if o.ok {
        RelinkStep(orig, fs, hot, p);
        RelinkPartly(orig, o.fs, hot, root, files[1..], touched);
      }
    }
  }

  /** A relocation that fails has made gguf at most. */
  lemma RelocateFails(fs: Files, hot: Path)
    requires RepairReady(fs, hot) && !Relocate(fs, hot).ok
    ensures HotBlobs(hot) !in fs && LegacyBlobs(hot) !in fs && Relocate(fs, hot).fs == WithFolders(fs, hot + [GGUF])
  {
    if HasStore(fs, hot) {
      RelocateWorks(fs, hot);
    }
    NoStore(fs, hot);
    GgufMade(fs, hot);
    var made := WithFolders(fs, hot + [GGUF]);
    assert LegacyBlobs(hot) <= LegacyBlobs(hot);
    PlaceOfReal(made, LegacyBlobs(hot));
  }

  /** What an entry of the file system after a repair may be. */
  predicate Revised(fs: Files, next: Files, hot: Path, touched: set<Path>, p: Path)
    requires p in next
  {
    || (p in fs && next[p] == fs[p])
    || p in touched
    || (p == hot + [GGUF] && next[p].Folder?)
    || (HotBlobs(hot) !in fs
        && (p == LegacyBlobs(hot) || (HotBlobs(hot) <= p && (p == HotBlobs(hot) ==> next[p].Folder?))))
  }

  lemma FolderMade(fs: Files, hot: Path, touched: set<Path>)
    requires RepairReady(fs, hot) && HotBlobs(hot) !in fs
    ensures var made := WithFolders(fs, hot + [GGUF]);
            Tree(made) && Extends(fs, made) && forall p :: p in made ==> Revised(fs, made, hot, touched, p)
  {
    var made := WithFolders(fs, hot + [GGUF]);
    GgufMade(fs, hot);
    forall p | p in made ensures Revised(fs, made, hot, touched, p) {
      WithFoldersIs(fs, hot + [GGUF], p);
      if p !in fs {
        BelowHot(fs, hot, p);
      }
    }
  }

  /** The only directory on the way to gguf that can be missing is gguf. */
  lemma BelowHot(fs: Files, hot: Path, p: Path)
    requires Tree(fs) && IsFolder(fs, hot) && p != [] && p <= hot + [GGUF] && p !in fs
    ensures p == hot + [GGUF]
  {
    var g := hot + [GGUF];
    if |p| <= |hot| {
      assert p == g[..|p|] == hot[..|p|];
      assert hot[..|hot|] == hot;
      if |p| < |hot| {
        AncestorIsFolder(fs, hot, |p|);
      }
    } else {
      assert g[..|g|] == g;
    }
  }

  lemma SettledRevised(fs: Files, hot: Path, touched: set<Path>, p: Path)
    requires RepairReady(fs, hot) && HasStore(fs, hot) && p in Settled(fs, hot)
    ensures Revised(fs, Settled(fs, hot), hot, touched, p)
  {
    if HotBlobs(hot) !in fs {
      var made := WithFolders(fs, hot + [GGUF]);
      FolderMade(fs, hot, touched);
      StoreNames(hot);
      if p == HotBlobs(hot) {
        RelocatedStore(fs, hot);
      } else if p != LegacyBlobs(hot) && !(HotBlobs(hot) <= p) {
        RoundTrip.MovedOutside(made, LegacyBlobs(hot), HotBlobs(hot), p);
        assert Revised(fs, made, hot, touched, p);
      }
    }
  }

  /** What a repair leaves, whether it succeeds or not. */
  ghost predicate Outcomes(fs: Files, next: Files, hot: Path, touched: set<Path>) {
    && Tree(next) && (forall p :: p in next ==> Revised(fs, next, hot, touched, p))
    && (forall p :: p in fs && !(LegacyBlobs(hot) <= p) && p !in touched ==> p in next && next[p] == fs[p])
    && (forall p :: p in fs && p in touched && !(LegacyBlobs(hot) <= p) && fs[p].Link? ==> p in next && next[p].Link?)
    && (HotBlobs(hot) in next || (HotBlobs(hot) !in fs && LegacyBlobs(hot) !in next))
    && (HotBlobs(hot) !in fs ==> forall n :: HotBlobs(hot) + [n] in next ==>
          LegacyBlobs(hot) + [n] in fs && (HotBlobs(hot) + [n] !in touched ==>
                                             next[HotBlobs(hot) + [n]] == fs[LegacyBlobs(hot) + [n]]))
  }

  lemma PartlyRevised(fs: Files, next: Files, hot: Path, touched: set<Path>)
    requires RepairReady(fs, hot) && HasStore(fs, hot) && Partly(Settled(fs, hot), next, hot, touched)
    requires Tree(Settled(fs, hot)) && IsFolder(Settled(fs, hot), HotBlobs(hot))
    ensures Outcomes(fs, next, hot, touched)
  {
    var moved := Settled(fs, hot);
    RelinkKeepsTree(moved, next, hot);
    forall p | p in next ensures Revised(fs, next, hot, touched, p) {
      SettledRevised(fs, hot, touched, p);
    }
    forall p | p in fs && !(LegacyBlobs(hot) <= p) ensures p in moved && moved[p] == fs[p] {
      EntryKept(fs, hot, p);
    }
    if HotBlobs(hot) !in fs {
      forall n | HotBlobs(hot) + [n] in next
        ensures LegacyBlobs(hot) + [n] in fs && moved[HotBlobs(hot) + [n]] == fs[LegacyBlobs(hot) + [n]]
      {
        RelocatedFrom(fs, hot, n);
        RelocatedInside(fs, hot, [n]);
      }
    }
  }

  lemma RepairOutcomes(fs: Files, hot: Path, spec: CacheSpec)
    requires Repairable(fs, hot, spec) && spec.kind == CacheKeys.FILES
    ensures Outcomes(fs, RepairHot(fs, hot, spec).fs, hot, Requested(hot + spec.target, spec.files))
  {
    var touched := Requested(hot + spec.target, spec.files);
    if !Relocate(fs, hot).ok {
      RelocateFails(fs, hot);
      NothingMoved(fs, hot, touched);
    } else {
      SettledOutcomes(fs, hot, spec, touched);
    }
  }

  lemma SettledOutcomes(fs: Files, hot: Path, spec: CacheSpec, touched: set<Path>)
    requires Repairable(fs, hot, spec) && spec.kind == CacheKeys.FILES && Relocate(fs, hot).ok
    requires touched == Requested(hot + spec.target, spec.files)
    ensures Outcomes(fs, RepairHot(fs, hot, spec).fs, hot, touched)
  {
    RelocateIs(fs, hot);
    if HotBlobs(hot) !in fs {
      RelocatedStore(fs, hot);
    }
    ParentsKept(fs, hot, spec);
    var moved := Settled(fs, hot);
    RelinkPartly(moved, moved, hot, hot + spec.target, spec.files, touched);
    PartlyRevised(fs, RepairHot(fs, hot, spec).fs, hot, touched);
  }

  lemma NothingMoved(fs: Files, hot: Path, touched: set<Path>)
    requires RepairReady(fs, hot) && HotBlobs(hot) !in fs && LegacyBlobs(hot) !in fs
    ensures Outcomes(fs, WithFolders(fs, hot + [GGUF]), hot, touched)
  {
    var made := WithFolders(fs, hot + [GGUF]);
    FolderMade(fs, hot, touched);
    GgufMade(fs, hot);
    assert LegacyBlobs(hot) <= LegacyBlobs(hot);
    forall n ensures HotBlobs(hot) + [n] !in made {
      assert HotBlobs(hot) <= HotBlobs(hot) + [n];
      RoundTrip.AbsentBelow(made, HotBlobs(hot), HotBlobs(hot) + [n]);
    }
  }

  // ------------------------------------------------------------------ on sound storage

  /** Requested places lie strictly below their payload. */
  lemma TouchedBelow(hot: Path, spec: CacheSpec, p: Path)
    requires p in Requested(hot + spec.target, spec.files) && [] !in spec.files
    ensures hot + spec.target < p
  {
    var f :| f in spec.files && p == hot + spec.target + f;
    assert f != [];
  }

  /** A file artifact of the catalogue, and where it lies. */
  lemma KnownFile(site: ColdStore.Site, spec: CacheSpec)
    requires ColdStore.Planned(site) && ColdStore.Known(site, spec) && spec.kind == CacheKeys.FILES
    ensures ColdStore.FileKey(site, Cache.KeyOf(spec)) && Cache.Fits(site.hot, spec) && [] !in spec.files
    ensures Cache.Payload(site.hot, spec) == site.hot + spec.target && BelowGguf(spec.target)
    ensures Cache.Payload(site.hot, site.specs.known[Cache.KeyOf(spec)]) == site.hot + spec.target
  {
    ColdStore.KnownFits(site, spec);
    Cache.KindsAreTwo();
    assert ColdStore.FileKey(site, Cache.KeyOf(spec));
  }

  /** Markers and the new store are neither requested nor part of the legacy store. */
  lemma OffRequest(site: ColdStore.Site, spec: CacheSpec, p: Path)
    requires ColdStore.Planned(site) && ColdStore.Known(site, spec) && spec.kind == CacheKeys.FILES
    requires HotBlobs(site.hot) <= p || Cache.Area(site.hot) <= p
    ensures !(LegacyBlobs(site.hot) <= p) && p !in Requested(site.hot + spec.target, spec.files)
  {
    var hot := site.hot;
    KnownFile(site, spec);
    ColdStore.LegacyApart(hot, spec);
    Cache.PlacesApart(hot, spec);
    var x := if HotBlobs(hot) <= p then HotBlobs(hot) else Cache.Area(hot);
    ApartBelow(x, LegacyBlobs(hot), p);
    ApartBelow(x, hot + spec.target, p);
    if p in Requested(hot + spec.target, spec.files) {
      TouchedBelow(hot, spec, p);
    }
  }

  /** Neither are the payloads of other artifacts. */
  lemma OffOthers(site: ColdStore.Site, spec: CacheSpec, l: string, p: Path)
    requires ColdStore.Planned(site) && ColdStore.Known(site, spec) && spec.kind == CacheKeys.FILES
    requires l in site.specs.known && Cache.Payload(site.hot, site.specs.known[l]) <= p
    ensures !(LegacyBlobs(site.hot) <= p)
    ensures l != Cache.KeyOf(spec) ==> p !in Requested(site.hot + spec.target, spec.files)
  {
    var hot, q := site.hot, Cache.Payload(site.hot, site.specs.known[l]);
    KnownFile(site, spec);
    ColdStore.LegacyApart(hot, site.specs.known[l]);
    ApartBelow(q, LegacyBlobs(hot), p);
    if l != Cache.KeyOf(spec) {
      ApartBelow(q, hot + spec.target, p);
      if p in Requested(hot + spec.target, spec.files) {
        TouchedBelow(hot, spec, p);
      }
    }
  }

  /** Not a requested place, not the old name, and not inside the new store. */
  predicate Free(hot: Path, touched: set<Path>, p: Path) {
    p !in touched && p != LegacyBlobs(hot) && !(HotBlobs(hot) < p)
  }

  ghost predicate FreeWay(hot: Path, touched: set<Path>, x: Path) {
    forall p :: p <= x ==> Free(hot, touched, p)
  }

  /** A way that passes no requested place, no store and not the old name stays clear. */
  lemma WayRevised(fs: Files, next: Files, hot: Path, touched: set<Path>, x: Path)
    requires Outcomes(fs, next, hot, touched) && FreeWay(hot, touched, x)
    ensures Cache.Straight(fs, x) ==> Cache.Straight(next, x)
    ensures Clear(fs, x) ==> Clear(next, x)
  {
    forall i | 0 < i <= |x| && x[..i] in next
      ensures (x[..i] in fs && next[x[..i]] == fs[x[..i]]) || next[x[..i]].Folder?
    {
      var p := x[..i];
      assert p <= x && Free(hot, touched, p) && Revised(fs, next, hot, touched, p);
      if HotBlobs(hot) <= p {
        assert p == HotBlobs(hot);
      }
    }
  }

  /** The directory a payload stands in is reached by such a way; so are the markers and the new store. */
  lemma WaysPass(site: ColdStore.Site, spec: CacheSpec, x: Path)
    requires ColdStore.Planned(site) && ColdStore.Known(site, spec) && spec.kind == CacheKeys.FILES
    requires || x == Cache.Area(site.hot) || x == HotBlobs(site.hot)
             || exists l :: l in site.specs.known && x == ColdStore.Parent(site, l)
    ensures FreeWay(site.hot, Requested(site.hot + spec.target, spec.files), x)
  {
    forall p | p <= x ensures Free(site.hot, Requested(site.hot + spec.target, spec.files), p) {
      if x == Cache.Area(site.hot) || x == HotBlobs(site.hot) {
        FixedWay(site, spec, x, p);
      } else {
        var l :| l in site.specs.known && x == ColdStore.Parent(site, l);
        PayloadWay(site, spec, l, p);
      }
    }
  }

  lemma FixedWay(site: ColdStore.Site, spec: CacheSpec, x: Path, p: Path)
    requires ColdStore.Planned(site) && ColdStore.Known(site, spec) && spec.kind == CacheKeys.FILES
    requires (x == Cache.Area(site.hot) || x == HotBlobs(site.hot)) && p <= x
    ensures Free(site.hot, Requested(site.hot + spec.target, spec.files), p)
  {
    var hot := site.hot;
    KnownFile(site, spec);
    ColdStore.LegacyApart(hot, spec);
    Cache.PlacesApart(hot, spec);
    if p in Requested(hot + spec.target, spec.files) {
      TouchedBelow(hot, spec, p);
      PrefixTrans(hot + spec.target, p, x);
    }
    if HotBlobs(hot) < p {
      PrefixTrans(HotBlobs(hot), p, x);
    }
  }

  lemma PayloadWay(site: ColdStore.Site, spec: CacheSpec, l: string, p: Path)
    requires ColdStore.Planned(site) && ColdStore.Known(site, spec) && spec.kind == CacheKeys.FILES
    requires l in site.specs.known && p <= ColdStore.Parent(site, l)
    ensures Free(site.hot, Requested(site.hot + spec.target, spec.files), p)
  {
    var hot, q := site.hot, Cache.Payload(site.hot, site.specs.known[l]);
    KnownFile(site, spec);
    ColdStore.LegacyApart(hot, site.specs.known[l]);
    Cache.PlacesApart(hot, site.specs.known[l]);
    assert ColdStore.Parent(site, l) <= q && |ColdStore.Parent(site, l)| < |q|;
    PrefixTrans(p, ColdStore.Parent(site, l), q);
    if p in Requested(hot + spec.target, spec.files) {
      TouchedBelow(hot, spec, p);
      PrefixTrans(hot + spec.target, p, q);
    }
    if HotBlobs(hot) < p {
      PrefixTrans(HotBlobs(hot), p, q);
    }
  }

  /** The state a repair is attempted in, and what it may leave. */
  ghost predicate Attempted(fs: Files, next: Files, site: ColdStore.Site, spec: CacheSpec) {
    && ColdStore.Planned(site) && ColdStore.Sound(fs, site) && ColdStore.Known(site, spec)
    && spec.kind == CacheKeys.FILES && Cache.KeyOf(spec) in site.specs.legacy && Cache.Outdated(fs, site.hot, spec)
    && Outcomes(fs, next, site.hot, Requested(site.hot + spec.target, spec.files))
  }

  lemma SameEntry(fs: Files, next: Files, site: ColdStore.Site, spec: CacheSpec, p: Path)
    requires Attempted(fs, next, site, spec) && Cache.Area(site.hot) <= p
    ensures p in next <==> p in fs
    ensures p in fs ==> next[p] == fs[p]
  {
    OffRequest(site, spec, p);
    if p in next {
      assert Revised(fs, next, site.hot, Requested(site.hot + spec.target, spec.files), p);
      Cache.MarkerNames();
      Cache.PlacesApart(site.hot, spec);
      assert p[|site.hot|] == Cache.MARKERS && (site.hot + [GGUF])[|site.hot|] == GGUF;
      if HotBlobs(site.hot) <= p {
        ApartBelow(Cache.Area(site.hot), HotBlobs(site.hot), p);
      }
    }
  }

  lemma BaseRevised(fs: Files, next: Files, site: ColdStore.Site, spec: CacheSpec)
    requires Attempted(fs, next, site, spec)
    ensures Cache.Base(next, site.hot, site.specs)
  {
    var hot, touched := site.hot, Requested(site.hot + spec.target, spec.files);
    WaysPass(site, spec, Cache.Area(hot));
    WayRevised(fs, next, hot, touched, Cache.Area(hot));
    forall p | p in next && Cache.Area(hot) <= p ensures !next[p].Link? {
      SameEntry(fs, next, site, spec, p);
    }
    forall l | l in site.specs.known ensures Cache.StraightAbove(next, Cache.Payload(hot, site.specs.known[l])) {
      assert Cache.StraightAbove(fs, Cache.Payload(hot, site.specs.known[l]));
      WaysPass(site, spec, ColdStore.Parent(site, l));
      WayRevised(fs, next, hot, touched, ColdStore.Parent(site, l));
    }
  }

  /** Payload and store of another artifact are as they were. */
  lemma OtherRevised(fs: Files, next: Files, site: ColdStore.Site, spec: CacheSpec, l: string)
    requires Attempted(fs, next, site, spec) && l in site.specs.known && l != Cache.KeyOf(spec)
    requires Cache.Stands(fs, site.hot, site.specs, l)
    ensures Cache.Stands(next, site.hot, site.specs, l)
  {
    var hot, q := site.hot, Cache.Payload(site.hot, site.specs.known[l]);
    forall p | p in fs && (q <= p || HotBlobs(hot) <= p) ensures p in next && next[p] == fs[p] {
      if q <= p {
        OffOthers(site, spec, l, p);
      } else {
        OffRequest(site, spec, p);
      }
    }
    Cache.StandsKept(fs, next, hot, site.specs, l);
  }

  /** The artifact itself is still as an earlier release left it, or better. */
  lemma OwnRevised(fs: Files, next: Files, site: ColdStore.Site, spec: CacheSpec)
    requires Attempted(fs, next, site, spec)
    ensures Cache.Outdated(next, site.hot, site.specs.known[Cache.KeyOf(spec)])
  {
    var hot, root, k := site.hot, site.hot + spec.target, Cache.KeyOf(spec);
    KnownFile(site, spec);
    forall f | f in spec.files ensures f != [] && Cache.IsLinkIn(next, root, f) {
      assert Cache.IsLinkIn(fs, root, f) && root <= root + f;
      OffOthers(site, spec, k, root + f);
      var d := Dir(root + f);
      OffOthers(site, spec, k, d);
    }
  }

  lemma InvRevised(fs: Files, next: Files, site: ColdStore.Site, spec: CacheSpec)
    requires Attempted(fs, next, site, spec)
    ensures Cache.Inv(next, site.hot, site.specs)
    ensures forall l :: Cache.Marker(site.hot, l) + [COMPLETE] in next <==> Cache.Marker(site.hot, l) + [COMPLETE] in fs
  {
    BaseRevised(fs, next, site, spec);
    forall l
      ensures Cache.MarkerSound(next, site.hot, site.specs, l)
      ensures Cache.Marker(site.hot, l) + [COMPLETE] in next <==> Cache.Marker(site.hot, l) + [COMPLETE] in fs
    {
      var c, s := Cache.Marker(site.hot, l) + [COMPLETE], Cache.Marker(site.hot, l) + [Cache.SPEC];
      assert Cache.MarkerSound(fs, site.hot, site.specs, l) && Cache.Area(site.hot) <= c && Cache.Area(site.hot) <= s;
      SameEntry(fs, next, site, spec, c);
      SameEntry(fs, next, site, spec, s);
      if c in fs {
        if l == Cache.KeyOf(spec) {
          OwnRevised(fs, next, site, spec);
        } else {
          OtherRevised(fs, next, site, spec, l);
        }
      }
    }
  }

  // ------------------------------------------------------------------ the shelf

  lemma LegacyOff(site: ColdStore.Site)
    requires ColdStore.Planned(site)
    ensures ColdStore.OffTheWays(site, LegacyBlobs(site.hot))
  {
    var l := LegacyBlobs(site.hot);
    StoreNames(site.hot);
    forall k | ColdStore.FileKey(site, k) ensures !(l <= ColdStore.Parent(site, k)) {
      var q := Cache.Payload(site.hot, site.specs.known[k]);
      ColdStore.LegacyApart(site.hot, site.specs.known[k]);
      Cache.PlacesApart(site.hot, site.specs.known[k]);
      assert ColdStore.Parent(site, k) <= q;
      if l <= ColdStore.Parent(site, k) {
        PrefixTrans(l, ColdStore.Parent(site, k), q);
      }
    }
  }

  lemma EntryStep(fs: Files, next: Files, site: ColdStore.Site, spec: CacheSpec, p: Path)
    requires Attempted(fs, next, site, spec) && p in next
    ensures (p in fs && next[p] == fs[p]) || ((next[p].Folder? || ColdStore.OffTheWays(site, p)) && site.hot <= p)
  {
    var hot, touched, k := site.hot, Requested(site.hot + spec.target, spec.files), Cache.KeyOf(spec);
    KnownFile(site, spec);
    assert Revised(fs, next, hot, touched, p);
    if p in touched {
      TouchedBelow(hot, spec, p);
      ColdStore.PayloadOffWays(site, k, p);
    } else if p == LegacyBlobs(hot) {
      LegacyOff(site);
    } else if HotBlobs(hot) < p {
      ColdStore.PayloadOffWays(site, k, p);
    } else if HotBlobs(hot) <= p {
      assert p == HotBlobs(hot);
    }
  }

  lemma StepRevised(fs: Files, next: Files, site: ColdStore.Site, spec: CacheSpec)
    requires Attempted(fs, next, site, spec)
    ensures ColdStore.HotStep(fs, next, site)
  {
    var touched := Requested(site.hot + spec.target, spec.files);
    KnownFile(site, spec);
    forall p | p in next ensures (p in fs && next[p] == fs[p]) || next[p].Folder? || ColdStore.OffTheWays(site, p) {
      EntryStep(fs, next, site, spec, p);
    }
    forall p | site.cold <= p ensures (p in fs ==> p in next && next[p] == fs[p]) && (p in next ==> p in fs) {
      ColdUntouched(fs, next, site, spec, p);
    }
  }

  lemma ColdUntouched(fs: Files, next: Files, site: ColdStore.Site, spec: CacheSpec, p: Path)
    requires Attempted(fs, next, site, spec) && site.cold <= p
    ensures (p in fs ==> p in next && next[p] == fs[p]) && (p in next ==> p in fs)
  {
    var hot := site.hot;
    KnownFile(site, spec);
    assert Apart(p, hot) by { ApartBelow(site.cold, hot, p); }
    if LegacyBlobs(hot) <= p {
      PrefixTrans(hot, LegacyBlobs(hot), p);
    }
    if p in Requested(hot + spec.target, spec.files) {
      TouchedBelow(hot, spec, p);
      PrefixTrans(hot, hot + spec.target, p);
    }
    if p in next {
      EntryStep(fs, next, site, spec, p);
    }
  }

  lemma BlobsRevised(fs: Files, next: Files, site: ColdStore.Site, spec: CacheSpec)
    requires Attempted(fs, next, site, spec)
    ensures ColdStore.Blobs(next, site) && ColdStore.LegacyStore(next, site)
  {
    var h := HotBlobs(site.hot);
    forall n | h + [n] in next ensures next[h + [n]] == File(site.store(n)) {
      assert h <= h + [n];
      OffRequest(site, spec, h + [n]);
      if h in fs {
        assert Revised(fs, next, site.hot, Requested(site.hot + spec.target, spec.files), h + [n]);
      } else {
        LegacyThere(fs, site.hot, n);
      }
    }
  }

  /** A blob of the legacy store is in the legacy store. */
  lemma LegacyThere(fs: Files, hot: Path, n: string)
    requires Tree(fs)
    ensures LegacyBlobs(hot) + [n] in fs ==> LegacyBlobs(hot) in fs
  {
    var l := LegacyBlobs(hot);
    if l + [n] in fs {
      assert Dir(l + [n]) == l;
    }
  }

  // ------------------------------------------------------------------ the result

  lemma SoundRevised(fs: Files, next: Files, site: ColdStore.Site, spec: CacheSpec)
    requires Attempted(fs, next, site, spec)
    ensures ColdStore.Sound(next, site)
    ensures forall l :: Cache.Marker(site.hot, l) + [COMPLETE] in next <==> Cache.Marker(site.hot, l) + [COMPLETE] in fs
  {
    InvRevised(fs, next, site, spec);
    StepRevised(fs, next, site, spec);
    BlobsRevised(fs, next, site, spec);
    ColdStore.ShelfKept(fs, next, site);
  }

  /** The store is a real directory of regular files, new or legacy. */
  lemma StoreIsRegular(fs: Files, site: ColdStore.Site)
    requires ColdStore.Planned(site) && ColdStore.Sound(fs, site)
    ensures RegularStore(fs, site.hot)
  {
    var d := StoreOf(fs, site.hot);
    forall p | p in fs && p != [] && Dir(p) == d ensures !fs[p].Link? {
      assert p == d + [Base(p)] && IsFolder(fs, d);
    }
  }

  /** A complete marker whose files are not all served can be repaired. */
  lemma CanBeAttempted(fs: Files, site: ColdStore.Site, spec: CacheSpec)
    requires ColdStore.Planned(site) && ColdStore.Sound(fs, site) && ColdStore.Known(site, spec)
    requires Cache.Marker(site.hot, Cache.KeyOf(spec)) + [COMPLETE] in fs
    requires !Cache.HotArtifactExists(fs, site.hot, spec)
    ensures spec.kind == CacheKeys.FILES && Cache.KeyOf(spec) in site.specs.legacy && Cache.Outdated(fs, site.hot, spec)
    ensures Repairable(fs, site.hot, spec) && RegularStore(fs, site.hot)
  {
    var hot, k := site.hot, Cache.KeyOf(spec);
    assert Cache.MarkerSound(fs, hot, site.specs, k);
    ColdStore.KnownFits(site, spec);
    NotInstalled(fs, site, spec);
    KnownFile(site, spec);
    StoreIsRegular(fs, site);
    ReadyForRepair(fs, site, spec);
  }

  lemma NotInstalled(fs: Files, site: ColdStore.Site, spec: CacheSpec)
    requires ColdStore.Planned(site) && ColdStore.Sound(fs, site) && ColdStore.Known(site, spec)
    requires !Cache.HotArtifactExists(fs, site.hot, spec)
    ensures !Cache.Installed(fs, site.hot, site.specs.known[Cache.KeyOf(spec)])
  {
    var known := site.specs.known[Cache.KeyOf(spec)];
    assert Cache.Fits(site.hot, known);
    ColdStore.KnownFits(site, spec);
    if Cache.Installed(fs, site.hot, known) {
      Cache.InstalledExists(fs, site.hot, known);
    }
  }

  lemma ReadyForRepair(fs: Files, site: ColdStore.Site, spec: CacheSpec)
    requires ColdStore.Planned(site) && ColdStore.Sound(fs, site) && ColdStore.Known(site, spec)
    requires spec.kind == CacheKeys.FILES && Cache.Outdated(fs, site.hot, spec) && spec.files != []
    ensures Repairable(fs, site.hot, spec)
  {
    var hot, root := site.hot, site.hot + spec.target;
    KnownFile(site, spec);
    var f := spec.files[0];
    assert f in spec.files && Cache.IsLinkIn(fs, root, f);
    AncestorIsFolder(fs, root + f, |hot|);
    assert (root + f)[..|hot|] == hot;
    var g, h := hot + [GGUF], HotBlobs(hot);
    assert h[..|h|] == h && Dir(h) == g;
    ClearShorter(fs, h);
    forall f | f in spec.files ensures f != [] && IsFolder(fs, Dir(root + f)) {
      assert Cache.IsLinkIn(fs, root, f);
    }
  }

  /** Links to regular blobs of the new store install the artifact. */
  lemma RepairInstalls(fs: Files, hot: Path, spec: CacheSpec)
    requires Repairable(fs, hot, spec) && RegularStore(fs, hot) && RepairHot(fs, hot, spec).ok
    ensures Cache.Installed(RepairHot(fs, hot, spec).fs, hot, spec)
  {
    RepairIs(fs, hot, spec);
    Cache.KindsAreTwo();
    var end := Repaired(fs, hot, spec);
    forall f | f in spec.files ensures Cache.FileInstalled(end, hot, hot + spec.target + f) {
      var p := hot + spec.target + f;
      assert p in Requested(hot + spec.target, spec.files);
      var n := BaseName(Settled(fs, hot)[p].target);
      RegularBlob(fs, hot, n);
      assert Cache.InStore(end, hot, n);
    }
  }

  /**
   * On sound storage the repair of a complete marker whose files are not all served keeps everything sound and
   * every marker, however it ends; when it succeeds the artifact is installed.
   */
  lemma RepairKeeps(fs: Files, site: ColdStore.Site, spec: CacheSpec)
    requires ColdStore.Planned(site) && ColdStore.Sound(fs, site) && ColdStore.Known(site, spec)
    requires Cache.Marker(site.hot, Cache.KeyOf(spec)) + [COMPLETE] in fs
    requires !Cache.HotArtifactExists(fs, site.hot, spec)
    ensures var o := RepairHot(fs, site.hot, spec);
            && ColdStore.Sound(o.fs, site)
            && (forall l :: Cache.Marker(site.hot, l) + [COMPLETE] in o.fs <==>
                  Cache.Marker(site.hot, l) + [COMPLETE] in fs)
            && (o.ok ==> Cache.Installed(o.fs, site.hot, site.specs.known[Cache.KeyOf(spec)]))
  {
    CanBeAttempted(fs, site, spec);
    RepairOutcomes(fs, site.hot, spec);
    SoundRevised(fs, RepairHot(fs, site.hot, spec).fs, site, spec);
    if RepairHot(fs, site.hot, spec).ok {
      RepairInstalls(fs, site.hot, spec);
      KnownFile(site, spec);
    }
  }

  /** When it succeeds: if and only if the store has every file's blob, under the name its link's text ends in. */
  lemma RevivedIff(fs: Files, site: ColdStore.Site, spec: CacheSpec)
    requires ColdStore.Planned(site) && ColdStore.Sound(fs, site) && ColdStore.Known(site, spec)
    requires Cache.Marker(site.hot, Cache.KeyOf(spec)) + [COMPLETE] in fs
    requires !Cache.HotArtifactExists(fs, site.hot, spec)
    ensures RepairHot(fs, site.hot, spec).ok <==>
            forall f :: f in spec.files ==> BlobAtHand(fs, site.hot, site.hot + spec.target + f)
  {
    CanBeAttempted(fs, site, spec);
    RepairSucceedsIff(fs, site.hot, spec);
    if (forall f :: f in spec.files ==> BlobAtHand(fs, site.hot, site.hot + spec.target + f)) && spec.files != [] {
      var p := site.hot + spec.target + spec.files[0];
      assert spec.files[0] in spec.files && BlobAtHand(fs, site.hot, p);
      StoreThere(fs, site.hot, BaseName(fs[p].target));
    }
  }

  lemma StoreThere(fs: Files, hot: Path, n: string)
    requires Tree(fs) && StoreOf(fs, hot) + [n] in fs
    ensures HasStore(fs, hot)
  {
    LegacyThere(fs, hot, n);
  }
}
