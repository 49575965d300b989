/**
 * Hot cache and cold storage together: the invariant that every complete marker has its payload, that hot
 * blobs are content addresses, and that every complete cold artifact of a catalogued key can be promoted; and
 * that evicting, filling, marking and archiving keep it.
 */
module ColdStore {
  import opened Prelude
  import opened Paths
  import opened FileSystem
  import opened Layout
  import Archive
  import Cache
  import CacheKeys
  import Repair
  import RoundTrip

  /** Where the cache lives, what its blob names stand for, and the artifacts it serves, by key. */
  datatype Site = Site(hot: Path, cold: Path, store: Store, specs: Cache.Specs)

  function Artifact(cold: Path, key: string): Path { cold + ["artifacts", key] }

  predicate FileKey(site: Site, k: string) { k in site.specs.known && site.specs.known[k].kind == CacheKeys.FILES }

  /** The directory a payload is to stand in. */
  function Parent(site: Site, k: string): Path
    requires k in site.specs.known
  {
    var q := Cache.Payload(site.hot, site.specs.known[k]);
    if q == [] then [] else Dir(q)
  }

  /** Hot and cold storage lie apart, and file artifacts list each of their files once. */
  ghost predicate Planned(site: Site) {
    && Cache.Catalogue(site.hot, site.specs) && IsPath(site.cold) && Apart(site.hot, site.cold)
    && (forall k :: FileKey(site, k) ==> Distinct(site.specs.known[k].files) && [] !in site.specs.known[k].files)
  }

  // ------------------------------------------------------------------ the invariant

  /** Hot blob names are content addresses. */
  ghost predicate Blobs(fs: Files, site: Site) {
    forall n :: Archive.HotBlobs(site.hot) + [n] in fs ==> fs[Archive.HotBlobs(site.hot) + [n]] == File(site.store(n))
  }

  /** The cold artifact of a key is complete for exactly the files its manifest speaks of. */
  ghost predicate ColdFor(
      fs: Files, site: Site, k: string, archived: CacheSpec, entries: map<Path, Entry>, files: seq<Path>,
      items: seq<Item>)
  {
    && RoundTrip.Cold(fs, Artifact(site.cold, k), archived, site.store, entries, files, items)
    && PrefixFree(entries) && (forall f :: f in entries ==> Named(f, entries[f]))
    && forall f :: f in entries <==> f in archived.files
  }

  ghost predicate ColdSound(fs: Files, site: Site, k: string) {
    && Clear(fs, Artifact(site.cold, k))
    && (Artifact(site.cold, k) + [Archive.COMPLETE] in fs ==>
          exists archived, entries, files, items :: ColdFor(fs, site, k, archived, entries, files, items))
  }

  /** A legacy store that has not been moved yet is a directory of content addresses, too. */
  ghost predicate LegacyStore(fs: Files, site: Site) {
    var l := Repair.LegacyBlobs(site.hot);
    Archive.HotBlobs(site.hot) !in fs && l in fs ==>
      fs[l].Folder? && forall n :: l + [n] in fs ==> fs[l + [n]] == File(site.store(n))
  }

  ghost predicate Shelf(fs: Files, site: Site) {
    && Tree(fs) && Clear(fs, Archive.HotBlobs(site.hot)) && Blobs(fs, site) && LegacyStore(fs, site)
    && forall k :: FileKey(site, k) ==> Clear(fs, Parent(site, k)) && ColdSound(fs, site, k)
  }

  ghost predicate Sound(fs: Files, site: Site) { Cache.Inv(fs, site.hot, site.specs) && Shelf(fs, site) }

  // ------------------------------------------------------------------ changes to the hot side

  /** An entry that stands on no way the cache needs. */
  ghost predicate OffTheWays(site: Site, p: Path) {
    && site.hot <= p && !(p <= Archive.HotBlobs(site.hot))
    && forall l :: FileKey(site, l) ==> !(p <= Parent(site, l))
  }

  /** A change to the hot side: cold storage is as it was, and what is new on a way is a directory. */
  ghost predicate HotStep(fs: Files, next: Files, site: Site) {
    && Tree(next) && (forall p :: p in fs && site.cold <= p ==> p in next && next[p] == fs[p])
    && (forall p :: p in next && site.cold <= p ==> p in fs)
    && forall p :: p in next ==> (p in fs && next[p] == fs[p]) || next[p].Folder? || OffTheWays(site, p)
  }

  /** A hot place is nowhere on the way to cold storage or in it. */
  lemma HotNotCold(site: Site, p: Path)
    requires Apart(site.hot, site.cold) && site.hot <= p
    ensures Apart(p, site.cold)
  {
    ApartBelow(site.hot, site.cold, p);
  }

  lemma ClearKept(fs: Files, next: Files, site: Site, x: Path)
    requires HotStep(fs, next, site) && Clear(fs, x) && forall p :: p <= x ==> !OffTheWays(site, p)
    ensures Clear(next, x)
  {
    forall i | 0 < i <= |x| && x[..i] in next ensures next[x[..i]].Folder? {
      assert x[..i] <= x;
    }
  }

  lemma ColdKept(fs: Files, next: Files, site: Site, k: string)
    requires Planned(site) && Shelf(fs, site) && HotStep(fs, next, site) && FileKey(site, k)
    ensures ColdSound(next, site, k)
  {
    var dir := Artifact(site.cold, k);
    assert ColdSound(fs, site, k) && site.cold <= dir;
    forall p | p <= dir ensures !OffTheWays(site, p) {
      if OffTheWays(site, p) {
        HotNotCold(site, p);
        PrefixesCompare(p, site.cold, dir);
      }
    }
    ClearKept(fs, next, site, dir);
    var c := dir + [Archive.COMPLETE];
    assert site.cold <= c;
    if c in next {
      var archived, entries, files, items :| ColdFor(fs, site, k, archived, entries, files, items);
      forall p | p in fs && dir <= p ensures p in next && next[p] == fs[p] {
        PrefixTrans(site.cold, dir, p);
      }
      RoundTrip.ColdLater(fs, next, dir, archived, site.store, entries, files, items);
      assert ColdFor(next, site, k, archived, entries, files, items);
    }
  }

  lemma ShelfKept(fs: Files, next: Files, site: Site)
    requires Planned(site) && Shelf(fs, site) && HotStep(fs, next, site) && Blobs(next, site) && LegacyStore(next, site)
    ensures Shelf(next, site)
  {
    ClearKept(fs, next, site, Archive.HotBlobs(site.hot));
    forall k | FileKey(site, k)
      ensures Clear(next, Parent(site, k)) && ColdSound(next, site, k)
    {
      ClearKept(fs, next, site, Parent(site, k));
      ColdKept(fs, next, site, k);
    }
  }

  /** The legacy store is as it was, and a new store does not vanish. */
  lemma LegacyKept(fs: Files, next: Files, site: Site)
    requires LegacyStore(fs, site) && (Archive.HotBlobs(site.hot) in fs ==> Archive.HotBlobs(site.hot) in next)
    requires forall p :: p in next && Repair.LegacyBlobs(site.hot) <= p ==> p in fs && next[p] == fs[p]
    ensures LegacyStore(next, site)
  {
    var l := Repair.LegacyBlobs(site.hot);
    forall n | l + [n] in next ensures l + [n] in fs && next[l + [n]] == fs[l + [n]] {
      assert l <= l + [n];
    }
  }

  /** The legacy store lies apart from the markers, the new store and every payload. */
  lemma LegacyApart(hot: Path, spec: CacheSpec)
    requires Cache.Fits(hot, spec)
    ensures var l := Repair.LegacyBlobs(hot);
            Apart(l, Cache.Area(hot)) && Apart(l, Archive.HotBlobs(hot)) && Apart(l, Cache.Payload(hot, spec))
  {
    Cache.MarkerNames();
    Repair.StoreNames(hot);
    var l, q, a := Repair.LegacyBlobs(hot), Cache.Payload(hot, spec), Cache.Area(hot);
    assert |"hub"| == 3 && |"blobs"| == 5 && |Cache.MARKERS| == 10;
    assert l[|hot|] == "blobs" && a[|hot|] == Cache.MARKERS;
    assert q[|hot|] == if spec.kind == CacheKeys.HUB then "hub" else GGUF;
  }

  // ------------------------------------------------------------------ evicting and marking

  lemma WithoutStep(fs: Files, site: Site, q: Path)
    requires Planned(site) && Tree(fs) && site.hot <= q && Apart(q, Archive.HotBlobs(site.hot))
    ensures HotStep(fs, Without(fs, q), site) && (Blobs(fs, site) ==> Blobs(Without(fs, q), site))
    ensures LegacyStore(fs, site) ==> LegacyStore(Without(fs, q), site)
  {
    if LegacyStore(fs, site) {
      LegacyKept(fs, Without(fs, q), site);
    }
    RoundTrip.WithoutTree(fs, q);
    forall p | p in fs && site.cold <= p ensures !(q <= p) {
      if q <= p {
        PrefixTrans(site.hot, q, p);
        HotNotCold(site, p);
      }
    }
  }

  lemma MarkerOffStore(hot: Path, k: string)
    ensures Apart(Cache.Marker(hot, k), Archive.HotBlobs(hot))
  {
    Cache.MarkerNames();
    assert Cache.Marker(hot, k)[|hot|] == Cache.MARKERS && Archive.HotBlobs(hot)[|hot|] == GGUF;
  }

  /** Evicting keeps hot cache and cold storage sound, removes the marker, and keeps every other complete marker. */
  lemma EvictKeeps(fs: Files, site: Site, k: string)
    requires Planned(site) && Sound(fs, site) && Proper(k)
    ensures var next := Cache.Evict(fs, site.hot, k);
            && Sound(next, site) && Cache.Marker(site.hot, k) + [Archive.COMPLETE] !in next
            && (forall l :: l != k && Cache.Marker(site.hot, l) + [Archive.COMPLETE] in fs ==>
                  Cache.Marker(site.hot, l) + [Archive.COMPLETE] in next)
            && forall l :: l != k && l in site.specs.known && Cache.Installed(fs, site.hot, site.specs.known[l]) ==>
                 Cache.Installed(next, site.hot, site.specs.known[l])
  {
    forall l | l != k && l in site.specs.known && Cache.Installed(fs, site.hot, site.specs.known[l])
      ensures Cache.Installed(Cache.Evict(fs, site.hot, k), site.hot, site.specs.known[l])
    {
      Cache.InstalledBeside(fs, site.hot, site.specs, k, l);
    }
    Cache.EvictKeeps(fs, site.hot, site.specs, k);
    Cache.EvictIs(fs, site.hot, site.specs, k);
    var mark := Cache.Marker(site.hot, k);
    assert site.hot <= mark;
    MarkerOffStore(site.hot, k);
    if Cache.Evict(fs, site.hot, k) == Without(fs, mark) {
      WithoutStep(fs, site, mark);
      ShelfKept(fs, Without(fs, mark), site);
    } else {
      var q := Cache.Payload(site.hot, site.specs.known[k]);
      Cache.PlacesApart(site.hot, site.specs.known[k]);
      WithoutStep(fs, site, q);
      ShelfKept(fs, Without(fs, q), site);
      WithoutStep(Without(fs, q), site, mark);
      ShelfKept(Without(fs, q), Without(Without(fs, q), mark), site);
    }
  }

  /** The files of a marker stand on no way. */
  lemma MarkerOffWays(site: Site, k: string, c: string)
    requires Planned(site) && k in site.specs.known
    ensures OffTheWays(site, Cache.Marker(site.hot, k) + [c])
  {
    var dir := Cache.Marker(site.hot, k);
    var p := dir + [c];
    assert site.hot <= p && dir <= p;
    Cache.MarkerOff(site.hot, site.specs.known[k], k);
    if p <= Archive.HotBlobs(site.hot) {
      PrefixTrans(dir, p, Archive.HotBlobs(site.hot));
    }
    forall l | FileKey(site, l) ensures !(p <= Parent(site, l)) {
      var q := Cache.Payload(site.hot, site.specs.known[l]);
      Cache.MarkerOff(site.hot, site.specs.known[l], k);
      Cache.PlacesApart(site.hot, site.specs.known[l]);
      assert Parent(site, l) <= q;
      if p <= Parent(site, l) {
        PrefixTrans(p, Parent(site, l), q);
        PrefixTrans(dir, p, q);
      }
    }
  }

  lemma MarkStep(fs: Files, next: Files, site: Site, spec: CacheSpec)
    requires Planned(site) && Cache.MarkOf(fs, next, site.hot, spec) && Cache.KeyOf(spec) in site.specs.known
    ensures HotStep(fs, next, site) && (LegacyStore(fs, site) ==> LegacyStore(next, site))
  {
    LegacyMarked(fs, next, site, spec);
    var k := Cache.KeyOf(spec);
    var dir := Cache.Marker(site.hot, k);
    MarkerOffWays(site, k, Archive.COMPLETE);
    MarkerOffWays(site, k, Cache.SPEC);
    assert site.hot <= dir;
    HotNotCold(site, dir);
    forall p | p in next && site.cold <= p ensures p in fs && next[p] == fs[p] {
      ApartBelow(site.cold, dir, p);
      assert dir <= dir + [Archive.COMPLETE] && dir <= dir + [Cache.SPEC];
    }
  }

  lemma LegacyMarked(fs: Files, next: Files, site: Site, spec: CacheSpec)
    requires Planned(site) && Cache.MarkOf(fs, next, site.hot, spec) && Cache.KeyOf(spec) in site.specs.known
    ensures LegacyStore(fs, site) ==> LegacyStore(next, site)
  {
    var l, dir := Repair.LegacyBlobs(site.hot), Cache.Marker(site.hot, Cache.KeyOf(spec));
    LegacyApart(site.hot, site.specs.known[Cache.KeyOf(spec)]);
    assert Cache.Area(site.hot) <= dir;
    ApartBelow(Cache.Area(site.hot), l, dir);
    forall p | p in next && l <= p ensures p in fs && next[p] == fs[p] {
      ApartBelow(l, dir, p);
      assert dir <= dir + [Archive.COMPLETE] && dir <= dir + [Cache.SPEC];
    }
    if LegacyStore(fs, site) {
      LegacyKept(fs, next, site);
    }
  }

  lemma BlobsMarked(fs: Files, next: Files, site: Site, spec: CacheSpec)
    requires Planned(site) && Blobs(fs, site) && Cache.MarkOf(fs, next, site.hot, spec)
    requires Cache.KeyOf(spec) in site.specs.known
    ensures Blobs(next, site)
  {
    var h, dir := Archive.HotBlobs(site.hot), Cache.Marker(site.hot, Cache.KeyOf(spec));
    Cache.MarkerOff(site.hot, site.specs.known[Cache.KeyOf(spec)], Cache.KeyOf(spec));
    forall n | h + [n] in next ensures h + [n] in fs && next[h + [n]] == fs[h + [n]] {
      assert h <= h + [n];
      ApartBelow(h, dir, h + [n]);
      assert dir <= dir + [Archive.COMPLETE] && dir <= dir + [Cache.SPEC];
    }
  }

  /** Marking an installed artifact keeps everything sound and every complete marker. */
  lemma MarkKeeps(fs: Files, site: Site, spec: CacheSpec)
    requires Planned(site) && Sound(fs, site) && Cache.KeyOf(spec) in site.specs.known
    requires Cache.Asks(spec, site.specs.known[Cache.KeyOf(spec)])
    requires Cache.Installed(fs, site.hot, site.specs.known[Cache.KeyOf(spec)])
    ensures var o := Cache.Mark(fs, site.hot, spec);
            && Sound(o.fs, site) && Cache.Installed(o.fs, site.hot, site.specs.known[Cache.KeyOf(spec)])
            && (o.ok ==> Cache.Marker(site.hot, Cache.KeyOf(spec)) + [Archive.COMPLETE] in o.fs)
            && forall l :: Cache.Marker(site.hot, l) + [Archive.COMPLETE] in fs ==>
                 Cache.Marker(site.hot, l) + [Archive.COMPLETE] in o.fs
  {
    Cache.MarkKeeps(fs, site.hot, site.specs, spec);
    assert Cache.Fits(site.hot, site.specs.known[Cache.KeyOf(spec)]);
    Cache.MarkIs(fs, site.hot, site.specs, spec);
    var next := Cache.Mark(fs, site.hot, spec).fs;
    MarkStep(fs, next, site, spec);
    BlobsMarked(fs, next, site, spec);
    ShelfKept(fs, next, site);
  }

  // ------------------------------------------------------------------ filling a payload

  /** Clearing and filling the payload within its bounds, with blob names staying content addresses. */
  ghost predicate Fills(fs: Files, o: Outcome, site: Site, spec: CacheSpec) {
    Cache.Populates(fs, o, site.hot, spec) && Blobs(o.fs, site) && Clear(o.fs, Archive.HotBlobs(site.hot))
  }

  /** Places below a payload, and entries of the blob store, stand on no way. */
  lemma PayloadOffWays(site: Site, k: string, p: Path)
    requires Planned(site) && k in site.specs.known
    requires Cache.Payload(site.hot, site.specs.known[k]) <= p || Archive.HotBlobs(site.hot) < p
    ensures OffTheWays(site, p)
  {
    var q, h := Cache.Payload(site.hot, site.specs.known[k]), Archive.HotBlobs(site.hot);
    Cache.PlacesApart(site.hot, site.specs.known[k]);
    assert site.hot <= h;
    if q <= p { PrefixTrans(site.hot, q, p); } else { PrefixTrans(site.hot, h, p); }
    if p <= h && q <= p {
      PrefixTrans(q, p, h);
    }
    forall l | FileKey(site, l) ensures !(p <= Parent(site, l)) {
      var r := Cache.Payload(site.hot, site.specs.known[l]);
      Cache.PlacesApart(site.hot, site.specs.known[l]);
      assert Parent(site, l) <= r;
      if p <= Parent(site, l) {
        PrefixTrans(p, Parent(site, l), r);
        PrefixTrans(if q <= p then q else h, p, r);
      }
    }
  }

  lemma FillStep(fs: Files, o: Outcome, site: Site, k: string)
    requires Planned(site) && k in site.specs.known && Fills(fs, o, site, site.specs.known[k])
    ensures HotStep(fs, o.fs, site)
  {
    forall p | p in o.fs ensures (p in fs && o.fs[p] == fs[p]) || o.fs[p].Folder? || OffTheWays(site, p) {
      FilledEntry(fs, o, site, k, p);
    }
    forall p | site.cold <= p ensures !(Cache.Payload(site.hot, site.specs.known[k]) <= p) && (p in o.fs ==> p in fs) {
      ColdNotNew(o.fs, site, k, p);
    }
  }

  lemma FilledEntry(fs: Files, o: Outcome, site: Site, k: string, p: Path)
    requires Planned(site) && k in site.specs.known && Fills(fs, o, site, site.specs.known[k]) && p in o.fs
    ensures (p in fs && o.fs[p] == fs[p]) || o.fs[p].Folder? || OffTheWays(site, p)
  {
    var h := Archive.HotBlobs(site.hot);
    if Cache.Payload(site.hot, site.specs.known[k]) <= p || h < p {
      PayloadOffWays(site, k, p);
    } else if p !in fs {
      assert Cache.NewPath(o.fs, site.hot, site.specs.known[k], p);
      if h <= p {
        assert p == h[..|h|];
      }
    }
  }

  /** No new entry of a filling lies in cold storage. */
  lemma ColdNotNew(fs: Files, site: Site, k: string, p: Path)
    requires Planned(site) && k in site.specs.known && site.cold <= p
    ensures !(Cache.Payload(site.hot, site.specs.known[k]) <= p)
    ensures p in fs ==> !Cache.NewPath(fs, site.hot, site.specs.known[k], p)
  {
    var q, h := Cache.Payload(site.hot, site.specs.known[k]), Archive.HotBlobs(site.hot);
    Cache.PlacesApart(site.hot, site.specs.known[k]);
    assert site.hot <= h;
    HotNotCold(site, q);
    HotNotCold(site, h);
    ApartBelow(site.cold, q, p);
    ApartBelow(site.cold, h, p);
  }

  /** Filling the payload of an artifact that has no complete marker keeps everything sound. */
  lemma FillKeeps(fs: Files, o: Outcome, site: Site, k: string)
    requires Planned(site) && Sound(fs, site) && k in site.specs.known && Fills(fs, o, site, site.specs.known[k])
    requires Cache.Marker(site.hot, k) + [Archive.COMPLETE] !in fs
    ensures Sound(o.fs, site)
    ensures forall l :: Cache.Marker(site.hot, l) + [Archive.COMPLETE] in fs <==>
              Cache.Marker(site.hot, l) + [Archive.COMPLETE] in o.fs
  {
    Cache.PopulateKeeps(fs, o, site.hot, site.specs, k);
    FillStep(fs, o, site, k);
    LegacyFilled(fs, o, site, k);
    ShelfKept(fs, o.fs, site);
  }

  lemma LegacyFilled(fs: Files, o: Outcome, site: Site, k: string)
    requires Planned(site) && LegacyStore(fs, site) && k in site.specs.known && Fills(fs, o, site, site.specs.known[k])
    ensures LegacyStore(o.fs, site)
  {
    var l, q, h := Repair.LegacyBlobs(site.hot), Cache.Payload(site.hot, site.specs.known[k]),
        Archive.HotBlobs(site.hot);
    LegacyApart(site.hot, site.specs.known[k]);
    Cache.PlacesApart(site.hot, site.specs.known[k]);
    forall p | p in o.fs && l <= p ensures p in fs && o.fs[p] == fs[p] {
      ApartBelow(l, q, p);
      ApartBelow(l, h, p);
    }
    LegacyKept(fs, o.fs, site);
  }

  // ------------------------------------------------------------------ promoting

  /** The request asks for the artifact catalogued under its key. */
  predicate Known(site: Site, spec: CacheSpec) {
    Cache.KeyOf(spec) in site.specs.known && Cache.Asks(spec, site.specs.known[Cache.KeyOf(spec)])
  }

  lemma KnownFits(site: Site, spec: CacheSpec)
    requires Planned(site) && Known(site, spec)
    ensures Cache.Fits(site.hot, spec)
    ensures Cache.Payload(site.hot, spec) == Cache.Payload(site.hot, site.specs.known[Cache.KeyOf(spec)])
  {
    assert Cache.Fits(site.hot, site.specs.known[Cache.KeyOf(spec)]);
  }

  lemma ColdNames()
    ensures Proper("artifacts") && Proper(Archive.COMPLETE)
  {
    Cache.MarkerNames();
    assert |"artifacts"| == 9 && "artifacts"[0] == 'a';
  }

  /** A completion mark that is seen is there. */
  lemma CompleteIsThere(fs: Files, site: Site, k: string)
    requires Planned(site) && Tree(fs) && Proper(k) && Clear(fs, Artifact(site.cold, k))
    requires Stat(fs, Artifact(site.cold, k) + [Archive.COMPLETE]).Some?
    ensures Artifact(site.cold, k) + [Archive.COMPLETE] in fs
  {
    var dir := Artifact(site.cold, k);
    var c := dir + [Archive.COMPLETE];
    ColdNames();
    if c !in fs {
      forall i | 0 < i <= |c| && c[..i] in fs ensures fs[c[..i]].Folder? {
        assert c[..|c|] == c;
        assert c[..i] == dir[..i];
      }
      ClearIsAbsent(fs, c);
    }
  }

  /** A manifest that fits a request belongs to a complete cold artifact that has every requested file. */
  lemma ManifestIsCold(fs: Files, site: Site, spec: CacheSpec, items: seq<Item>)
    returns (archived: CacheSpec, entries: map<Path, Entry>, files: seq<Path>)
    requires Planned(site) && Sound(fs, site) && Known(site, spec) && spec.kind == CacheKeys.FILES
    requires RoundTrip.ManifestFor(fs, Artifact(site.cold, Cache.KeyOf(spec)), spec) == Some(items)
    ensures ColdFor(fs, site, Cache.KeyOf(spec), archived, entries, files, items)
    ensures forall f :: f in spec.files ==> f in entries
  {
    var k := Cache.KeyOf(spec);
    var dir := Artifact(site.cold, k);
    assert FileKey(site, k) && ColdSound(fs, site, k) && Cache.Fits(site.hot, site.specs.known[k]);
    CompleteIsThere(fs, site, k);
    var listed;
    archived, entries, files, listed :| ColdFor(fs, site, k, archived, entries, files, listed);
    ResolveEntry(fs, dir + [RoundTrip.MANIFEST]);
  }

  lemma HotIsReady(fs: Files, site: Site, spec: CacheSpec)
    requires Planned(site) && Sound(fs, site) && Known(site, spec) && spec.kind == CacheKeys.FILES
    ensures RoundTrip.HotReady(fs, site.hot, spec.target, site.store)
  {
    KnownFits(site, spec);
    Cache.KindsAreTwo();
    assert FileKey(site, Cache.KeyOf(spec));
    assert IsPath(Archive.HotBlobs(site.hot)) by {
      BlobStoreIsAccepted();
      assert Proper(GGUF) && Proper(Archive.HotBlobs(site.hot)[|site.hot| + 1]);
    }
  }

  /** Promoting a cold artifact whose manifest fits the request succeeds, and fills the payload within its bounds. */
  lemma PromoteFills(fs: Files, site: Site, spec: CacheSpec, items: seq<Item>)
    requires Planned(site) && Sound(fs, site) && Known(site, spec) && spec.kind == CacheKeys.FILES
    requires RoundTrip.ManifestFor(fs, Artifact(site.cold, Cache.KeyOf(spec)), spec) == Some(items)
    ensures var o := RoundTrip.Promote(fs, Artifact(site.cold, Cache.KeyOf(spec)), site.hot, spec.target, items);
            o.ok && Fills(fs, o, site, spec)
  {
    var dir := Artifact(site.cold, Cache.KeyOf(spec));
    var archived, entries, files := ManifestIsCold(fs, site, spec, items);
    HotIsReady(fs, site, spec);
    assert site.hot <= site.hot + spec.target && site.cold <= dir;
    HotNotCold(site, site.hot + spec.target);
    ApartBelow(site.cold, site.hot + spec.target, dir);
    Cache.PromotePopulates(fs, dir, site.hot, spec, archived, site.store, entries, files, items);
  }

  // ------------------------------------------------------------------ clearing, and hub artifacts

  /** What a download starts from: an empty payload in reach, and a store of content addresses. */
  ghost predicate Cleared(fs: Files, site: Site, spec: CacheSpec) {
    && Tree(fs) && Cache.Fits(site.hot, spec) && Cache.StraightAbove(fs, Cache.Payload(site.hot, spec))
    && Blobs(fs, site) && Clear(fs, Archive.HotBlobs(site.hot))
    && forall p :: p in fs ==> !(Cache.Payload(site.hot, spec) <= p)
  }

  lemma ClearedFirst(fs: Files, site: Site, spec: CacheSpec)
    requires Planned(site) && Sound(fs, site) && Known(site, spec)
    ensures var q := Cache.Payload(site.hot, spec);
            RemoveAll(fs, q) == Without(fs, q) && Cleared(Without(fs, q), site, spec)
  {
    var q, k := Cache.Payload(site.hot, spec), Cache.KeyOf(spec);
    KnownFits(site, spec);
    Cache.PlacesApart(site.hot, spec);
    Cache.PayloadRemoved(fs, site.hot, site.specs, k);
    Cache.BaseWithout(fs, site.hot, site.specs, q);
    assert Cache.StraightAbove(Without(fs, q), Cache.Payload(site.hot, site.specs.known[k]));
    WithoutStep(fs, site, q);
    RoundTrip.WithoutClear(fs, q, Archive.HotBlobs(site.hot));
  }

  /** What a step that starts from a cleared payload may leave is what filling the payload may leave. */
  lemma ClearedFills(fs: Files, o: Outcome, site: Site, spec: CacheSpec)
    requires var rest := Without(fs, Cache.Payload(site.hot, spec));
             && Tree(o.fs) && Extends(rest, o.fs) && Blobs(o.fs, site) && Clear(o.fs, Archive.HotBlobs(site.hot))
             && (forall p :: p in o.fs && p !in rest ==> Cache.NewPath(o.fs, site.hot, spec, p))
             && (o.ok ==> Cache.Installed(o.fs, site.hot, spec))
    ensures Fills(fs, o, site, spec)
  {
    var rest := Without(fs, Cache.Payload(site.hot, spec));
    forall p | p in o.fs && p !in fs ensures Cache.NewPath(o.fs, site.hot, spec, p) {
      assert p !in rest;
    }
  }

  /** What bringing a hub artifact in may leave: additions below its payload; all of the artifact, if it succeeds. */
  ghost predicate BroughtIn(fs: Files, o: Outcome, site: Site, spec: CacheSpec) {
    var q := Cache.Payload(site.hot, spec);
    && Tree(o.fs) && Extends(fs, o.fs)
    && (forall p :: p in o.fs && p !in fs ==> q <= p || (p <= q && o.fs[p].Folder?))
    && (o.ok ==> Cache.Installed(o.fs, site.hot, spec))
  }

  /** The contract of whatever brings hub artifacts in, by promotion or by download. */
  ghost predicate BringsIn(hub: (nat, Files, CacheSpec) -> Outcome, site: Site) {
    forall n, fs, spec :: Cleared(fs, site, spec) && spec.kind == CacheKeys.HUB ==>
      BroughtIn(fs, hub(n, fs, spec), site, spec)
  }

  lemma HubFills(fs: Files, site: Site, spec: CacheSpec, hub: (nat, Files, CacheSpec) -> Outcome, n: nat)
    requires Planned(site) && Sound(fs, site) && Known(site, spec) && spec.kind == CacheKeys.HUB && BringsIn(hub, site)
    ensures Fills(fs, hub(n, RemoveAll(fs, Cache.Payload(site.hot, spec)), spec), site, spec)
  {
    ClearedFirst(fs, site, spec);
    var rest := RemoveAll(fs, Cache.Payload(site.hot, spec));
    var o := hub(n, rest, spec);
    assert BroughtIn(rest, o, site, spec);
    StoreUntouched(rest, o, site, spec);
    ClearedFills(fs, o, site, spec);
  }

  /** The blob store is as it was. */
  lemma StoreUntouched(fs: Files, o: Outcome, site: Site, spec: CacheSpec)
    requires Cleared(fs, site, spec) && BroughtIn(fs, o, site, spec)
    ensures Blobs(o.fs, site) && Clear(o.fs, Archive.HotBlobs(site.hot))
  {
    var q, h := Cache.Payload(site.hot, spec), Archive.HotBlobs(site.hot);
    Cache.PlacesApart(site.hot, spec);
    forall n | h + [n] in o.fs ensures h + [n] in fs {
      assert h <= h + [n];
      ApartBelow(h, q, h + [n]);
    }
    forall i | 0 < i <= |h| && h[..i] in o.fs ensures o.fs[h[..i]].Folder? {
      assert h[..i] <= h;
      if q <= h[..i] {
        PrefixTrans(q, h[..i], h);
      }
    }
  }

  // ------------------------------------------------------------------ archiving

  /** What stands for an installed file in an archive. */
  ghost function EntryAt(fs: Files, hot: Path, p: Path): (e: Entry)
    requires Cache.FileInstalled(fs, hot, p)
    ensures match e
            case Regular(d) => fs[p] == File(d)
            case Blob(n) => Cache.InStore(fs, hot, n) && fs[p] == Link(LinkTo(p, Archive.HotBlobs(hot) + [n]))
  {
    if fs[p].File? then Regular(fs[p].data)
    else
      var n :| Cache.InStore(fs, hot, n) && fs[p] == Link(LinkTo(p, Archive.HotBlobs(hot) + [n]));
      Blob(n)
  }

  /** An installed artifact can be archived: every file of it is held, under its content address. */
  lemma InstalledIsArchivable(fs: Files, site: Site, spec: CacheSpec) returns (entries: map<Path, Entry>)
    requires Planned(site) && Sound(fs, site) && Known(site, spec) && spec.kind == CacheKeys.FILES
    requires Cache.Installed(fs, site.hot, site.specs.known[Cache.KeyOf(spec)])
    ensures RoundTrip.Archivable(fs, site.hot, spec, site.store, entries)
    ensures PrefixFree(entries) && (forall f :: f in entries ==> Named(f, entries[f]))
    ensures forall f :: f in entries <==> f in spec.files
  {
    var root, h := site.hot + spec.target, Archive.HotBlobs(site.hot);
    KnownFits(site, spec);
    Cache.KindsAreTwo();
    assert FileKey(site, Cache.KeyOf(spec));
    assert forall f :: f in spec.files ==> Cache.FileInstalled(fs, site.hot, root + f);
    entries := map f | f in spec.files :: EntryAt(fs, site.hot, root + f);
    forall f | f in entries
      ensures f != [] && Archive.Holds(fs, root + f, site.store, entries[f]) && Named(f, entries[f])
    {
      assert LaidAt(fs, root, h, site.store, f, entries[f]);
      RoundTrip.LaidIsHeld(fs, root, h, site.store, f, entries[f]);
      RoundTrip.HeldIsNamed(fs, root, site.store, f, entries[f]);
    }
    RoundTrip.HeldArePrefixFree(fs, root, site.store, entries);
  }

  /** A change to one cold artifact: everything else is as it was, but for directories above it. */
  ghost predicate ColdStep(fs: Files, next: Files, dir: Path) {
    && Tree(next) && dir != [] && (forall p :: p in fs && !(dir <= p) ==> p in next && next[p] == fs[p])
    && forall p :: p in next && p !in fs && !(dir <= p) ==> p <= Dir(dir) && next[p].Folder?
  }

  /** On the hot side nothing is new and nothing changes. */
  lemma HotUntouched(fs: Files, next: Files, site: Site, dir: Path, p: Path)
    requires Apart(site.hot, site.cold) && site.cold <= dir && ColdStep(fs, next, dir) && site.hot <= p
    ensures p in next <==> p in fs
    ensures p in fs ==> next[p] == fs[p]
  {
    HotNotCold(site, p);
    ApartBelow(site.cold, p, dir);
    if p in next && p !in fs {
      PrefixOfDir(p, dir);
    }
  }

  /** On the way to a hot place only directories are new. */
  lemma WayUntouched(fs: Files, next: Files, site: Site, dir: Path, x: Path)
    requires Apart(site.hot, site.cold) && site.cold <= dir && ColdStep(fs, next, dir) && site.hot <= x
    ensures Cache.Straight(fs, x) ==> Cache.Straight(next, x)
    ensures Clear(fs, x) ==> Clear(next, x)
  {
    HotNotCold(site, x);
    ApartBelow(site.cold, x, dir);
    forall i | 0 < i <= |x| && x[..i] in next
      ensures (x[..i] in fs && next[x[..i]] == fs[x[..i]]) || next[x[..i]].Folder?
    {
      var p := x[..i];
      assert p <= x;
      if dir <= p {
        PrefixTrans(dir, p, x);
      }
    }
  }

  lemma InvArchived(fs: Files, next: Files, site: Site, dir: Path)
    requires Planned(site) && Cache.Inv(fs, site.hot, site.specs) && site.cold <= dir && ColdStep(fs, next, dir)
    ensures Cache.Inv(next, site.hot, site.specs)
  {
    var hot, specs := site.hot, site.specs;
    assert hot <= Cache.Area(hot);
    WayUntouched(fs, next, site, dir, Cache.Area(hot));
    forall p | p in next && Cache.Area(hot) <= p ensures !next[p].Link? {
      PrefixTrans(hot, Cache.Area(hot), p);
      HotUntouched(fs, next, site, dir, p);
    }
    forall k | k in specs.known ensures Cache.StraightAbove(next, Cache.Payload(hot, specs.known[k])) {
      assert Cache.StraightAbove(fs, Cache.Payload(hot, specs.known[k]));
      Cache.PlacesApart(hot, specs.known[k]);
      assert hot <= Dir(Cache.Payload(hot, specs.known[k]));
      WayUntouched(fs, next, site, dir, Dir(Cache.Payload(hot, specs.known[k])));
    }
    forall k ensures Cache.MarkerSound(next, hot, specs, k) {
      MarkerArchived(fs, next, site, dir, k);
    }
  }

  lemma MarkerArchived(fs: Files, next: Files, site: Site, dir: Path, k: string)
    requires Planned(site) && Cache.MarkerSound(fs, site.hot, site.specs, k) && site.cold <= dir
    requires ColdStep(fs, next, dir)
    ensures Cache.MarkerSound(next, site.hot, site.specs, k)
    ensures Cache.Marker(site.hot, k) + [Archive.COMPLETE] in fs <==>
              Cache.Marker(site.hot, k) + [Archive.COMPLETE] in next
  {
    var hot, specs := site.hot, site.specs;
    var c, s := Cache.Marker(hot, k) + [Archive.COMPLETE], Cache.Marker(hot, k) + [Cache.SPEC];
    assert hot <= c && hot <= s;
    HotUntouched(fs, next, site, dir, c);
    HotUntouched(fs, next, site, dir, s);
    if c in next {
      var q, h := Cache.Payload(hot, specs.known[k]), Archive.HotBlobs(hot);
      Cache.PlacesApart(hot, specs.known[k]);
      assert hot <= h;
      forall p | p in fs && (q <= p || h <= p) ensures p in next && next[p] == fs[p] {
        PrefixTrans(hot, if q <= p then q else h, p);
        HotUntouched(fs, next, site, dir, p);
      }
      Cache.StandsKept(fs, next, hot, specs, k);
    }
  }

  lemma ArtifactsApart(cold: Path, k: string, l: string)
    requires k != l
    ensures Apart(Artifact(cold, k), Artifact(cold, l))
  {
    assert Artifact(cold, k)[|cold| + 1] == k && Artifact(cold, l)[|cold| + 1] == l;
  }

  /** The other cold artifacts are as they were. */
  lemma OtherArchived(fs: Files, next: Files, site: Site, k: string, l: string)
    requires ColdSound(fs, site, l) && ColdStep(fs, next, Artifact(site.cold, k)) && k != l
    ensures ColdSound(next, site, l)
  {
    var dir, other := Artifact(site.cold, k), Artifact(site.cold, l);
    ArtifactsApart(site.cold, k, l);
    forall i | 0 < i <= |other| && other[..i] in next ensures next[other[..i]].Folder? {
      var head := other[..i];
      assert head <= other;
      if dir <= head {
        PrefixTrans(dir, head, other);
      }
    }
    var c := other + [Archive.COMPLETE];
    assert other <= c;
    ApartBelow(other, dir, c);
    if c in next {
      PrefixOfDir(c, dir);
      var archived, entries, files, items :| ColdFor(fs, site, l, archived, entries, files, items);
      forall p | p in fs && other <= p ensures p in next && next[p] == fs[p] {
        ApartBelow(other, dir, p);
      }
      RoundTrip.ColdLater(fs, next, other, archived, site.store, entries, files, items);
      assert ColdFor(next, site, l, archived, entries, files, items);
    }
  }

  lemma LegacyArchived(fs: Files, next: Files, site: Site, dir: Path)
    requires Apart(site.hot, site.cold) && site.cold <= dir && ColdStep(fs, next, dir) && LegacyStore(fs, site)
    ensures LegacyStore(next, site)
  {
    var l, h := Repair.LegacyBlobs(site.hot), Archive.HotBlobs(site.hot);
    assert site.hot <= l && site.hot <= h;
    HotUntouched(fs, next, site, dir, h);
    forall p | p in next && l <= p ensures p in fs && next[p] == fs[p] {
      PrefixTrans(site.hot, l, p);
      HotUntouched(fs, next, site, dir, p);
    }
    LegacyKept(fs, next, site);
  }

  lemma ShelfArchived(fs: Files, next: Files, site: Site, k: string)
    requires Planned(site) && Sound(fs, site) && ColdStep(fs, next, Artifact(site.cold, k)) && ColdSound(next, site, k)
    ensures Sound(next, site)
    ensures forall l :: Cache.Marker(site.hot, l) + [Archive.COMPLETE] in fs <==>
              Cache.Marker(site.hot, l) + [Archive.COMPLETE] in next
  {
    var dir, h := Artifact(site.cold, k), Archive.HotBlobs(site.hot);
    assert site.cold <= dir && site.hot <= h;
    InvArchived(fs, next, site, dir);
    WayUntouched(fs, next, site, dir, h);
    forall n | h + [n] in next ensures h + [n] in fs && next[h + [n]] == fs[h + [n]] {
      assert site.hot <= h + [n];
      HotUntouched(fs, next, site, dir, h + [n]);
    }
    LegacyArchived(fs, next, site, dir);
    forall l | FileKey(site, l)
      ensures Clear(next, Parent(site, l)) && ColdSound(next, site, l)
    {
      Cache.PlacesApart(site.hot, site.specs.known[l]);
      assert site.hot <= Parent(site, l);
      WayUntouched(fs, next, site, dir, Parent(site, l));
      if l != k {
        OtherArchived(fs, next, site, k, l);
      }
    }
    forall l
      ensures Cache.Marker(site.hot, l) + [Archive.COMPLETE] in fs <==>
                Cache.Marker(site.hot, l) + [Archive.COMPLETE] in next
    {
      assert Cache.MarkerSound(fs, site.hot, site.specs, l);
      MarkerArchived(fs, next, site, dir, l);
    }
  }

  /**
   * Archiving an installed file artifact succeeds and keeps everything sound: the cold artifact can be promoted,
   * and no marker, payload or other cold artifact is touched.
   */
  lemma ArchiveKeeps(fs: Files, site: Site, spec: CacheSpec, temp: string, items: seq<Item>)
    requires Planned(site) && Sound(fs, site) && Known(site, spec) && spec.kind == CacheKeys.FILES
    requires Cache.Installed(fs, site.hot, site.specs.known[Cache.KeyOf(spec)])
    requires Proper(temp) && temp != Cache.KeyOf(spec) && Artifact(site.cold, temp) !in fs
    requires var dir := Artifact(site.cold, Cache.KeyOf(spec));
             RoundTrip.Inventory(
               RoundTrip.CopyStaged(RoundTrip.Started(fs, dir, temp), spec, site.hot, Dir(dir) + [temp]).fs,
               Dir(dir) + [temp, Archive.PAYLOAD], items)
    ensures var o := RoundTrip.ArchiveHot(fs, spec, site.hot, Artifact(site.cold, Cache.KeyOf(spec)), temp, items);
            && o.ok && Sound(o.fs, site)
            && (spec.files != [] ==>
                  RoundTrip.ManifestFor(o.fs, Artifact(site.cold, Cache.KeyOf(spec)), spec) == Some(items))
            && forall l :: Cache.Marker(site.hot, l) + [Archive.COMPLETE] in fs <==>
                  Cache.Marker(site.hot, l) + [Archive.COMPLETE] in o.fs
  {
    var k := Cache.KeyOf(spec);
    var dir := Artifact(site.cold, k);
    var entries := InstalledIsArchivable(fs, site, spec);
    ArchiveIsReady(fs, site, spec, temp);
    RoundTrip.ArchiveWorks(fs, spec, site.hot, dir, temp, site.store, entries, items);
    var next := RoundTrip.ArchiveHot(fs, spec, site.hot, dir, temp, items).fs;
    assert ColdStep(fs, next, dir);
    assert ColdFor(next, site, k, spec, entries, RoundTrip.Rests(items), items);
    RoundTrip.FolderClear(next, dir);
    ShelfArchived(fs, next, site, k);
    if spec.files != [] {
      assert spec.files[0] in entries;
      assert spec.files[0] in RoundTrip.Rests(items);
      RoundTrip.ManifestFound(next, dir, spec, site.store, entries, RoundTrip.Rests(items), items);
    }
  }

  /** The files of an installed artifact can all be copied to the staging directory. */
  lemma CopyWorks(fs: Files, site: Site, spec: CacheSpec, temp: string)
    requires Planned(site) && Sound(fs, site) && Known(site, spec) && spec.kind == CacheKeys.FILES
    requires Cache.Installed(fs, site.hot, site.specs.known[Cache.KeyOf(spec)])
    requires Proper(temp) && temp != Cache.KeyOf(spec) && Artifact(site.cold, temp) !in fs
    ensures var dir := Artifact(site.cold, Cache.KeyOf(spec));
            var made := MkdirAll(fs, Dir(dir));
            && made.ok && Place(made.fs, Dir(dir) + [temp]) == Some(Dir(dir) + [temp]) && Dir(dir) + [temp] !in made.fs
            && made.fs[Dir(dir) + [temp] := Folder] == RoundTrip.Started(fs, dir, temp)
            && RoundTrip.CopyStaged(RoundTrip.Started(fs, dir, temp), spec, site.hot, Dir(dir) + [temp]).ok
  {
    var dir := Artifact(site.cold, Cache.KeyOf(spec));
    var entries := InstalledIsArchivable(fs, site, spec);
    ArchiveIsReady(fs, site, spec, temp);
    RoundTrip.ArchiveStarts(fs, dir, temp);
    var start := RoundTrip.Started(fs, dir, temp);
    RoundTrip.ArchivablePending(fs, start, site.hot, spec, site.store, entries);
    RoundTrip.CopiesStaged(start, spec, site.hot, Dir(dir) + [temp], site.store, entries);
  }

  lemma ArchiveIsReady(fs: Files, site: Site, spec: CacheSpec, temp: string)
    requires Planned(site) && Sound(fs, site) && Known(site, spec) && spec.kind == CacheKeys.FILES
    requires Proper(temp) && temp != Cache.KeyOf(spec) && Artifact(site.cold, temp) !in fs
    ensures RoundTrip.ColdReady(fs, Artifact(site.cold, Cache.KeyOf(spec)), temp)
  {
    var k := Cache.KeyOf(spec);
    var dir := Artifact(site.cold, k);
    ColdNames();
    KnownFits(site, spec);
    assert FileKey(site, k) && ColdSound(fs, site, k);
    ClearShorter(fs, dir);
    assert Dir(dir) + [temp] == Artifact(site.cold, temp) && Base(dir) == k;
  }
}
