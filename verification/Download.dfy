/**
 * Downloading a file artifact (cmd/llm-proxy/cache_manager.go, downloadToHot): a fresh staging directory, the
 * download tool, the copy loop, and the removal of the staging directory.
 */
module Download {
  import opened Prelude
  import opened Paths
  import opened FileSystem
  import opened Layout
  import opened Archive
  import Cache
  import CacheKeys
  import ColdStore
  import Repair
  import RoundTrip

  const STAGING := "staging.staging-"

  /** Where the tool puts the requested files of the revision. */
  function Snapshot(staging: Path, spec: CacheSpec): Path {
    staging + ["hub", "models--" + Cache.Dashed(spec.repo), "snapshots", spec.revision]
  }

  /** What follows a run of the download tool: the copy loop if it succeeded, and the staging directory's removal. */
  function Finished(got: Outcome, hot: Path, spec: CacheSpec, staging: Path): Outcome {
    var o :=
      if got.ok then CopyFiles(got.fs, Snapshot(staging, spec), hot + spec.target, HotBlobs(hot), spec.files) else got;
    Outcome(o.ok, RemoveAll(o.fs, staging))
  }

  /** downloadToHot of a file artifact; `temp` is the name os.MkdirTemp picked and `tool` the run of the tool. */
  function DownloadFiles(fs: Files, hot: Path, spec: CacheSpec, temp: string, tool: Files -> Outcome): Outcome {
    var staging := hot + [temp];
    var made := MkdirAll(fs, hot);
    var s := Place(made.fs, staging);
    if !made.ok || s.None? || s.value in made.fs then Outcome(false, made.fs)
    else Finished(tool(made.fs[s.value := Folder]), hot, spec, staging)
  }

  // ------------------------------------------------------------------ the contract of the tool

  /** The snapshot holds the requested files, linked blobs under content addresses. */
  ghost predicate Holding(fs: Files, site: ColdStore.Site, spec: CacheSpec, staging: Path, entries: map<Path, Entry>) {
    && (forall f :: f in entries <==> f in spec.files)
    && forall f :: f in entries ==> Holds(fs, Snapshot(staging, spec) + f, site.store, entries[f])
  }

  /** A run of the tool adds to the staging directory only, and after success the snapshot is there. */
  ghost predicate Fetched(fs: Files, o: Outcome, site: ColdStore.Site, spec: CacheSpec, staging: Path) {
    && Tree(o.fs) && Extends(fs, o.fs) && (forall p :: p in o.fs && p !in fs ==> staging <= p)
    && (o.ok ==> exists entries :: Holding(o.fs, site, spec, staging, entries))
  }

  /** The contract of the download tool. */
  ghost predicate Fetches(tool: (nat, Files, CacheSpec, Path) -> Outcome, site: ColdStore.Site) {
    forall n, fs, spec, staging :: Tree(fs) && RoundTrip.EmptyFolder(fs, staging) ==>
      Fetched(fs, tool(n, fs, spec, staging), site, spec, staging)
  }

  // ------------------------------------------------------------------ the staging directory

  /** The staging directory lies beside everything the cache needs. */
  lemma StagingApart(hot: Path, spec: CacheSpec, suffix: string)
    requires Cache.Fits(hot, spec)
    ensures var staging := hot + [STAGING + suffix];
            Apart(staging, Cache.Payload(hot, spec)) && Apart(staging, HotBlobs(hot))
  {
    Cache.MarkerNames();
    var staging, q, h := hot + [STAGING + suffix], Cache.Payload(hot, spec), HotBlobs(hot);
    assert |STAGING| == 16 && |STAGING + suffix| >= 16;
    assert staging[|hot|] == STAGING + suffix && h[|hot|] == GGUF;
    assert q[|hot|] == if spec.kind == CacheKeys.HUB then "hub" else GGUF;
  }

  /** Only directories above the hot root can be missing before the staging directory is made. */
  lemma RootMade(fs: Files, site: ColdStore.Site, spec: CacheSpec)
    requires ColdStore.Cleared(fs, site, spec) && IsPath(site.hot)
    ensures var made := WithFolders(fs, site.hot);
            && MkdirAll(fs, site.hot) == Outcome(true, made) && Tree(made) && Extends(fs, made)
            && IsFolder(made, site.hot)
            && forall p :: p in made && p !in fs ==> p != [] && p <= site.hot && made[p].Folder?
  {
    var hot, h := site.hot, HotBlobs(site.hot);
    assert forall i :: 0 < i <= |hot| ==> hot[..i] == h[..i];
    MkdirAllClear(fs, hot);
    WithFoldersKeeps(fs, hot);
    forall p | p in WithFolders(fs, hot) && p !in fs
      ensures p != [] && p <= hot && WithFolders(fs, hot)[p].Folder?
    {
      WithFoldersIs(fs, hot, p);
    }
  }

  /** Before the copy loop: directories above the hot root and the staging directory are all that is new. */
  ghost predicate Grown(rest: Files, cur: Files, hot: Path, staging: Path) {
    && Tree(cur) && Extends(rest, cur) && IsFolder(cur, hot) && staging !in rest
    && forall p :: p in cur && p !in rest ==> (p <= hot && cur[p].Folder?) || staging <= p
  }

  lemma Starts(rest: Files, site: ColdStore.Site, spec: CacheSpec, temp: string)
    requires ColdStore.Cleared(rest, site, spec) && IsPath(site.hot) && Proper(temp) && site.hot + [temp] !in rest
    ensures var staging, made := site.hot + [temp], WithFolders(rest, site.hot);
            var start := made[staging := Folder];
            && Place(made, staging) == Some(staging) && staging !in made
            && RoundTrip.EmptyFolder(start, staging) && Grown(rest, start, site.hot, staging)
  {
    var hot := site.hot;
    RootMade(rest, site, spec);
    WithFoldersIs(rest, hot, hot + [temp]);
    RoundTrip.StagingMade(WithFolders(rest, hot), hot, temp);
    ExtendsTrans(rest, WithFolders(rest, hot), WithFolders(rest, hot)[hot + [temp] := Folder]);
  }

  /** The state in which the copy loop starts is a stage with nothing laid out. */
  lemma StageReady(rest: Files, cur: Files, site: ColdStore.Site, spec: CacheSpec, staging: Path)
    requires ColdStore.Cleared(rest, site, spec) && spec.kind == CacheKeys.FILES && Grown(rest, cur, site.hot, staging)
    requires Apart(staging, Cache.Payload(site.hot, spec)) && Apart(staging, HotBlobs(site.hot)) && IsPath(site.hot)
    requires Cache.Payload(site.hot, spec) == site.hot + spec.target
    requires Clear(rest, Dir(Cache.Payload(site.hot, spec)))
    ensures Sound(HotPlan(site.hot, spec.target, site.store))
    ensures Stage(cur, HotPlan(site.hot, spec.target, site.store), map[])
    ensures forall p :: p in cur ==> !(site.hot + spec.target <= p)
  {
    var hot, root, h := site.hot, site.hot + spec.target, HotBlobs(site.hot);
    Cache.PlacesApart(hot, spec);
    StorePath(hot);
    forall p | p in cur ensures !(root <= p) {
      NothingThere(rest, cur, site, spec, staging, p);
    }
    GrownClear(rest, cur, hot, staging, h);
    assert Dir(root) <= root;
    if staging <= Dir(root) {
      PrefixTrans(staging, Dir(root), root);
    }
    GrownClear(rest, cur, hot, staging, Dir(root));
    ClearLonger(cur, root);
    GrownBlobs(rest, cur, site, staging);
  }

  lemma StorePath(hot: Path)
    requires IsPath(hot)
    ensures IsPath(HotBlobs(hot))
  {
    Repair.StoreNames(hot);
  }

  /** A name that is free in a clear directory is clear. */
  lemma ClearLonger(fs: Files, p: Path)
    requires p != [] && Clear(fs, Dir(p)) && p !in fs
    ensures Clear(fs, p)
  {
    forall i | 0 < i <= |p| && p[..i] in fs ensures fs[p[..i]].Folder? {
      assert p[..|p|] == p;
      assert i < |p| && p[..i] == Dir(p)[..i];
    }
  }

  lemma GrownBlobs(rest: Files, cur: Files, site: ColdStore.Site, staging: Path)
    requires Grown(rest, cur, site.hot, staging) && ColdStore.Blobs(rest, site) && Apart(staging, HotBlobs(site.hot))
    ensures ColdStore.Blobs(cur, site)
  {
    var h := HotBlobs(site.hot);
    forall n | h + [n] in cur ensures h + [n] in rest {
      assert h <= h + [n];
      ApartBelow(h, staging, h + [n]);
    }
  }

  lemma NothingThere(rest: Files, cur: Files, site: ColdStore.Site, spec: CacheSpec, staging: Path, p: Path)
    requires ColdStore.Cleared(rest, site, spec) && Grown(rest, cur, site.hot, staging) && p in cur
    requires Apart(staging, Cache.Payload(site.hot, spec))
    ensures !(Cache.Payload(site.hot, spec) <= p)
  {
    var q := Cache.Payload(site.hot, spec);
    Cache.PlacesApart(site.hot, spec);
    if q <= p {
      ApartBelow(q, staging, p);
    }
  }

  lemma GrownClear(rest: Files, cur: Files, hot: Path, staging: Path, x: Path)
    requires Grown(rest, cur, hot, staging) && Clear(rest, x) && !(staging <= x)
    ensures Clear(cur, x)
  {
    forall i | 0 < i <= |x| && x[..i] in cur ensures cur[x[..i]].Folder? {
      assert x[..i] <= x;
      if staging <= x[..i] {
        PrefixTrans(staging, x[..i], x);
      }
    }
  }

  // ------------------------------------------------------------------ the copy loop

  lemma CopyLays(
      cur: Files, site: ColdStore.Site, spec: CacheSpec, staging: Path, entries: map<Path, Entry>)
    requires Sound(HotPlan(site.hot, spec.target, site.store))
    requires Stage(cur, HotPlan(site.hot, spec.target, site.store), map[])
    requires Holding(cur, site, spec, staging, entries) && Distinct(spec.files) && [] !in spec.files
    ensures var o := CopyFiles(cur, Snapshot(staging, spec), site.hot + spec.target, HotBlobs(site.hot), spec.files);
            var plan := HotPlan(site.hot, spec.target, site.store);
            o.ok && Stage(o.fs, plan, entries) && Extends(cur, o.fs) && AddsOnly(cur, o.fs, plan)
  {
    var source := Snapshot(staging, spec);
    RoundTrip.HeldArePrefixFree(cur, source, site.store, entries);
    forall f | f in spec.files ensures f in entries && Named(f, entries[f]) {
      RoundTrip.HeldIsNamed(cur, source, site.store, f, entries[f]);
    }
    RoundTrip.PlusAll(entries, spec.files);
    CopyFilesLays(cur, HotPlan(site.hot, spec.target, site.store), map[], source, entries, spec.files);
  }

  // ------------------------------------------------------------------ the end

  /** After the copy loop or without it: what is new lies where filling the payload may put it, or in staging. */
  ghost predicate Ended(rest: Files, cur: Files, site: ColdStore.Site, spec: CacheSpec, staging: Path) {
    && Tree(cur) && Extends(rest, cur) && IsFolder(cur, site.hot) && staging !in rest
    && ColdStore.Blobs(cur, site) && Clear(cur, HotBlobs(site.hot))
    && forall p :: p in cur && p !in rest ==> staging <= p || Cache.NewPath(cur, site.hot, spec, p)
  }

  /** Removing the staging directory leaves a filling of the payload. */
  lemma Swept(fs: Files, cur: Files, ok: bool, site: ColdStore.Site, spec: CacheSpec, temp: string)
    requires var q := Cache.Payload(site.hot, spec);
             && Ended(Without(fs, q), cur, site, spec, site.hot + [temp]) && Cache.Fits(site.hot, spec)
             && Apart(site.hot + [temp], q) && Apart(site.hot + [temp], HotBlobs(site.hot)) && Tree(fs)
    requires ok ==> Cache.Installed(cur, site.hot, spec)
    ensures ColdStore.Fills(fs, Outcome(ok, RemoveAll(cur, site.hot + [temp])), site, spec)
  {
    var staging, q, h := site.hot + [temp], Cache.Payload(site.hot, spec), HotBlobs(site.hot);
    var rest, end := Without(fs, q), Without(cur, staging);
    assert Dir(staging) == site.hot;
    PlaceOfReal(cur, staging);
    RoundTrip.WithoutTree(fs, q);
    RoundTrip.WithoutTree(cur, staging);
    RoundTrip.WithoutClear(cur, staging, h);
    forall p | p in rest ensures p in end && end[p] == rest[p] {
      if staging <= p {
        RoundTrip.AbsentBelow(rest, staging, p);
      }
    }
    if ok {
      SweptInstalled(cur, site, spec, staging);
    }
    ColdStore.ClearedFills(fs, Outcome(ok, end), site, spec);
  }

  lemma SweptInstalled(cur: Files, site: ColdStore.Site, spec: CacheSpec, staging: Path)
    requires Cache.Installed(cur, site.hot, spec)
    requires Apart(staging, Cache.Payload(site.hot, spec)) && Apart(staging, HotBlobs(site.hot))
    ensures Cache.Installed(Without(cur, staging), site.hot, spec)
  {
    var q, h := Cache.Payload(site.hot, spec), HotBlobs(site.hot);
    forall p | p in cur && (q <= p || h <= p) ensures !(staging <= p) {
      ApartBelow(if q <= p then q else h, staging, p);
    }
    Cache.InstalledKept(cur, Without(cur, staging), site.hot, spec);
  }

  lemma GrownEnds(rest: Files, cur: Files, site: ColdStore.Site, spec: CacheSpec, staging: Path)
    requires ColdStore.Cleared(rest, site, spec) && Grown(rest, cur, site.hot, staging)
    requires Apart(staging, HotBlobs(site.hot))
    ensures Ended(rest, cur, site, spec, staging)
  {
    Cache.PlacesApart(site.hot, spec);
    GrownClear(rest, cur, site.hot, staging, HotBlobs(site.hot));
    GrownBlobs(rest, cur, site, staging);
    forall p | p in cur && p !in rest ensures staging <= p || Cache.NewPath(cur, site.hot, spec, p) {
      if !(staging <= p) {
        PrefixTrans(p, site.hot, Cache.Payload(site.hot, spec));
      }
    }
  }

  lemma CopiedEnds(
      rest: Files, cur: Files, next: Files, site: ColdStore.Site, spec: CacheSpec, staging: Path, entries: map<Path,
      Entry>)
    requires ColdStore.Cleared(rest, site, spec) && spec.kind == CacheKeys.FILES && Grown(rest, cur, site.hot, staging)
    requires Apart(staging, HotBlobs(site.hot)) && (forall p :: p in cur ==> !(site.hot + spec.target <= p))
    requires Stage(next, HotPlan(site.hot, spec.target, site.store), entries)
    requires (forall f :: f in spec.files ==> f in entries)
    requires Extends(cur, next) && AddsOnly(cur, next, HotPlan(site.hot, spec.target, site.store))
    ensures Ended(rest, next, site, spec, staging) && Cache.Installed(next, site.hot, spec)
  {
    Cache.KindsAreTwo();
    GrownEnds(rest, cur, site, spec, staging);
    ExtendsTrans(rest, cur, next);
    Cache.StagedInstalled(next, site.hot, spec, site.store, entries);
    assert Without(cur, site.hot + spec.target) == cur;
    forall p | p in next && p !in rest ensures staging <= p || Cache.NewPath(next, site.hot, spec, p) {
      if p in cur {
        assert staging <= p || Cache.NewPath(cur, site.hot, spec, p);
      } else {
        Cache.StagedNew(cur, next, site.hot, spec, site.store, entries, p);
      }
    }
  }

  /** What the tool adds is in the staging directory. */
  lemma ToolGrows(rest: Files, start: Files, cur: Files, hot: Path, staging: Path)
    requires Grown(rest, start, hot, staging) && Tree(cur) && Extends(start, cur)
    requires forall p :: p in cur && p !in start ==> staging <= p
    ensures Grown(rest, cur, hot, staging)
  {
    ExtendsTrans(rest, start, cur);
    forall p | p in cur && p !in rest ensures (p <= hot && cur[p].Folder?) || staging <= p {
      if p in start {
        assert cur[p] == start[p];
      }
    }
  }

  /** The name of the staging directory is taken: nothing but directories above the hot root has been made. */
  lemma TakenName(fs: Files, site: ColdStore.Site, spec: CacheSpec, suffix: string)
    requires ColdStore.Planned(site) && ColdStore.Sound(fs, site) && ColdStore.Known(site, spec)
    ensures var rest := Without(fs, Cache.Payload(site.hot, spec));
            ColdStore.Fills(fs, Outcome(false, WithFolders(rest, site.hot)), site, spec)
  {
    var rest, hot, h := Without(fs, Cache.Payload(site.hot, spec)), site.hot, HotBlobs(site.hot);
    ColdStore.ClearedFirst(fs, site, spec);
    ColdStore.KnownFits(site, spec);
    Cache.PlacesApart(hot, spec);
    RootMade(rest, site, spec);
    var made := WithFolders(rest, hot);
    forall p | p in made && p !in rest ensures Cache.NewPath(made, hot, spec, p) {
      PrefixTrans(p, hot, Cache.Payload(hot, spec));
    }
    forall n | h + [n] in made ensures h + [n] in rest {
      assert |h + [n]| > |hot|;
    }
    forall i | 0 < i <= |h| && h[..i] in made ensures made[h[..i]].Folder? {
      if h[..i] in rest {
        assert rest[h[..i]].Folder?;
      }
    }
    ColdStore.ClearedFills(fs, Outcome(false, made), site, spec);
  }

  lemma ToolSucceeded(fs: Files, cur: Files, site: ColdStore.Site, spec: CacheSpec, suffix: string)
    requires ColdStore.Planned(site) && ColdStore.Sound(fs, site) && ColdStore.Known(site, spec)
    requires spec.kind == CacheKeys.FILES
    requires Grown(Without(fs, Cache.Payload(site.hot, spec)), cur, site.hot, site.hot + [STAGING + suffix])
    requires exists entries :: Holding(cur, site, spec, site.hot + [STAGING + suffix], entries)
    ensures var staging := site.hot + [STAGING + suffix];
            var o := CopyFiles(cur, Snapshot(staging, spec), site.hot + spec.target, HotBlobs(site.hot), spec.files);
            o.ok && ColdStore.Fills(fs, Outcome(o.ok, RemoveAll(o.fs, staging)), site, spec)
  {
    var rest, staging := Without(fs, Cache.Payload(site.hot, spec)), site.hot + [STAGING + suffix];
    var entries :| Holding(cur, site, spec, staging, entries);
    ColdStore.ClearedFirst(fs, site, spec);
    ColdStore.KnownFits(site, spec);
    Cache.KindsAreTwo();
    StagingApart(site.hot, spec, suffix);
    ParentClear(fs, site, spec);
    StageReady(rest, cur, site, spec, staging);
    CopyLays(cur, site, spec, staging, entries);
    var next := CopyFiles(cur, Snapshot(staging, spec), site.hot + spec.target, HotBlobs(site.hot), spec.files).fs;
    CopiedEnds(rest, cur, next, site, spec, staging, entries);
    Swept(fs, next, true, site, spec, STAGING + suffix);
  }

  lemma ParentClear(fs: Files, site: ColdStore.Site, spec: CacheSpec)
    requires ColdStore.Planned(site) && ColdStore.Sound(fs, site) && ColdStore.Known(site, spec)
    requires spec.kind == CacheKeys.FILES
    ensures var q := Cache.Payload(site.hot, spec); q != [] && Clear(Without(fs, q), Dir(q))
    ensures Distinct(spec.files) && [] !in spec.files
  {
    var q, k := Cache.Payload(site.hot, spec), Cache.KeyOf(spec);
    ColdStore.KnownFits(site, spec);
    Cache.PlacesApart(site.hot, spec);
    assert ColdStore.FileKey(site, k);
    assert ColdStore.Parent(site, k) == Dir(q);
    RoundTrip.WithoutClear(fs, q, Dir(q));
  }

  /** Clearing the payload and stopping there is within the bounds. */
  lemma OnlyCleared(fs: Files, site: ColdStore.Site, spec: CacheSpec)
    requires ColdStore.Planned(site) && ColdStore.Sound(fs, site) && ColdStore.Known(site, spec)
    ensures ColdStore.Fills(fs, Outcome(false, RemoveAll(fs, Cache.Payload(site.hot, spec))), site, spec)
  {
    ColdStore.ClearedFirst(fs, site, spec);
    ColdStore.ClearedFills(fs, Outcome(false, Without(fs, Cache.Payload(site.hot, spec))), site, spec);
  }

  /**
   * Downloading a file artifact fills its cleared payload within its bounds, and installs it if the tool has
   * succeeded: all that is asked is that the tool keeps to the staging directory and leaves the snapshot there.
   */
  lemma DownloadFills(
      fs: Files, site: ColdStore.Site, spec: CacheSpec, suffix: string, tool: (nat, Files, CacheSpec, Path) -> Outcome,
      n: nat)
    requires ColdStore.Planned(site) && ColdStore.Sound(fs, site) && ColdStore.Known(site, spec)
    requires spec.kind == CacheKeys.FILES && Proper(STAGING + suffix) && Fetches(tool, site)
    ensures var rest, staging := RemoveAll(fs, Cache.Payload(site.hot, spec)), site.hot + [STAGING + suffix];
            var o := DownloadFiles(rest, site.hot, spec, STAGING + suffix, cur => tool(n, cur, spec, staging));
            ColdStore.Fills(fs, o, site, spec)
  {
    var rest, temp := Without(fs, Cache.Payload(site.hot, spec)), STAGING + suffix;
    var staging := site.hot + [temp];
    ColdStore.ClearedFirst(fs, site, spec);
    RootMade(rest, site, spec);
    var made := WithFolders(rest, site.hot);
    if staging in made {
      TakenName(fs, site, spec, suffix);
      NameIsTaken(rest, site.hot, spec, temp, cur => tool(n, cur, spec, staging));
    } else {
      WithFoldersIs(rest, site.hot, staging);
      Starts(rest, site, spec, temp);
      var start := made[staging := Folder];
      ToolFills(fs, start, tool(n, start, spec, staging), site, spec, suffix);
      NameIsFree(rest, site.hot, spec, temp, cur => tool(n, cur, spec, staging));
    }
  }

  lemma NameIsTaken(rest: Files, hot: Path, spec: CacheSpec, temp: string, tool: Files -> Outcome)
    requires MkdirAll(rest, hot) == Outcome(true, WithFolders(rest, hot)) && Tree(WithFolders(rest, hot))
    requires IsFolder(WithFolders(rest, hot), hot) && hot + [temp] in WithFolders(rest, hot)
    ensures DownloadFiles(rest, hot, spec, temp, tool) == Outcome(false, WithFolders(rest, hot))
  {
    assert Dir(hot + [temp]) == hot;
    PlaceOfReal(WithFolders(rest, hot), hot + [temp]);
  }

  lemma NameIsFree(rest: Files, hot: Path, spec: CacheSpec, temp: string, tool: Files -> Outcome)
    requires MkdirAll(rest, hot) == Outcome(true, WithFolders(rest, hot)) && hot + [temp] !in WithFolders(rest, hot)
    requires Place(WithFolders(rest, hot), hot + [temp]) == Some(hot + [temp])
    ensures var staging, got := hot + [temp], tool(WithFolders(rest, hot)[hot + [temp] := Folder]);
            DownloadFiles(rest, hot, spec, temp, tool) == Finished(got, hot, spec, staging)
  {
  }

  lemma ToolFills(fs: Files, start: Files, got: Outcome, site: ColdStore.Site, spec: CacheSpec, suffix: string)
    requires ColdStore.Planned(site) && ColdStore.Sound(fs, site) && ColdStore.Known(site, spec)
    requires spec.kind == CacheKeys.FILES
    requires Grown(Without(fs, Cache.Payload(site.hot, spec)), start, site.hot, site.hot + [STAGING + suffix])
    requires Fetched(start, got, site, spec, site.hot + [STAGING + suffix])
    ensures ColdStore.Fills(fs, Finished(got, site.hot, spec, site.hot + [STAGING + suffix]), site, spec)
  {
    var rest, staging := Without(fs, Cache.Payload(site.hot, spec)), site.hot + [STAGING + suffix];
    ToolGrows(rest, start, got.fs, site.hot, staging);
    if got.ok {
      ToolSucceeded(fs, got.fs, site, spec, suffix);
    } else {
      ColdStore.ClearedFirst(fs, site, spec);
      ColdStore.KnownFits(site, spec);
      StagingApart(site.hot, spec, suffix);
      GrownEnds(rest, got.fs, site, spec, staging);
      Swept(fs, got.fs, false, site, spec, STAGING + suffix);
    }
  }
}
