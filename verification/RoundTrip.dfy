/**
 * Archiving a file artifact to cold storage and promoting it back (cmd/llm-proxy/cache_manager.go,
 * archiveHot, writeArtifactManifest, artifactManifestFor, clearMaterialized, materialize).
 */
module RoundTrip {
  import opened Prelude
  import opened Paths
  import opened FileSystem
  import opened Layout
  import opened Archive

  const MANIFEST := "artifact.json"

  // ------------------------------------------------------------------ the manifest

  predicate Recorded(n: Node, item: Item) {
    match n
    case Folder => false
    case File(d) => item.link.None? && item.size == Size(d) && item.digest == Some(Digest(d))
    case Link(t) => item.link == Some(t) && item.size == 0 && item.digest.None?
  }

  /** artifactInventory: every regular file and link below `root`, each once, with what it holds. */
  predicate Inventory(fs: Files, root: Path, items: seq<Item>) {
    && (forall i :: 0 <= i < |items| ==> root + items[i].path in fs && Recorded(fs[root + items[i].path], items[i]))
    && (forall p :: p in fs && root <= p && !fs[p].Folder? ==> Listed(root, items, p))
    && (forall i, j :: 0 <= i < j < |items| ==> items[i].path != items[j].path)
  }

  predicate Listed(root: Path, items: seq<Item>, p: Path) {
    exists i :: 0 <= i < |items| && root + items[i].path == p
  }

  /** The manifest entries stand for these files, in this order. */
  predicate Lists(artifact: Path, entries: map<Path, Entry>, files: seq<Path>, items: seq<Item>) {
    && |items| == |files| && Distinct(files)
    && forall i :: 0 <= i < |files| ==>
         files[i] in entries && files[i] != [] && items[i] == ItemFor(artifact, files[i], entries[files[i]])
  }

  function Rest(item: Item): Path { if item.path == [] then [] else item.path[1..] }

  function Rests(items: seq<Item>): seq<Path> { seq(|items|, i requires 0 <= i < |items| => Rest(items[i])) }

  predicate SameSpec(got: CacheSpec, want: CacheSpec) {
    && got.kind == want.kind && got.repo == want.repo && got.revision == want.revision
    && (want.size == 0 || got.size == want.size) && (want.files == [] || got.files == want.files)
  }

  /** artifactManifestFor. */
  function ManifestFor(fs: Files, dir: Path, want: CacheSpec): Option<seq<Item>> {
    if Stat(fs, dir + [COMPLETE]).None? then None
    else
      match Read(fs, dir + [MANIFEST])
      case Some(ManifestJson(version, cache, items)) =>
        if version == 1 && SameSpec(cache, want) && items != [] then Some(items) else None
      case _ => None
  }

  // ------------------------------------------------------------------ archiveHot

  function StagingPlan(staging: Path, store: Store): Plan {
    Plan(staging + [PAYLOAD], ColdRoot(staging), ColdBlobs(staging), store)
  }

  /** What archiveHot does once the files are copied: manifest, marker, and the swap into place. */
  function Finish(fs: Files, spec: CacheSpec, staging: Path, destination: Path, items: seq<Item>): Outcome {
    var m := Write(fs, staging + [MANIFEST], ManifestJson(1, spec, items));
    if !m.ok then m
    else
      var c := Write(m.fs, staging + [COMPLETE], Stamp);
      if !c.ok then c else Rename(RemoveAll(c.fs, destination), staging, destination)
  }

  /**
   * archiveHot of a file artifact.  `temp` is the name os.MkdirTemp picked and `items` the inventory of the
   * staged payload; the staging directory is removed however the operation ends.
   */
  function ArchiveHot(
      fs: Files, spec: CacheSpec, hot: Path, destination: Path, temp: string, items: seq<Item>): Outcome
    requires destination != []
  {
    var staging := Dir(destination) + [temp];
    var made := MkdirAll(fs, Dir(destination));
    var s := Place(made.fs, staging);
    if !made.ok || s.None? || s.value in made.fs then Outcome(false, made.fs)
    else
      var copied := CopyStaged(made.fs[s.value := Folder], spec, hot, staging);
      var o := if copied.ok then Finish(copied.fs, spec, staging, destination, items) else copied;
      Outcome(o.ok, RemoveAll(o.fs, staging))
  }

  function CopyStaged(fs: Files, spec: CacheSpec, hot: Path, staging: Path): Outcome {
    CopyFiles(fs, hot + spec.target, ColdRoot(staging), ColdBlobs(staging), spec.files)
  }

  /** clearMaterialized and materialize. */
  function Promote(fs: Files, artifact: Path, hot: Path, target: Path, items: seq<Item>): Outcome {
    Materialize(RemoveAll(fs, hot + target), artifact, hot, target, items)
  }

  // ------------------------------------------------------------------ from the staged files to the manifest

  lemma PayloadPath(staging: Path, path: Path, f: Path)
    ensures staging + [PAYLOAD] + path == ColdRoot(staging) + f <==> path == [FILES_DIR] + f
  {
    var p, q := staging + [PAYLOAD] + path, ColdRoot(staging) + f;
    var n := |staging| + 1;
    assert p[n..] == path && q[n..] == [FILES_DIR] + f && q == staging + [PAYLOAD] + ([FILES_DIR] + f);
  }

  lemma RecordedItem(fs: Files, staging: Path, store: Store, f: Path, e: Entry, item: Item)
    requires LaidAt(fs, ColdRoot(staging), ColdBlobs(staging), store, f, e)
    requires item.path == [FILES_DIR] + f && Recorded(fs[ColdRoot(staging) + f], item)
    ensures item == ItemFor(staging, f, e)
  {
  }

  lemma InventoryItem(fs: Files, staging: Path, store: Store, entries: map<Path, Entry>, item: Item)
    requires Stage(fs, StagingPlan(staging, store), entries)
    requires staging + [PAYLOAD] + item.path in fs && Recorded(fs[staging + [PAYLOAD] + item.path], item)
    ensures item.path == [FILES_DIR] + Rest(item) && Rest(item) in entries && Rest(item) != []
    ensures item == ItemFor(staging, Rest(item), entries[Rest(item)])
  {
    var plan := StagingPlan(staging, store);
    var p := staging + [PAYLOAD] + item.path;
    StageNodes(fs, plan, entries, p);
    var f :| f in entries && p == plan.root + f;
    PayloadPath(staging, item.path, f);
    assert Rest(item) == f;
    assert LaidAt(fs, plan.root, plan.blobs, store, f, entries[f]);
    RecordedItem(fs, staging, store, f, entries[f], item);
  }

  /** Every requested file is in the inventory. */
  lemma InventoryCovers(fs: Files, staging: Path, store: Store, entries: map<Path, Entry>, items: seq<Item>, f: Path)
    requires Stage(fs, StagingPlan(staging, store), entries) && Inventory(fs, staging + [PAYLOAD], items)
    requires f in entries
    ensures f in Rests(items)
  {
    var p := ColdRoot(staging) + f;
    assert LaidAt(fs, ColdRoot(staging), ColdBlobs(staging), store, f, entries[f]);
    assert staging + [PAYLOAD] <= p;
    assert Listed(staging + [PAYLOAD], items, p);
    var i :| 0 <= i < |items| && staging + [PAYLOAD] + items[i].path == p;
    PayloadPath(staging, items[i].path, f);
    assert Rests(items)[i] == f;
  }

  /** The inventory of a staged payload lists exactly the requested files. */
  lemma InventoryLists(fs: Files, staging: Path, store: Store, entries: map<Path, Entry>, items: seq<Item>)
    requires Stage(fs, StagingPlan(staging, store), entries) && Inventory(fs, staging + [PAYLOAD], items)
    ensures Lists(staging, entries, Rests(items), items)
    ensures forall f :: f in entries ==> f in Rests(items)
  {
    forall i | 0 <= i < |items|
      ensures items[i].path == [FILES_DIR] + Rests(items)[i] && Rests(items)[i] in entries && Rests(items)[i] != []
      ensures items[i] == ItemFor(staging, Rests(items)[i], entries[Rests(items)[i]])
    {
      InventoryItem(fs, staging, store, entries, items[i]);
    }
    forall f | f in entries ensures f in Rests(items) {
      InventoryCovers(fs, staging, store, entries, items, f);
    }
  }

  // ------------------------------------------------------------------ promoting all files

  /** The files still to be promoted, and the cold artifact they come from. */
  predicate Awaiting(
      fs: Files, store: Store, done: map<Path, Entry>, artifact: Path, entries: map<Path, Entry>,
      files: seq<Path>, items: seq<Item>)
  {
    && Within(done, entries) && PrefixFree(entries) && Lists(artifact, entries, files, items)
    && Laid(fs, ColdRoot(artifact), ColdBlobs(artifact), store, entries)
    && forall f :: f in files ==> f in entries && f !in done && Named(f, entries[f])
  }

  lemma AwaitingStep(
      fs: Files, next: Files, store: Store, done: map<Path, Entry>, artifact: Path, entries: map<Path, Entry>,
      files: seq<Path>, items: seq<Item>)
    requires Awaiting(fs, store, done, artifact, entries, files, items) && items != [] && Extends(fs, next)
    requires files[0] in entries
    ensures Awaiting(next, store, done[files[0] := entries[files[0]]], artifact, entries, files[1..], items[1..])
  {
    LaidExtends(fs, next, ColdRoot(artifact), ColdBlobs(artifact), store, entries);
    ListsStep(artifact, entries, files, items);
    PrefixFreeWithin(done, entries, files[0]);
  }

  /** The promotion loop lays out every listed file and disturbs nothing. */
  lemma {:induction false} MaterializeLays(
      fs: Files, plan: Plan, done: map<Path, Entry>, artifact: Path, hot: Path, target: Path,
      entries: map<Path, Entry>, files: seq<Path>, items: seq<Item>)
    requires Sound(plan) && Stage(fs, plan, done) && plan == HotPlan(hot, target, plan.store)
    requires Awaiting(fs, plan.store, done, artifact, entries, files, items)
    ensures var o := Materialize(fs, artifact, hot, target, items);
            && o.ok && Stage(o.fs, plan, Plus(done, entries, files))
            && Extends(fs, o.fs) && AddsOnly(fs, o.fs, plan)
    decreases |items|
  {
    if items == [] {
      assert Plus(done, entries, files) == done;
    } else {
      var f := files[0];
      assert f in files;
      MaterializeStep(fs, plan, done, artifact, hot, target, entries, f);
      var next := MaterializeItem(fs, artifact, hot, target, items[0]).fs;
      AwaitingStep(fs, next, plan.store, done, artifact, entries, files, items);
      MaterializeLays(next, plan, done[f := entries[f]], artifact, hot, target, entries, files[1..], items[1..]);
      PlusStep(done, entries, files);
      AddsTrans(fs, next, Materialize(fs, artifact, hot, target, items).fs, plan);
    }
  }

  lemma ListsStep(artifact: Path, entries: map<Path, Entry>, files: seq<Path>, items: seq<Item>)
    requires Lists(artifact, entries, files, items) && items != []
    ensures Lists(artifact, entries, files[1..], items[1..])
    ensures forall g :: g in files[1..] ==> g in files && g != files[0]
  {
    forall i, j | 0 <= i < j < |files[1..]| ensures files[1..][i] != files[1..][j] {
      assert files[i + 1] != files[j + 1];
    }
    forall i | 0 <= i < |files[1..]|
      ensures files[1..][i] in entries && files[1..][i] != [] && files[1..][i] != files[0] && files[1..][i] in files
      ensures items[1..][i] == ItemFor(artifact, files[1..][i], entries[files[1..][i]])
    {
      assert files[1..][i] == files[i + 1] && items[1..][i] == items[i + 1];
    }
  }

  lemma MaterializeStep(
      fs: Files, plan: Plan, done: map<Path, Entry>, artifact: Path, hot: Path, target: Path,
      entries: map<Path, Entry>, f: Path)
    requires Sound(plan) && Stage(fs, plan, done) && plan == HotPlan(hot, target, plan.store)
    requires Within(done, entries) && PrefixFree(entries) && f in entries && f !in done && Named(f, entries[f])
    requires Laid(fs, ColdRoot(artifact), ColdBlobs(artifact), plan.store, entries)
    ensures var o := MaterializeItem(fs, artifact, hot, target, ItemFor(artifact, f, entries[f]));
            o.ok && Stage(o.fs, plan, done[f := entries[f]]) && Extends(fs, o.fs) && AddsOnly(fs, o.fs, plan)
  {
    PutAdds(fs, plan, f, entries[f]);
    PrefixFreeWithin(done, entries, f);
    assert LaidAt(fs, ColdRoot(artifact), ColdBlobs(artifact), plan.store, f, entries[f]);
    MaterializeIsPut(fs, plan, done, artifact, hot, target, f, entries[f]);
    PutKeeps(fs, plan, done, f, entries[f]);
  }

  // ------------------------------------------------------------------ removing and moving trees

  lemma WithoutTree(fs: Files, p: Path)
    requires Tree(fs)
    ensures Tree(Without(fs, p))
  {
    forall q | q in Without(fs, p) ensures q != [] && IsPath(q) && IsFolder(Without(fs, p), Dir(q)) {
      if p <= Dir(q) {
        PrefixOfDir(p, q);
      }
    }
  }

  /** Nothing lies below a name that is not taken. */
  lemma AbsentBelow(fs: Files, p: Path, q: Path)
    requires Tree(fs) && p != [] && p !in fs && p <= q
    ensures q !in fs
  {
    assert q[..|p|] == p && q[..|q|] == q;
    if q in fs && |p| < |q| {
      AncestorIsFolder(fs, q, |p|);
    }
  }

  /** os.RemoveAll of a clear name removes its tree and nothing else. */
  lemma RemoveAllClear(fs: Files, p: Path)
    requires Tree(fs) && p != [] && IsPath(p) && Clear(fs, Dir(p))
    ensures RemoveAll(fs, p) == Without(fs, p)
  {
    if IsFolder(fs, Dir(p)) {
      PlaceOfReal(fs, p);
    } else {
      var d := Dir(p);
      assert d[..|d|] == d && forall c :: c in d ==> c in p;
      assert d !in fs;
      ClearIsAbsent(fs, d);
      forall q | q in fs ensures !(p <= q) {
        if p <= q {
          PrefixOfDir(d, p);
          PrefixTrans(d, p, q);
          AbsentBelow(fs, d, q);
        }
      }
      assert Without(fs, p) == fs;
    }
  }

  lemma MovedInside(fs: Files, from: Path, to: Path, r: Path)
    requires from + r in fs
    ensures to + r in Moved(fs, from, to) && Moved(fs, from, to)[to + r] == fs[from + r]
  {
    var keys := set p | p in fs && from <= p :: to + p[|from|..];
    assert (from + r)[|from|..] == r && from <= from + r;
    assert to + r in keys;
    assert (to + r)[|to|..] == r;
  }

  lemma MovedOutside(fs: Files, from: Path, to: Path, p: Path)
    requires !(to <= p)
    ensures p in Moved(fs, from, to) <==> p in fs && !(from <= p)
    ensures p in Moved(fs, from, to) ==> Moved(fs, from, to)[p] == fs[p]
  {
  }

  lemma MovedFrom(fs: Files, from: Path, to: Path, p: Path)
    requires p in Moved(fs, from, to) && to <= p && p !in fs
    ensures from + p[|to|..] in fs && p == to + p[|to|..]
  {
  }

  lemma MovedTree(fs: Files, from: Path, to: Path)
    requires Tree(fs) && from in fs && to != [] && IsPath(to) && to !in fs && IsFolder(fs, Dir(to)) && !(from <= to)
    ensures Tree(Moved(fs, from, to))
  {
    var made := Moved(fs, from, to);
    forall q | q in made ensures q != [] && IsPath(q) && IsFolder(made, Dir(q)) {
      if to <= q {
        AbsentBelow(fs, to, q);
        MovedFrom(fs, from, to, q);
        MovedParent(fs, from, to, q[|to|..]);
      } else {
        MovedOutside(fs, from, to, q);
        if Dir(q) != [] {
          PrefixOfDir(to, q);
          PrefixOfDir(from, q);
          MovedOutside(fs, from, to, Dir(q));
        }
      }
    }
  }

  lemma MovedParent(fs: Files, from: Path, to: Path, r: Path)
    requires Tree(fs) && from in fs && to != [] && IsPath(to) && IsFolder(fs, Dir(to)) && !(from <= to)
    requires from + r in fs
    ensures IsPath(to + r) && IsFolder(Moved(fs, from, to), Dir(to + r))
  {
    assert forall c :: c in to + r ==> c in to || c in from + r;
    if r == [] {
      assert to + r == to;
      PrefixOfDir(from, to);
      if Dir(to) != [] {
        MovedOutside(fs, from, to, Dir(to));
      }
    } else {
      assert Dir(from + r) == from + Dir(r) && Dir(to + r) == to + Dir(r);
      MovedInside(fs, from, to, Dir(r));
    }
  }

  // ------------------------------------------------------------------ archiving

  lemma FixedNames()
    ensures Proper(PAYLOAD) && Proper(FILES_DIR) && Proper("blobs") && Proper(MANIFEST) && Proper(COMPLETE)
    ensures PAYLOAD != "blobs" && MANIFEST != PAYLOAD && MANIFEST != "blobs"
    ensures COMPLETE != PAYLOAD && COMPLETE != "blobs" && COMPLETE != MANIFEST
  {
    assert PAYLOAD[0] == 'p' && FILES_DIR[0] == 'f' && "blobs"[0] == 'b' && MANIFEST[0] == 'a';
    assert |PAYLOAD| == 7 && |FILES_DIR| == 5 && |"blobs"| == 5 && |MANIFEST| == 13 && |COMPLETE| == 9;
  }

  lemma SiblingsApart(d: Path, a: string, b: string, x: Path)
    requires a != b
    ensures Apart(d + [a] + x, d + [b])
  {
    var p, q := d + [a] + x, d + [b];
    assert p[|d|] == a && q[|d|] == b;
  }

  lemma StagingSound(staging: Path, store: Store)
    requires IsPath(staging)
    ensures Sound(StagingPlan(staging, store))
  {
    FixedNames();
    SiblingsApart(staging, PAYLOAD, "blobs", []);
    SiblingsApart(staging, PAYLOAD, "blobs", [FILES_DIR]);
    assert staging + [PAYLOAD] + [] == staging + [PAYLOAD];
    assert staging + [PAYLOAD] + [FILES_DIR] == ColdRoot(staging);
  }

  predicate EmptyFolder(fs: Files, p: Path) {
    IsFolder(fs, p) && p != [] && forall q :: q in fs && p <= q ==> q == p
  }

  lemma FolderClear(fs: Files, p: Path)
    requires Tree(fs) && IsFolder(fs, p)
    ensures Clear(fs, p)
  {
    assert p[..|p|] == p;
    forall i | 0 < i <= |p| && p[..i] in fs ensures fs[p[..i]].Folder? {
      if i < |p| {
        AncestorIsFolder(fs, p, i);
      }
    }
  }

  /** Below an empty directory everything is clear. */
  lemma EmptyClear(fs: Files, p: Path, x: Path)
    requires Tree(fs) && EmptyFolder(fs, p)
    ensures Clear(fs, p + x)
  {
    FolderClear(fs, p);
    assert forall i :: |p| <= i <= |p + x| ==> p <= (p + x)[..i];
    forall i | 0 < i <= |p + x| && (p + x)[..i] in fs ensures fs[(p + x)[..i]].Folder? {
      if i <= |p| {
        assert (p + x)[..i] == p[..i];
      }
    }
  }

  /** A fresh staging directory is a stage with nothing laid out. */
  lemma StageStarts(fs: Files, staging: Path, store: Store)
    requires Tree(fs) && EmptyFolder(fs, staging)
    ensures Stage(fs, StagingPlan(staging, store), map[])
  {
    EmptyClear(fs, staging, [PAYLOAD, FILES_DIR]);
    EmptyClear(fs, staging, ["blobs"]);
    assert forall p :: p in fs && staging + [PAYLOAD] <= p ==> staging <= p;
    assert forall n: string :: staging <= ColdBlobs(staging) + [n];
  }

  lemma ChildAdded(fs: Files, p: Path, node: Node)
    requires Tree(fs) && p != [] && IsPath(p) && p !in fs && IsFolder(fs, Dir(p))
    ensures Tree(fs[p := node]) && Extends(fs, fs[p := node])
  {
  }

  /** The copies leave the manager's own names in the staging directory free. */
  lemma NameFree(fs: Files, copied: Files, staging: Path, store: Store, c: string)
    requires EmptyFolder(fs, staging) && AddsOnly(fs, copied, StagingPlan(staging, store))
    requires c != PAYLOAD && c != "blobs"
    ensures staging + [c] !in copied
  {
    var p := staging + [c];
    assert p !in fs;
    SiblingsApart(staging, PAYLOAD, c, [FILES_DIR]);
    assert staging + [PAYLOAD] + [FILES_DIR] == ColdRoot(staging);
    SiblingsApart(staging, "blobs", c, []);
    assert staging + ["blobs"] + [] == ColdBlobs(staging);
  }

  lemma WriteChild(fs: Files, d: Path, c: string, data: Content)
    requires Tree(fs) && d != [] && IsFolder(fs, d) && Proper(c) && d + [c] !in fs
    ensures Write(fs, d + [c], data) == Outcome(true, fs[d + [c] := File(data)])
    ensures Tree(fs[d + [c] := File(data)]) && Extends(fs, fs[d + [c] := File(data)])
  {
    assert Dir(d + [c]) == d;
    FolderClear(fs, d);
    WriteRoom(fs, d + [c], data);
    ChildAdded(fs, d + [c], File(data));
  }

  /** The staging directory with its manifest and marker. */
  function Sealed(fs: Files, spec: CacheSpec, staging: Path, items: seq<Item>): Files {
    fs[staging + [MANIFEST] := File(ManifestJson(1, spec, items))][staging + [COMPLETE] := File(Stamp)]
  }

  lemma SealedIs(fs: Files, spec: CacheSpec, staging: Path, items: seq<Item>)
    requires Tree(fs) && staging != [] && IsFolder(fs, staging)
    requires staging + [MANIFEST] !in fs && staging + [COMPLETE] !in fs
    ensures var m := Write(fs, staging + [MANIFEST], ManifestJson(1, spec, items));
            m.ok && Write(m.fs, staging + [COMPLETE], Stamp) == Outcome(true, Sealed(fs, spec, staging, items))
    ensures Tree(Sealed(fs, spec, staging, items)) && Extends(fs, Sealed(fs, spec, staging, items))
  {
    FixedNames();
    WriteChild(fs, staging, MANIFEST, ManifestJson(1, spec, items));
    var m := fs[staging + [MANIFEST] := File(ManifestJson(1, spec, items))];
    assert (staging + [MANIFEST])[|staging|] != (staging + [COMPLETE])[|staging|];
    WriteChild(m, staging, COMPLETE, Stamp);
  }

  lemma RemovedOld(fs: Files, staging: Path, destination: Path)
    requires Tree(fs) && destination != [] && IsPath(destination) && staging in fs && fs[staging].Folder?
    requires Dir(staging) == Dir(destination) && Apart(staging, destination)
    ensures var rest := Without(fs, destination);
            && RemoveAll(fs, destination) == rest && Tree(rest)
            && IsFolder(rest, Dir(destination)) && staging in rest && destination !in rest
  {
    FolderClear(fs, Dir(destination));
    RemoveAllClear(fs, destination);
    WithoutTree(fs, destination);
  }

  lemma RenameIs(rest: Files, staging: Path, destination: Path)
    requires Tree(rest) && destination != [] && IsPath(destination) && staging in rest && destination !in rest
    requires IsFolder(rest, Dir(destination)) && Dir(staging) == Dir(destination) && Apart(staging, destination)
    ensures var swapped := Moved(rest, staging, destination);
            && Rename(rest, staging, destination) == Outcome(true, swapped)
            && Tree(swapped) && IsFolder(swapped, Dir(staging))
  {
    PlaceOfReal(rest, staging);
    PlaceOfReal(rest, destination);
    MovedTree(rest, staging, destination);
    assert staging + [] == staging && destination + [] == destination;
    MovedInside(rest, staging, destination, []);
  }

  /** Removing the staging directory afterwards finds nothing. */
  lemma NothingStaged(rest: Files, staging: Path, destination: Path)
    requires Tree(Moved(rest, staging, destination)) && Apart(staging, destination)
    requires staging != [] && IsPath(staging) && IsFolder(Moved(rest, staging, destination), Dir(staging))
    ensures RemoveAll(Moved(rest, staging, destination), staging) == Moved(rest, staging, destination)
  {
    var swapped := Moved(rest, staging, destination);
    FolderClear(swapped, Dir(staging));
    RemoveAllClear(swapped, staging);
    forall p | p in swapped ensures !(staging <= p) {
      if staging <= p {
        ApartBelow(staging, destination, p);
        MovedOutside(rest, staging, destination, p);
      }
    }
    assert Without(swapped, staging) == swapped;
  }

  /** The swap: the old artifact goes, the staged one takes its name. */
  lemma SwapIs(fs: Files, staging: Path, destination: Path)
    requires Tree(fs) && destination != [] && IsPath(destination) && staging in fs && fs[staging].Folder?
    requires Dir(staging) == Dir(destination) && Apart(staging, destination)
    ensures var swapped := Moved(Without(fs, destination), staging, destination);
            && Rename(RemoveAll(fs, destination), staging, destination) == Outcome(true, swapped)
            && Tree(swapped) && RemoveAll(swapped, staging) == swapped
  {
    RemovedOld(fs, staging, destination);
    RenameIs(Without(fs, destination), staging, destination);
    NothingStaged(Without(fs, destination), staging, destination);
  }

  // ------------------------------------------------------------------ the cold artifact

  /** A complete cold artifact for these entries, its manifest listing each of them once. */
  predicate Cold(
      fs: Files, dir: Path, spec: CacheSpec, store: Store, entries: map<Path, Entry>, files: seq<Path>,
      items: seq<Item>)
  {
    && Tree(fs) && Laid(fs, ColdRoot(dir), ColdBlobs(dir), store, entries)
    && Lists(dir, entries, files, items) && (forall f :: f in entries ==> f in files)
    && dir + [MANIFEST] in fs && fs[dir + [MANIFEST]] == File(ManifestJson(1, spec, items))
    && dir + [COMPLETE] in fs && fs[dir + [COMPLETE]] == File(Stamp)
  }

  lemma ReRootedLink(a: Path, b: Path, x: Path, y: Path)
    requires x != []
    ensures LinkTo(a + x, a + y) == LinkTo(b + x, b + y)
  {
    assert Dir(a + x) == a + Dir(x) && Dir(b + x) == b + Dir(x);
    RelativeLinkSurvivesReRooting(a, b, Dir(x), y);
  }

  lemma ReRootedItem(a: Path, b: Path, f: Path, e: Entry)
    requires f != []
    ensures ItemFor(a, f, e) == ItemFor(b, f, e)
  {
    if e.Blob? {
      var x, y := [PAYLOAD, FILES_DIR] + f, ["blobs", e.name];
      assert ColdRoot(a) + f == a + x && ColdRoot(b) + f == b + x;
      assert ColdBlobs(a) + [e.name] == a + y && ColdBlobs(b) + [e.name] == b + y;
      ReRootedLink(a, b, x, y);
    }
  }

  /** A file laid out in staging is laid out in the artifact once the directory has been renamed. */
  lemma MovedLaid(fs: Files, from: Path, to: Path, store: Store, f: Path, e: Entry)
    requires LaidAt(fs, ColdRoot(from), ColdBlobs(from), store, f, e)
    ensures LaidAt(Moved(fs, from, to), ColdRoot(to), ColdBlobs(to), store, f, e)
  {
    var x := [PAYLOAD, FILES_DIR] + f;
    assert ColdRoot(from) + f == from + x && ColdRoot(to) + f == to + x;
    MovedInside(fs, from, to, x);
    if e.Blob? {
      var y := ["blobs", e.name];
      assert ColdBlobs(from) + [e.name] == from + y && ColdBlobs(to) + [e.name] == to + y;
      MovedInside(fs, from, to, y);
      ReRootedLink(from, to, x, y);
    }
  }

  lemma WithoutLaid(fs: Files, p: Path, dir: Path, store: Store, f: Path, e: Entry)
    requires Apart(p, dir) && LaidAt(fs, ColdRoot(dir), ColdBlobs(dir), store, f, e)
    ensures LaidAt(Without(fs, p), ColdRoot(dir), ColdBlobs(dir), store, f, e)
  {
    assert dir <= ColdRoot(dir) + f;
    ApartBelow(dir, p, ColdRoot(dir) + f);
    if e.Blob? {
      assert dir <= ColdBlobs(dir) + [e.name];
      ApartBelow(dir, p, ColdBlobs(dir) + [e.name]);
    }
  }

  /** The manifest's reader finds the manifest of a complete artifact that matches the request. */
  lemma ManifestFound(
      fs: Files, dir: Path, spec: CacheSpec, store: Store, entries: map<Path, Entry>, files: seq<Path>,
      items: seq<Item>)
    requires Cold(fs, dir, spec, store, entries, files, items) && items != []
    ensures ManifestFor(fs, dir, spec) == Some(items)
  {
    ResolveEntry(fs, dir + [COMPLETE]);
    ResolveEntry(fs, dir + [MANIFEST]);
  }

  // ------------------------------------------------------------------ what is archived

  /** The requested files as they lie in the hot cache. */
  ghost predicate Archivable(fs: Files, hot: Path, spec: CacheSpec, store: Store, entries: map<Path, Entry>) {
    && Distinct(spec.files) && (forall f :: f in entries <==> f in spec.files)
    && forall f :: f in entries ==> f != [] && Holds(fs, hot + spec.target + f, store, entries[f])
  }

  lemma HeldIsNamed(fs: Files, source: Path, store: Store, f: Path, e: Entry)
    requires Tree(fs) && f != [] && Holds(fs, source + f, store, e)
    ensures Named(f, e)
  {
    assert forall c :: c in f ==> c in source + f;
    if e.Blob? {
      SeenIsRead(fs, TextTarget(source + f, fs[source + f].target), store(e.name));
    }
  }

  lemma HeldArePrefixFree(fs: Files, source: Path, store: Store, entries: map<Path, Entry>)
    requires Tree(fs) && forall f :: f in entries ==> f != [] && Holds(fs, source + f, store, entries[f])
    ensures PrefixFree(entries)
  {
    forall f, g | f in entries && g in entries && f <= g ensures f == g {
      PrefixUnder(source, f, g);
      NothingBelow(fs, source + f, source + g);
      assert f == (source + f)[|source|..] && g == (source + g)[|source|..];
    }
  }

  lemma ArchivablePending(fs: Files, more: Files, hot: Path, spec: CacheSpec, store: Store, entries: map<Path, Entry>)
    requires Tree(fs) && Archivable(fs, hot, spec, store, entries) && Extends(fs, more)
    ensures Pending(more, store, map[], hot + spec.target, entries, spec.files)
  {
    var source := hot + spec.target;
    HeldArePrefixFree(fs, source, store, entries);
    forall f | f in spec.files
      ensures f in entries && Named(f, entries[f]) && Holds(more, source + f, store, entries[f])
    {
      HeldIsNamed(fs, source, store, f, entries[f]);
      HoldsExtends(fs, more, source + f, store, entries[f]);
    }
  }

  /** An archived file reads as its entry says. */
  lemma HeldReads(fs: Files, source: Path, store: Store, e: Entry)
    requires Tree(fs) && Holds(fs, source, store, e)
    ensures Read(fs, source) == Some(DataOf(store, e))
  {
    if e.Regular? {
      ResolveEntry(fs, source);
    }
  }

  // ------------------------------------------------------------------ archiving succeeds

  /** Where an artifact can be archived: a clear directory, and a fresh temporary name in it. */
  predicate ColdReady(fs: Files, destination: Path, temp: string) {
    && Tree(fs) && destination != [] && IsPath(destination) && Clear(fs, Dir(destination))
    && Proper(temp) && temp != Base(destination) && Dir(destination) + [temp] !in fs
  }

  function Started(fs: Files, destination: Path, temp: string): Files
    requires destination != []
  {
    WithFolders(fs, Dir(destination))[Dir(destination) + [temp] := Folder]
  }

  lemma ArchiveStarts(fs: Files, destination: Path, temp: string)
    requires ColdReady(fs, destination, temp)
    ensures var staging := Dir(destination) + [temp];
            var made := MkdirAll(fs, Dir(destination));
            && made.ok && Place(made.fs, staging) == Some(staging) && staging !in made.fs
            && made.fs[staging := Folder] == Started(fs, destination, temp)
    ensures var start := Started(fs, destination, temp);
            Tree(start) && EmptyFolder(start, Dir(destination) + [temp]) && Extends(fs, start)
  {
    var d := Dir(destination);
    assert forall c :: c in d ==> c in destination;
    MkdirAllClear(fs, d);
    WithFoldersKeeps(fs, d);
    WithFoldersIs(fs, d, d + [temp]);
    StagingMade(WithFolders(fs, d), d, temp);
    ExtendsTrans(fs, WithFolders(fs, d), Started(fs, destination, temp));
  }

  /** A fresh directory in a real one. */
  lemma StagingMade(made: Files, d: Path, temp: string)
    requires Tree(made) && IsPath(d) && IsFolder(made, d) && Proper(temp) && d + [temp] !in made
    ensures Place(made, d + [temp]) == Some(d + [temp])
    ensures var start := made[d + [temp] := Folder];
            Tree(start) && Extends(made, start) && EmptyFolder(start, d + [temp])
  {
    var staging := d + [temp];
    assert Dir(staging) == d;
    PlaceOfReal(made, staging);
    ChildAdded(made, staging, Folder);
    forall q | q in made ensures !(staging <= q) {
      if staging <= q {
        AbsentBelow(made, staging, q);
      }
    }
  }

  lemma PlusAll(entries: map<Path, Entry>, files: seq<Path>)
    requires forall f :: f in entries ==> f in files
    ensures Plus(map[], entries, files) == entries
  {
  }

  lemma CopiesStaged(fs: Files, spec: CacheSpec, hot: Path, staging: Path, store: Store, entries: map<Path, Entry>)
    requires Tree(fs) && EmptyFolder(fs, staging)
    requires Pending(fs, store, map[], hot + spec.target, entries, spec.files)
    requires forall f :: f in entries <==> f in spec.files
    ensures var o := CopyStaged(fs, spec, hot, staging);
            && o.ok && Stage(o.fs, StagingPlan(staging, store), entries)
            && Extends(fs, o.fs) && AddsOnly(fs, o.fs, StagingPlan(staging, store))
  {
    var plan := StagingPlan(staging, store);
    StagingSound(staging, store);
    StageStarts(fs, staging, store);
    PlusAll(entries, spec.files);
    CopyFilesLays(fs, plan, map[], hot + spec.target, entries, spec.files);
  }

  function Swapped(fs: Files, spec: CacheSpec, staging: Path, destination: Path, items: seq<Item>): Files {
    Moved(Without(Sealed(fs, spec, staging, items), destination), staging, destination)
  }

  lemma Finishes(
      start: Files, fs: Files, spec: CacheSpec, staging: Path, destination: Path, store: Store, items: seq<Item>)
    requires Tree(fs) && EmptyFolder(start, staging) && Extends(start, fs)
    requires AddsOnly(start, fs, StagingPlan(staging, store))
    requires destination != [] && IsPath(destination) && Dir(staging) == Dir(destination) && Apart(staging, destination)
    ensures var end := Swapped(fs, spec, staging, destination, items);
            && Finish(fs, spec, staging, destination, items) == Outcome(true, end)
            && Tree(end) && RemoveAll(end, staging) == end
    ensures Extends(fs, Sealed(fs, spec, staging, items))
  {
    FixedNames();
    NameFree(start, fs, staging, store, MANIFEST);
    NameFree(start, fs, staging, store, COMPLETE);
    SealedIs(fs, spec, staging, items);
    SwapIs(Sealed(fs, spec, staging, items), staging, destination);
  }

  lemma SwappedName(fs: Files, spec: CacheSpec, staging: Path, destination: Path, items: seq<Item>, c: string)
    requires Apart(staging, destination) && (c == MANIFEST || c == COMPLETE)
    ensures var end := Swapped(fs, spec, staging, destination, items);
            && destination + [c] in end
            && end[destination + [c]] == if c == MANIFEST then File(ManifestJson(1, spec, items)) else File(Stamp)
  {
    FixedNames();
    var sealed := Sealed(fs, spec, staging, items);
    assert (staging + [MANIFEST])[|staging|] != (staging + [COMPLETE])[|staging|];
    ApartBelow(staging, destination, staging + [c]);
    MovedInside(Without(sealed, destination), staging, destination, [c]);
  }

  /** The finished artifact is a complete cold artifact for the entries that were staged. */
  lemma SwappedIsCold(
      fs: Files, spec: CacheSpec, staging: Path, destination: Path, store: Store, entries: map<Path, Entry>,
      items: seq<Item>)
    requires Stage(fs, StagingPlan(staging, store), entries) && Inventory(fs, staging + [PAYLOAD], items)
    requires Extends(fs, Sealed(fs, spec, staging, items)) && Apart(staging, destination)
    requires Tree(Swapped(fs, spec, staging, destination, items))
    ensures Cold(Swapped(fs, spec, staging, destination, items), destination, spec, store, entries, Rests(items), items)
  {
    var sealed := Sealed(fs, spec, staging, items);
    var end := Swapped(fs, spec, staging, destination, items);
    SwappedName(fs, spec, staging, destination, items, MANIFEST);
    SwappedName(fs, spec, staging, destination, items, COMPLETE);
    LaidExtends(fs, sealed, ColdRoot(staging), ColdBlobs(staging), store, entries);
    forall f | f in entries ensures LaidAt(end, ColdRoot(destination), ColdBlobs(destination), store, f, entries[f]) {
      assert LaidAt(sealed, ColdRoot(staging), ColdBlobs(staging), store, f, entries[f]);
      WithoutLaid(sealed, destination, staging, store, f, entries[f]);
      MovedLaid(Without(sealed, destination), staging, destination, store, f, entries[f]);
    }
    InventoryLists(fs, staging, store, entries, items);
    var files := Rests(items);
    forall i | 0 <= i < |files| ensures items[i] == ItemFor(destination, files[i], entries[files[i]]) {
      ReRootedItem(staging, destination, files[i], entries[files[i]]);
    }
  }

  /** What was outside the artifact's directory is still there. */
  lemma SwappedKeeps(
      before: Files, fs: Files, spec: CacheSpec, staging: Path, destination: Path, items: seq<Item>, p: Path)
    requires Extends(before, fs) && Extends(fs, Sealed(fs, spec, staging, items))
    requires p in before && !(destination <= p) && !(staging <= p)
    ensures var end := Swapped(fs, spec, staging, destination, items);
            p in end && end[p] == before[p]
  {
    MovedOutside(Without(Sealed(fs, spec, staging, items), destination), staging, destination, p);
  }

  /**
   * Archiving succeeds for every archivable artifact: the destination then holds a complete artifact for
   * exactly the requested files, and nothing outside the destination has changed.
   */
  lemma ArchiveWorks(
      fs: Files, spec: CacheSpec, hot: Path, destination: Path, temp: string, store: Store,
      entries: map<Path, Entry>, items: seq<Item>)
    requires ColdReady(fs, destination, temp) && Archivable(fs, hot, spec, store, entries)
    requires Inventory(
               CopyStaged(Started(fs, destination, temp), spec, hot, Dir(destination) + [temp]).fs,
               Dir(destination) + [temp, PAYLOAD], items)
    ensures var o := ArchiveHot(fs, spec, hot, destination, temp, items);
            && o.ok && Cold(o.fs, destination, spec, store, entries, Rests(items), items)
            && (forall p :: p in fs && !(destination <= p) ==> p in o.fs && o.fs[p] == fs[p])
            && forall p :: p in o.fs && p !in fs && !(destination <= p) ==> p <= Dir(destination) && o.fs[p].Folder?
  {
    var staging := Dir(destination) + [temp];
    assert Dir(destination) + [temp, PAYLOAD] == staging + [PAYLOAD];
    StagedCopies(fs, spec, hot, destination, temp, store, entries);
    var start := Started(fs, destination, temp);
    var copied := CopyStaged(start, spec, hot, staging).fs;
    Finishes(start, copied, spec, staging, destination, store, items);
    ArchiveUnfolds(fs, spec, hot, destination, temp, items);
    SwappedIsCold(copied, spec, staging, destination, store, entries, items);
    RestKept(fs, copied, spec, staging, destination, items);
    forall p | p in Swapped(copied, spec, staging, destination, items) && p !in fs && !(destination <= p)
      ensures p <= Dir(destination) && Swapped(copied, spec, staging, destination, items)[p].Folder?
    {
      OnlyParents(fs, copied, spec, destination, temp, store, items, p);
    }
  }

  /** The files are copied to a fresh staging directory beside the destination. */
  lemma StagedCopies(
      fs: Files, spec: CacheSpec, hot: Path, destination: Path, temp: string, store: Store, entries: map<Path, Entry>)
    requires ColdReady(fs, destination, temp) && Archivable(fs, hot, spec, store, entries)
    ensures var staging, start := Dir(destination) + [temp], Started(fs, destination, temp);
            var copied := CopyStaged(start, spec, hot, staging);
            && Dir(staging) == Dir(destination) && destination == Dir(destination) + [Base(destination)]
            && Apart(staging, destination)
            && staging !in fs && Tree(start) && EmptyFolder(start, staging)
            && copied.ok && Stage(copied.fs, StagingPlan(staging, store), entries)
            && Extends(start, copied.fs) && AddsOnly(start, copied.fs, StagingPlan(staging, store))
            && Extends(fs, copied.fs)
  {
    var staging, start := Dir(destination) + [temp], Started(fs, destination, temp);
    assert Dir(staging) == Dir(destination) && destination == Dir(destination) + [Base(destination)];
    SiblingsApart(Dir(destination), temp, Base(destination), []);
    assert staging + [] == staging;
    ArchiveStarts(fs, destination, temp);
    ArchivablePending(fs, start, hot, spec, store, entries);
    CopiesStaged(start, spec, hot, staging, store, entries);
    ExtendsTrans(fs, start, CopyStaged(start, spec, hot, staging).fs);
  }

  /** archiveHot once the staging directory has been made and the files copied. */
  lemma ArchiveUnfolds(fs: Files, spec: CacheSpec, hot: Path, destination: Path, temp: string, items: seq<Item>)
    requires ColdReady(fs, destination, temp)
    requires CopyStaged(Started(fs, destination, temp), spec, hot, Dir(destination) + [temp]).ok
    ensures var staging := Dir(destination) + [temp];
            var copied := CopyStaged(Started(fs, destination, temp), spec, hot, staging).fs;
            var o := Finish(copied, spec, staging, destination, items);
            ArchiveHot(fs, spec, hot, destination, temp, items) == Outcome(o.ok, RemoveAll(o.fs, staging))
  {
    ArchiveStarts(fs, destination, temp);
  }

  /** Besides the destination, archiving makes the directories above it and nothing else. */
  lemma OnlyParents(
      before: Files, copied: Files, spec: CacheSpec, destination: Path, temp: string, store: Store, items: seq<Item>,
      p: Path)
    requires ColdReady(before, destination, temp) && Tree(copied)
    requires AddsOnly(Started(before, destination, temp), copied, StagingPlan(Dir(destination) + [temp], store))
    requires Extends(Started(before, destination, temp), copied)
    requires p in Swapped(copied, spec, Dir(destination) + [temp], destination, items) && p !in before
    requires !(destination <= p)
    ensures p <= Dir(destination) && Swapped(copied, spec, Dir(destination) + [temp], destination, items)[p] == Folder
  {
    var d := Dir(destination);
    var staging := d + [temp];
    var sealed := Without(Sealed(copied, spec, staging, items), destination);
    MovedOutside(sealed, staging, destination, p);
    assert staging <= staging + [MANIFEST] && staging <= staging + [COMPLETE];
    assert p in copied && sealed[p] == copied[p];
    WithFoldersIs(before, d, p);
    if p !in Started(before, destination, temp) {
      var root, blobs := ColdRoot(staging), ColdBlobs(staging);
      assert staging <= root && staging <= blobs;
      StagedBelow(before, destination, temp, root, p);
      StagedBelow(before, destination, temp, blobs, p);
    }
  }

  /** What is new and on the way to a staged place, or below it, lies in the staging directory. */
  lemma StagedBelow(before: Files, destination: Path, temp: string, x: Path, p: Path)
    requires destination != [] && Dir(destination) + [temp] <= x && p !in Started(before, destination, temp) && p != []
    ensures Comparable(p, x) ==> Dir(destination) + [temp] <= p
  {
    var d := Dir(destination);
    var staging := d + [temp];
    if Comparable(p, x) {
      if x <= p {
        PrefixTrans(staging, x, p);
      } else {
        PrefixesCompare(p, staging, x);
        if p <= staging && p != staging {
          assert p == staging[..|p|] == d[..|p|];
          WithFoldersIs(before, d, p);
        }
      }
    }
  }

  lemma RestKept(before: Files, fs: Files, spec: CacheSpec, staging: Path, destination: Path, items: seq<Item>)
    requires Tree(before) && Extends(before, fs) && Extends(fs, Sealed(fs, spec, staging, items))
    requires staging != [] && staging !in before
    ensures var end := Swapped(fs, spec, staging, destination, items);
            forall p :: p in before && !(destination <= p) ==> p in end && end[p] == before[p]
  {
    var end := Swapped(fs, spec, staging, destination, items);
    forall p | p in before && !(destination <= p) ensures p in end && end[p] == before[p] {
      if staging <= p {
        AbsentBelow(before, staging, p);
      }
      SwappedKeeps(before, fs, spec, staging, destination, items, p);
    }
  }

  // ------------------------------------------------------------------ promotion restores

  /** Where an artifact can be promoted to: clear directories, and hot blobs that hold what their names say. */
  ghost predicate HotReady(fs: Files, hot: Path, target: Path, store: Store) {
    && Tree(fs) && Sound(HotPlan(hot, target, store)) && target != []
    && Clear(fs, Dir(hot + target)) && Clear(fs, HotBlobs(hot)) && StoreAgrees(fs, HotPlan(hot, target, store))
  }

  lemma WithoutClear(fs: Files, p: Path, q: Path)
    requires Clear(fs, q)
    ensures Clear(Without(fs, p), q)
  {
    forall i | 0 < i <= |q| && q[..i] in Without(fs, p) ensures Without(fs, p)[q[..i]].Folder? {
      assert q[..i] in fs;
    }
  }

  /** The cleared target is a stage with nothing laid out. */
  lemma ClearedStage(fs: Files, hot: Path, target: Path, store: Store)
    requires HotReady(fs, hot, target, store)
    ensures RemoveAll(fs, hot + target) == Without(fs, hot + target)
    ensures Stage(Without(fs, hot + target), HotPlan(hot, target, store), map[])
  {
    var root := hot + target;
    var rest := Without(fs, root);
    RemoveAllClear(fs, root);
    WithoutTree(fs, root);
    WithoutClear(fs, root, Dir(root));
    WithoutClear(fs, root, HotBlobs(hot));
    assert root[..|root|] == root;
    forall i | 0 < i <= |root| && root[..i] in rest ensures rest[root[..i]].Folder? {
      assert i < |root|;
      assert root[..i] == Dir(root)[..i];
    }
  }

  /** Promotion of a complete cold artifact lays out exactly its entries, whatever target is asked for. */
  lemma PromoteWorks(
      fs: Files, dir: Path, hot: Path, target: Path, spec: CacheSpec, store: Store,
      entries: map<Path, Entry>, files: seq<Path>, items: seq<Item>)
    requires Cold(fs, dir, spec, store, entries, files, items) && HotReady(fs, hot, target, store)
    requires Apart(hot + target, dir) && PrefixFree(entries) && forall f :: f in entries ==> Named(f, entries[f])
    ensures var o := Promote(fs, dir, hot, target, items);
            && o.ok && Stage(o.fs, HotPlan(hot, target, store), entries)
            && Extends(Without(fs, hot + target), o.fs)
            && AddsOnly(Without(fs, hot + target), o.fs, HotPlan(hot, target, store))
  {
    var plan := HotPlan(hot, target, store);
    ClearedStage(fs, hot, target, store);
    AwaitingStarts(fs, hot + target, dir, spec, store, entries, files, items);
    PlusAll(entries, files);
    MaterializeLays(Without(fs, hot + target), plan, map[], dir, hot, target, entries, files, items);
  }

  lemma AwaitingStarts(
      fs: Files, root: Path, dir: Path, spec: CacheSpec, store: Store,
      entries: map<Path, Entry>, files: seq<Path>, items: seq<Item>)
    requires Cold(fs, dir, spec, store, entries, files, items)
    requires Apart(root, dir) && PrefixFree(entries) && forall f :: f in entries ==> Named(f, entries[f])
    ensures Awaiting(Without(fs, root), store, map[], dir, entries, files, items)
  {
    var rest := Without(fs, root);
    forall f | f in entries ensures LaidAt(rest, ColdRoot(dir), ColdBlobs(dir), store, f, entries[f]) {
      WithoutLaid(fs, root, dir, store, f, entries[f]);
    }
  }

  /** Below the target there are exactly the requested files, and each reads as `before` said. */
  ghost predicate Restored(before: Files, after: Files, root: Path, files: seq<Path>) {
    && (forall p :: p in after && root <= p && !after[p].Folder? ==> exists f :: f in files && p == root + f)
    && (forall f :: f in files ==> Read(before, root + f).Some? && Read(after, root + f) == Read(before, root + f))
  }

  lemma StageRestores(before: Files, after: Files, hot: Path, spec: CacheSpec, store: Store, entries: map<Path, Entry>)
    requires Tree(before) && Archivable(before, hot, spec, store, entries)
    requires Stage(after, HotPlan(hot, spec.target, store), entries)
    ensures Restored(before, after, hot + spec.target, spec.files)
  {
    var root := hot + spec.target;
    forall f | f in spec.files
      ensures Read(before, root + f).Some? && Read(after, root + f) == Read(before, root + f)
    {
      HeldReads(before, root + f, store, entries[f]);
      LaidReads(after, root, HotBlobs(hot), store, f, entries[f]);
    }
    forall p | p in after && root <= p && !after[p].Folder? ensures exists f :: f in spec.files && p == root + f {
      StageNodes(after, HotPlan(hot, spec.target, store), entries, p);
    }
  }

  /**
   * Archiving and promoting give back what was there.  Between the two the file system may change in any
   * way that leaves the archived artifact alone and keeps blob names content addresses; promotion then
   * finds the manifest, succeeds, and leaves below the target exactly the requested files, each reading as
   * it did before it was archived.
   */
  lemma ArchiveThenPromote(
      fs: Files, spec: CacheSpec, hot: Path, destination: Path, temp: string, store: Store,
      entries: map<Path, Entry>, items: seq<Item>, later: Files)
    requires ColdReady(fs, destination, temp) && Archivable(fs, hot, spec, store, entries) && spec.files != []
    requires Inventory(
               CopyStaged(Started(fs, destination, temp), spec, hot, Dir(destination) + [temp]).fs,
               Dir(destination) + [temp, PAYLOAD], items)
    requires HotReady(later, hot, spec.target, store) && Apart(hot + spec.target, destination)
    requires var archived := ArchiveHot(fs, spec, hot, destination, temp, items).fs;
             forall p :: p in archived && destination <= p ==> p in later && later[p] == archived[p]
    ensures ManifestFor(later, destination, spec) == Some(items)
    ensures var o := Promote(later, destination, hot, spec.target, items);
            o.ok && Restored(fs, o.fs, hot + spec.target, spec.files)
  {
    ArchiveWorks(fs, spec, hot, destination, temp, store, entries, items);
    ColdLater(ArchiveHot(fs, spec, hot, destination, temp, items).fs, later, destination, spec, store, entries,
        Rests(items), items);
    assert spec.files[0] in entries;
    assert spec.files[0] in Rests(items);
    ManifestFound(later, destination, spec, store, entries, Rests(items), items);
    HeldArePrefixFree(fs, hot + spec.target, store, entries);
    forall f | f in entries ensures Named(f, entries[f]) {
      HeldIsNamed(fs, hot + spec.target, store, f, entries[f]);
    }
    PromoteWorks(later, destination, hot, spec.target, spec, store, entries, Rests(items), items);
    StageRestores(fs, Promote(later, destination, hot, spec.target, items).fs, hot, spec, store, entries);
  }

  lemma ColdLater(
      archived: Files, later: Files, dir: Path, spec: CacheSpec, store: Store, entries: map<Path, Entry>,
      files: seq<Path>, items: seq<Item>)
    requires Cold(archived, dir, spec, store, entries, files, items) && Tree(later)
    requires forall p :: p in archived && dir <= p ==> p in later && later[p] == archived[p]
    ensures Cold(later, dir, spec, store, entries, files, items)
  {
    forall f | f in entries ensures LaidAt(later, ColdRoot(dir), ColdBlobs(dir), store, f, entries[f]) {
      assert LaidAt(archived, ColdRoot(dir), ColdBlobs(dir), store, f, entries[f]);
      assert dir <= ColdRoot(dir) + f;
      if entries[f].Blob? {
        assert dir <= ColdBlobs(dir) + [entries[f].name];
      }
    }
    assert dir <= dir + [MANIFEST] && dir <= dir + [COMPLETE];
  }

  // ------------------------------------------------------------------ again and again

  /** A computed link to a regular blob can be archived. */
  lemma ComputedLinkIsHeld(fs: Files, p: Path, b: Path, store: Store)
    requires Tree(fs) && p in fs && b in fs && fs[b] == File(store(Base(b))) && fs[p] == Link(LinkTo(p, b))
    requires Read(fs, p) == Some(store(Base(b)))
    ensures Holds(fs, p, store, Blob(Base(b)))
  {
    assert forall c :: c in Dir(p) ==> c in p;
    RelativeLinkReachesBlob(Dir(p), b);
    PlaceOfReal(fs, b);
  }

  /** A file that is laid out is one that can be archived. */
  lemma LaidIsHeld(fs: Files, root: Path, blobs: Path, store: Store, f: Path, e: Entry)
    requires Tree(fs) && LaidAt(fs, root, blobs, store, f, e)
    ensures Holds(fs, root + f, store, e)
  {
    if e.Blob? {
      LaidReads(fs, root, blobs, store, f, e);
      assert Base(blobs + [e.name]) == e.name;
      ComputedLinkIsHeld(fs, root + f, blobs + [e.name], store);
    }
  }

  /** What promotion leaves can be archived again, and promoted over again: the round trip can be repeated. */
  lemma PromotedIsArchivable(fs: Files, hot: Path, spec: CacheSpec, store: Store, entries: map<Path, Entry>)
    requires Sound(HotPlan(hot, spec.target, store)) && Stage(fs, HotPlan(hot, spec.target, store), entries)
    requires spec.target != [] && Distinct(spec.files) && forall f :: f in entries <==> f in spec.files
    ensures Archivable(fs, hot, spec, store, entries) && HotReady(fs, hot, spec.target, store)
  {
    var root := hot + spec.target;
    forall f | f in entries ensures f != [] && Holds(fs, root + f, store, entries[f]) {
      assert LaidAt(fs, root, HotBlobs(hot), store, f, entries[f]);
      LaidIsHeld(fs, root, HotBlobs(hot), store, f, entries[f]);
    }
    ClearShorter(fs, root);
  }
}
