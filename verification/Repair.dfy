/**
 * Repairing the link tree of a file artifact in place (cmd/llm-proxy/cache_manager.go,
 * repairHotMaterialization, hotArtifactExists).
 */
module Repair {
  import opened Prelude
  import opened Paths
  import opened FileSystem
  import opened Layout
  import opened Archive
  import CacheKeys
  import RoundTrip

  function LegacyBlobs(hot: Path): Path { hot + ["blobs"] }

  /** filepath.Base of a link's text. */
  function BaseName(t: Target): string {
    if t.parts == [] then (if t.absolute then "/" else ".") else t.parts[|t.parts| - 1]
  }

  /** Moves the legacy store below gguf and leaves a link under its old name. */
  function MoveStore(fs: Files, hot: Path): Outcome {
    var r := Rename(fs, LegacyBlobs(hot), HotBlobs(hot));
    if !r.ok then r
    else
      var q := Place(r.fs, LegacyBlobs(hot));
      if q.None? || q.value in r.fs then Outcome(false, r.fs)
      else Outcome(true, r.fs[q.value := Link(Target(false, [GGUF, BLOBS]))])
  }

  /** The first half: a blob store outside gguf is moved below it, and its old name kept as a link. */
  function Relocate(fs: Files, hot: Path): Outcome {
    if Lstat(fs, HotBlobs(hot)).Some? then Outcome(true, fs)
    else
      var m := MkdirAll(fs, hot + [GGUF]);
      if !m.ok then m else MoveStore(m.fs, hot)
  }

  /** One round of the second half: a requested link is redirected to the retained blob of the same name. */
  function RelinkFile(fs: Files, hot: Path, p: Path): Outcome {
    match Lstat(fs, p)
    case Some(Link(t)) =>
      var blob := HotBlobs(hot) + [BaseName(t)];
      if p == [] || Read(fs, blob).None? then Outcome(false, fs) else ReplaceSymlink(fs, p, LinkTo(p, blob))
    case _ => Outcome(false, fs)
  }

  function RelinkFiles(fs: Files, hot: Path, root: Path, files: seq<Path>): Outcome
    decreases |files|
  {
    if files == [] then Outcome(true, fs)
    else
      var o := RelinkFile(fs, hot, root + files[0]);
      if !o.ok then o else RelinkFiles(o.fs, hot, root, files[1..])
  }

  /** repairHotMaterialization. */
  function RepairHot(fs: Files, hot: Path, spec: CacheSpec): Outcome {
    if spec.kind != CacheKeys.FILES then Outcome(false, fs)
    else
      var o := Relocate(fs, hot);
      if !o.ok then o else RelinkFiles(o.fs, hot, hot + spec.target, spec.files)
  }

  /** hotArtifactExists for a file artifact: every file leads to something, and not above gguf. */
  predicate FileServed(fs: Files, hot: Path, p: Path) {
    Stat(fs, p).Some? && !Escapes(hot + [GGUF], Resolve(fs, p).value)
  }

  predicate AllServed(fs: Files, hot: Path, root: Path, files: seq<Path>) {
    forall f :: f in files ==> FileServed(fs, hot, root + f)
  }

  // ------------------------------------------------------------------ relinking

  /** The blob a link's text speaks of. */
  function BlobFor(hot: Path, t: Target): Path { HotBlobs(hot) + [BaseName(t)] }

  /** The entry is a link, its blob is a file or a link, and it has been redirected to it. */
  predicate Relinked(orig: Files, fs: Files, hot: Path, p: Path) {
    && p in orig && p in fs && p != [] && orig[p].Link?
    && var blob := BlobFor(hot, orig[p].target);
       blob in orig && !orig[blob].Folder? && fs[p] == Link(LinkTo(p, blob))
  }

  /** Only links have changed, and only into links to retained blobs of the same name. */
  predicate RelinkOf(orig: Files, fs: Files, hot: Path) {
    fs.Keys == orig.Keys && forall p :: p in orig ==> fs[p] == orig[p] || Relinked(orig, fs, hot, p)
  }

  lemma RelinkKeepsTree(orig: Files, fs: Files, hot: Path)
    requires Tree(orig) && RelinkOf(orig, fs, hot)
    ensures Tree(fs)
  {
    forall p | p in fs ensures p != [] && IsPath(p) && IsFolder(fs, Dir(p)) {
      assert p in orig && IsFolder(orig, Dir(p));
    }
  }

  lemma LastOfRel(d: Path, b: Path)
    requires Common(d, b) < |b|
    ensures Rel(d, b) != [] && Rel(d, b)[|Rel(d, b)| - 1] == Base(b)
  {
  }

  /** Redirecting a link does not change the blob name it speaks of. */
  lemma BaseNameKept(orig: Files, fs: Files, hot: Path, p: Path)
    requires Tree(orig) && RelinkOf(orig, fs, hot) && p in orig && fs[p].Link?
    ensures orig[p].Link? && BaseName(fs[p].target) == BaseName(orig[p].target)
  {
    if fs[p] != orig[p] {
      var blob := BlobFor(hot, orig[p].target);
      CommonIsShort(orig, p, blob);
      LastOfRel(Dir(p), blob);
    }
  }

  /** A blob name under which something can be read is the name of a file or a link of the store. */
  lemma ReadableName(fs: Files, hot: Path, n: string)
    requires Tree(fs) && IsFolder(fs, HotBlobs(hot)) && Read(fs, HotBlobs(hot) + [n]).Some?
    ensures HotBlobs(hot) + [n] in fs && !fs[HotBlobs(hot) + [n]].Folder?
  {
    var h := HotBlobs(hot);
    assert [] + h == h;
    WalkFolders(fs, [], h, [n], LINK_LIMIT);
    if !Proper(n) {
      OddName(fs, hot, n);
    } else if h + [n] in fs && fs[h + [n]].Folder? {
      ResolveEntry(fs, h + [n]);
    }
  }

  /** Names that are not proper lead from a directory to a directory, or nowhere. */
  lemma OddName(fs: Files, hot: Path, n: string)
    requires Tree(fs) && IsFolder(fs, HotBlobs(hot)) && !Proper(n)
    ensures var q := Walk(fs, HotBlobs(hot), [n], LINK_LIMIT); q.Some? ==> IsFolder(fs, q.value)
  {
    var d := HotBlobs(hot);
    if n != "" && n != "." && n != UP {
      assert n in d + [n];
      assert d + [n] !in fs;
    } else if n == UP {
      AncestorIsFolder(fs, d, |d| - 1);
      assert d[..|d| - 1] == Dir(d);
    }
  }

  /** One round that succeeds rewrites one link. */
  lemma RelinkFileIs(orig: Files, fs: Files, hot: Path, p: Path)
    requires Tree(orig) && IsFolder(orig, HotBlobs(hot)) && RelinkOf(orig, fs, hot)
    requires p != [] && IsFolder(orig, Dir(p)) && RelinkFile(fs, hot, p).ok
    ensures p in fs && fs[p].Link? && orig[p].Link?
    ensures var blob := BlobFor(hot, orig[p].target);
            && blob in fs && !fs[blob].Folder?
            && RelinkFile(fs, hot, p).fs == fs[p := Link(LinkTo(p, blob))]
  {
    RelinkKeepsTree(orig, fs, hot);
    PlaceOfReal(fs, p);
    BaseNameKept(orig, fs, hot, p);
    ReadableName(fs, hot, BaseName(fs[p].target));
  }

  lemma RelinkOfStep(orig: Files, fs: Files, hot: Path, p: Path)
    requires RelinkOf(orig, fs, hot) && p != [] && p in fs && orig[p].Link?
    requires var blob := BlobFor(hot, orig[p].target); blob in fs && !fs[blob].Folder?
    ensures var next := fs[p := Link(LinkTo(p, BlobFor(hot, orig[p].target)))];
            RelinkOf(orig, next, hot) && Relinked(orig, next, hot, p)
  {
    var blob := BlobFor(hot, orig[p].target);
    var next := fs[p := Link(LinkTo(p, blob))];
    assert blob in orig && !orig[blob].Folder?;
    assert Relinked(orig, next, hot, p);
    assert next.Keys == fs.Keys;
    forall q | q in orig ensures next[q] == orig[q] || Relinked(orig, next, hot, q) {
      if q != p && fs[q] != orig[q] {
        assert Relinked(orig, fs, hot, q);
      }
    }
  }

  /** What a sequence of rounds keeps: redirected links stay, other entries are untouched. */
  predicate Advanced(orig: Files, fs: Files, end: Files, hot: Path, touched: set<Path>) {
    && RelinkOf(orig, end, hot)
    && (forall p :: p in touched ==> Relinked(orig, end, hot, p))
    && (forall p :: p in fs && p !in touched ==> p in end && end[p] == fs[p])
  }

  lemma RelinkStep(orig: Files, fs: Files, hot: Path, p: Path)
    requires Tree(orig) && IsFolder(orig, HotBlobs(hot)) && RelinkOf(orig, fs, hot)
    requires p != [] && IsFolder(orig, Dir(p)) && RelinkFile(fs, hot, p).ok
    ensures Advanced(orig, fs, RelinkFile(fs, hot, p).fs, hot, {p})
  {
    RelinkFileIs(orig, fs, hot, p);
    RelinkOfStep(orig, fs, hot, p);
  }

  lemma AdvancedTrans(orig: Files, a: Files, b: Files, c: Files, hot: Path, p: Path, rest: set<Path>)
    requires Advanced(orig, a, b, hot, {p}) && Advanced(orig, b, c, hot, rest)
    ensures Advanced(orig, a, c, hot, {p} + rest)
  {
    if p !in rest {
      assert Relinked(orig, b, hot, p);
      assert Relinked(orig, c, hot, p);
    }
  }

  function Requested(root: Path, files: seq<Path>): set<Path> { set f | f in files :: root + f }

  predicate RealParents(fs: Files, root: Path, files: seq<Path>) {
    forall f :: f in files ==> f != [] && IsFolder(fs, Dir(root + f))
  }

  lemma RelinkFilesStep(fs: Files, hot: Path, root: Path, files: seq<Path>)
    requires files != [] && RelinkFiles(fs, hot, root, files).ok
    ensures var o := RelinkFile(fs, hot, root + files[0]);
            o.ok && RelinkFiles(fs, hot, root, files) == RelinkFiles(o.fs, hot, root, files[1..])
  {
  }

  lemma ParentsOfRest(fs: Files, root: Path, files: seq<Path>)
    requires RealParents(fs, root, files) && files != []
    ensures files[0] != [] && IsFolder(fs, Dir(root + files[0])) && RealParents(fs, root, files[1..])
  {
    assert files[0] in files;
    forall f | f in files[1..] ensures f != [] && IsFolder(fs, Dir(root + f)) {
      assert f in files;
    }
  }

  /** The loop: every requested link leads to its retained blob, and no other entry has changed. */
  lemma {:induction false} RelinkAll(orig: Files, fs: Files, hot: Path, root: Path, files: seq<Path>)
    requires Tree(orig) && IsFolder(orig, HotBlobs(hot)) && RelinkOf(orig, fs, hot) && RealParents(orig, root, files)
    requires RelinkFiles(fs, hot, root, files).ok
    ensures Advanced(orig, fs, RelinkFiles(fs, hot, root, files).fs, hot, Requested(root, files))
    decreases |files|
  {
    if files == [] {
    } else {
      var p, rest := root + files[0], files[1..];
      ParentsOfRest(orig, root, files);
      RelinkFilesStep(fs, hot, root, files);
      RelinkStep(orig, fs, hot, p);
      var next := RelinkFile(fs, hot, p).fs;
      RelinkAll(orig, next, hot, root, rest);
      RequestedStep(root, files);
      AdvancedTrans(orig, fs, next, RelinkFiles(next, hot, root, rest).fs, hot, p, Requested(root, rest));
    }
  }

  lemma RequestedStep(root: Path, files: seq<Path>)
    requires files != []
    ensures Requested(root, files) == {root + files[0]} + Requested(root, files[1..])
  {
    assert forall g :: g in files <==> g == files[0] || g in files[1..];
  }

  // ------------------------------------------------------------------ relocating the blob store

  /** Real directories on the way, and a blob store, new or legacy, that is a real directory; it may hold anything. */
  predicate RepairReady(fs: Files, hot: Path) {
    && Tree(fs) && IsPath(hot) && hot != [] && IsFolder(fs, hot) && Clear(fs, hot + [GGUF])
    && (if HotBlobs(hot) in fs then IsFolder(fs, HotBlobs(hot))
        else LegacyBlobs(hot) in fs ==> IsFolder(fs, LegacyBlobs(hot)))
  }

  lemma StoreNames(hot: Path)
    ensures Proper(GGUF) && Proper(BLOBS) && Proper("blobs") && GGUF != "blobs"
    ensures Dir(LegacyBlobs(hot)) == hot && Dir(HotBlobs(hot)) == hot + [GGUF]
    ensures Apart(LegacyBlobs(hot), HotBlobs(hot)) && !(LegacyBlobs(hot) <= hot + [GGUF])
  {
    assert |GGUF| == 4 && |BLOBS| == 6 && |"blobs"| == 5 && GGUF[0] == 'g' && BLOBS[0] == '.' && "blobs"[0] == 'b';
    var l, h := LegacyBlobs(hot), HotBlobs(hot);
    assert l[|hot|] == "blobs" && h[|hot|] == GGUF && (hot + [GGUF])[|hot|] == GGUF;
  }

  function Relocated(fs: Files, hot: Path): Files {
    Moved(WithFolders(fs, hot + [GGUF]), LegacyBlobs(hot), HotBlobs(hot))
      [LegacyBlobs(hot) := Link(Target(false, [GGUF, BLOBS]))]
  }

  lemma NoStore(fs: Files, hot: Path)
    requires RepairReady(fs, hot)
    ensures Lstat(fs, HotBlobs(hot)).Some? <==> HotBlobs(hot) in fs
  {
    StoreNames(hot);
    var h := HotBlobs(hot);
    if IsFolder(fs, hot + [GGUF]) {
      PlaceOfReal(fs, h);
    } else {
      assert (hot + [GGUF])[..|hot| + 1] == hot + [GGUF];
      ClearIsAbsent(fs, hot + [GGUF]);
      assert IsFolder(fs, Dir(h)) == IsFolder(fs, hot + [GGUF]);
    }
  }

  lemma GgufMade(fs: Files, hot: Path)
    requires RepairReady(fs, hot) && HotBlobs(hot) !in fs
    ensures var made := WithFolders(fs, hot + [GGUF]);
            && MkdirAll(fs, hot + [GGUF]) == Outcome(true, made) && Tree(made) && Extends(fs, made)
            && IsFolder(made, hot + [GGUF]) && HotBlobs(hot) !in made
            && forall p :: p in made && LegacyBlobs(hot) <= p ==> p in fs
  {
    StoreNames(hot);
    MkdirAllClear(fs, hot + [GGUF]);
    WithFoldersKeeps(fs, hot + [GGUF]);
    WithFoldersIs(fs, hot + [GGUF], HotBlobs(hot));
    forall p | p in WithFolders(fs, hot + [GGUF]) && LegacyBlobs(hot) <= p ensures p in fs {
      WithFoldersIs(fs, hot + [GGUF], p);
      if p <= hot + [GGUF] {
        PrefixTrans(LegacyBlobs(hot), p, hot + [GGUF]);
      }
    }
  }

  lemma StoreMoves(made: Files, hot: Path)
    requires Tree(made) && IsPath(hot) && hot != [] && IsFolder(made, hot) && IsFolder(made, hot + [GGUF])
    requires HotBlobs(hot) !in made && LegacyBlobs(hot) in made
    ensures var moved := Moved(made, LegacyBlobs(hot), HotBlobs(hot));
            var end := moved[LegacyBlobs(hot) := Link(Target(false, [GGUF, BLOBS]))];
            MoveStore(made, hot) == Outcome(true, end) && Tree(end)
  {
    StoreNames(hot);
    var l, h := LegacyBlobs(hot), HotBlobs(hot);
    PlaceOfReal(made, l);
    PlaceOfReal(made, h);
    RoundTrip.MovedTree(made, l, h);
    var moved := Moved(made, l, h);
    assert !(h <= l) && !(h <= hot) && !(l <= hot);
    RoundTrip.MovedOutside(made, l, h, hot);
    RoundTrip.MovedOutside(made, l, h, l);
    PlaceOfReal(moved, l);
    RoundTrip.ChildAdded(moved, l, Link(Target(false, [GGUF, BLOBS])));
  }

  lemma NeedsLegacy(made: Files, hot: Path)
    requires Tree(made) && IsFolder(made, hot) && hot != [] && LegacyBlobs(hot) !in made
    ensures !MoveStore(made, hot).ok
  {
    StoreNames(hot);
    PlaceOfReal(made, LegacyBlobs(hot));
  }

  /** The file system relocation leaves: the store in place, or the legacy store moved as a whole. */
  function Settled(fs: Files, hot: Path): Files {
    if HotBlobs(hot) in fs then fs else Relocated(fs, hot)
  }

  predicate HasStore(fs: Files, hot: Path) { HotBlobs(hot) in fs || LegacyBlobs(hot) in fs }

  lemma RelocateIs(fs: Files, hot: Path)
    requires RepairReady(fs, hot) && Relocate(fs, hot).ok
    ensures HasStore(fs, hot) && Relocate(fs, hot).fs == Settled(fs, hot) && Tree(Settled(fs, hot))
  {
    NoStore(fs, hot);
    if HotBlobs(hot) !in fs {
      GgufMade(fs, hot);
      var made := WithFolders(fs, hot + [GGUF]);
      if LegacyBlobs(hot) in made {
        StoreMoves(made, hot);
      } else {
        NeedsLegacy(made, hot);
      }
    }
  }

  /** What lay outside the legacy store is where it was. */
  lemma RelocatedOutside(fs: Files, hot: Path, p: Path)
    requires RepairReady(fs, hot) && HotBlobs(hot) !in fs && p in fs && !(LegacyBlobs(hot) <= p)
    ensures p in Relocated(fs, hot) && Relocated(fs, hot)[p] == fs[p]
  {
    GgufMade(fs, hot);
    var made := WithFolders(fs, hot + [GGUF]);
    assert p in made && made[p] == fs[p];
    if HotBlobs(hot) <= p {
      RoundTrip.AbsentBelow(made, HotBlobs(hot), p);
    }
    RoundTrip.MovedOutside(made, LegacyBlobs(hot), HotBlobs(hot), p);
  }

  /** What lay in the legacy store is in the new one. */
  lemma RelocatedInside(fs: Files, hot: Path, r: Path)
    requires RepairReady(fs, hot) && HotBlobs(hot) !in fs && LegacyBlobs(hot) + r in fs
    ensures HotBlobs(hot) + r in Relocated(fs, hot) && Relocated(fs, hot)[HotBlobs(hot) + r] == fs[LegacyBlobs(hot) + r]
  {
    GgufMade(fs, hot);
    StoreNames(hot);
    RoundTrip.MovedInside(WithFolders(fs, hot + [GGUF]), LegacyBlobs(hot), HotBlobs(hot), r);
    assert HotBlobs(hot) <= HotBlobs(hot) + r;
  }

  /** What a relocated file system holds under the store's old name and at the store itself. */
  lemma RelocatedStore(fs: Files, hot: Path)
    requires RepairReady(fs, hot) && HotBlobs(hot) !in fs && LegacyBlobs(hot) in fs
    ensures IsFolder(Relocated(fs, hot), HotBlobs(hot))
  {
    var l, h := LegacyBlobs(hot), HotBlobs(hot);
    assert l + [] == l && h + [] == h;
    RelocatedInside(fs, hot, []);
  }

  // ------------------------------------------------------------------ the repaired file system

  /** Where repair leaves an entry. */
  function Home(fs: Files, hot: Path, p: Path): Path {
    if HotBlobs(hot) !in fs && LegacyBlobs(hot) <= p then HotBlobs(hot) + p[|LegacyBlobs(hot)|..] else p
  }

  lemma EntryKept(fs: Files, hot: Path, p: Path)
    requires RepairReady(fs, hot) && HasStore(fs, hot) && p in fs
    ensures Home(fs, hot, p) in Settled(fs, hot) && Settled(fs, hot)[Home(fs, hot, p)] == fs[p]
  {
    if HotBlobs(hot) !in fs {
      var l := LegacyBlobs(hot);
      if l <= p {
        assert p == l + p[|l|..];
        RelocatedInside(fs, hot, p[|l|..]);
      } else {
        RelocatedOutside(fs, hot, p);
      }
    }
  }

  /** Requests that can be repaired: targets below gguf, files in real directories. */
  predicate Repairable(fs: Files, hot: Path, spec: CacheSpec) {
    RepairReady(fs, hot) && BelowGguf(spec.target) && RealParents(fs, hot + spec.target, spec.files)
  }

  lemma NotLegacy(hot: Path, target: Path, f: Path)
    requires BelowGguf(target)
    ensures !(LegacyBlobs(hot) <= hot + target + f)
  {
    StoreNames(hot);
    assert (hot + target + f)[|hot|] == target[0] == GGUF && LegacyBlobs(hot)[|hot|] == "blobs";
  }

  lemma ParentsKept(fs: Files, hot: Path, spec: CacheSpec)
    requires Repairable(fs, hot, spec) && HasStore(fs, hot)
    ensures RealParents(Settled(fs, hot), hot + spec.target, spec.files)
  {
    if HotBlobs(hot) !in fs {
      forall f | f in spec.files ensures IsFolder(Relocated(fs, hot), Dir(hot + spec.target + f)) {
        assert Dir(hot + spec.target + f) == hot + spec.target + Dir(f);
        NotLegacy(hot, spec.target, Dir(f));
        RelocatedOutside(fs, hot, Dir(hot + spec.target + f));
      }
    }
  }

  /** The links at the given places redirected to the blobs they speak of; nothing else changed. */
  function Redirect(fs: Files, hot: Path, touched: set<Path>): Files {
    map p | p in fs :: if p in touched && p != [] && fs[p].Link? then Link(LinkTo(p, BlobFor(hot, fs[p].target)))
                       else fs[p]
  }

  /** What a successful repair leaves, computed from what it found. */
  function Repaired(fs: Files, hot: Path, spec: CacheSpec): Files {
    Redirect(Settled(fs, hot), hot, Requested(hot + spec.target, spec.files))
  }

  /**
   * A successful repair leaves exactly the relocated store and the requested links redirected: nothing is
   * fetched, copied or lost, and no other entry is touched.
   */
  lemma RepairIs(fs: Files, hot: Path, spec: CacheSpec)
    requires Repairable(fs, hot, spec) && RepairHot(fs, hot, spec).ok
    ensures HasStore(fs, hot) && Tree(Settled(fs, hot)) && IsFolder(Settled(fs, hot), HotBlobs(hot))
    ensures RepairHot(fs, hot, spec).fs == Repaired(fs, hot, spec) && Tree(Repaired(fs, hot, spec))
    ensures forall p :: p in Requested(hot + spec.target, spec.files) ==>
              Relinked(Settled(fs, hot), Repaired(fs, hot, spec), hot, p)
  {
    RelocateIs(fs, hot);
    if HotBlobs(hot) !in fs {
      RelocatedStore(fs, hot);
    }
    ParentsKept(fs, hot, spec);
    var moved := Settled(fs, hot);
    RelinkAll(moved, moved, hot, hot + spec.target, spec.files);
    RelinkKeepsTree(moved, RepairHot(fs, hot, spec).fs, hot);
    AdvancedIs(moved, RepairHot(fs, hot, spec).fs, hot, Requested(hot + spec.target, spec.files));
  }

  lemma AdvancedIs(orig: Files, end: Files, hot: Path, touched: set<Path>)
    requires Tree(orig) && Advanced(orig, orig, end, hot, touched)
    ensures end == Redirect(orig, hot, touched)
  {
    forall p | p in orig ensures p in end && end[p] == Redirect(orig, hot, touched)[p] {
      if p in touched {
        assert Relinked(orig, end, hot, p);
      }
    }
  }

  /** A successful repair changes no bytes: every regular file keeps its content, in the store's new place. */
  lemma RepairKeepsBytes(fs: Files, hot: Path, spec: CacheSpec, p: Path)
    requires Repairable(fs, hot, spec) && RepairHot(fs, hot, spec).ok && p in fs && fs[p].File?
    ensures var end := RepairHot(fs, hot, spec).fs;
            Home(fs, hot, p) in end && end[Home(fs, hot, p)] == fs[p]
  {
    RepairIs(fs, hot, spec);
    EntryKept(fs, hot, p);
  }

  // ------------------------------------------------------------------ when the repaired files are served

  /** The way from the directory of a redirected link to the store. */
  lemma WayToStore(fs: Files, hot: Path, p: Path, n: string, links: nat)
    requires Tree(fs) && p in fs && HotBlobs(hot) + [n] in fs && !fs[HotBlobs(hot) + [n]].Folder?
    ensures Walk(fs, Dir(p), Rel(Dir(p), HotBlobs(hot) + [n]), links) == Walk(fs, HotBlobs(hot), [n], links)
  {
    var d, h := Dir(p), HotBlobs(hot);
    var b := h + [n];
    var c := Common(d, b);
    assert Dir(b) == h && b[..|b|] == b;
    CommonIsShort(fs, p, b);
    WalkRel(fs, d, b, links);
    var head, tail := h[..c], h[c..];
    assert b[c..] == tail + [n] && b[..c] == head && head + tail == h;
    WalkFolders(fs, head, tail, [n], links);
  }

  lemma LeadsToStore(fs: Files, hot: Path, p: Path, n: string)
    requires Tree(fs) && p in fs && HotBlobs(hot) + [n] in fs && !fs[HotBlobs(hot) + [n]].Folder?
    requires fs[p] == Link(LinkTo(p, HotBlobs(hot) + [n]))
    ensures Resolve(fs, p) == Walk(fs, HotBlobs(hot), [n], LINK_LIMIT - 1)
  {
    ResolveLink(fs, p);
    WayToStore(fs, hot, p, n, LINK_LIMIT - 1);
  }

  /** A name of the store leads to a place below gguf. */
  predicate StaysBelow(fs: Files, hot: Path, n: string) {
    var q := Walk(fs, HotBlobs(hot), [n], LINK_LIMIT - 1);
    q.Some? && hot + [GGUF] <= q.value
  }

  /** A redirected link is served if and only if its blob leads to something below gguf. */
  lemma ServedExactly(fs: Files, hot: Path, p: Path, n: string)
    requires Tree(fs) && p in fs && HotBlobs(hot) + [n] in fs && !fs[HotBlobs(hot) + [n]].Folder?
    requires fs[p] == Link(LinkTo(p, HotBlobs(hot) + [n]))
    ensures FileServed(fs, hot, p) <==> StaysBelow(fs, hot, n)
  {
    LeadsToStore(fs, hot, p, n);
    var h := HotBlobs(hot);
    var q := Walk(fs, h, [n], LINK_LIMIT - 1);
    assert Dir(h + [n]) == h;
    if q.Some? {
      WalkEnds(fs, h, [n], LINK_LIMIT - 1);
      EscapeTest(hot + [GGUF], q.value);
    }
  }

  /** The name of the blob that the requested link speaks of before the repair. */
  function BlobName(fs: Files, p: Path): string {
    if p in fs && fs[p].Link? then BaseName(fs[p].target) else ""
  }

  /** Requested links are outside the legacy store, so relocation leaves them as they are. */
  lemma RequestedKept(fs: Files, hot: Path, spec: CacheSpec, f: Path)
    requires Repairable(fs, hot, spec) && HasStore(fs, hot) && f in spec.files
    requires hot + spec.target + f in Settled(fs, hot)
    ensures hot + spec.target + f in fs && Settled(fs, hot)[hot + spec.target + f] == fs[hot + spec.target + f]
  {
    if HotBlobs(hot) !in fs {
      var p := hot + spec.target + f;
      NotLegacy(hot, spec.target, f);
      RelocatedBack(fs, hot, spec, f);
      RelocatedOutside(fs, hot, p);
    }
  }

  lemma RelocatedBack(fs: Files, hot: Path, spec: CacheSpec, f: Path)
    requires Repairable(fs, hot, spec) && HotBlobs(hot) !in fs && f in spec.files
    requires hot + spec.target + f in Relocated(fs, hot)
    ensures hot + spec.target + f in fs
  {
    var p := hot + spec.target + f;
    StoreNames(hot);
    NotLegacy(hot, spec.target, f);
    assert Dir(p) == hot + spec.target + Dir(f);
    if HotBlobs(hot) <= p {
      assert |HotBlobs(hot)| <= |Dir(p)| && HotBlobs(hot) == p[..|HotBlobs(hot)|] == Dir(p)[..|HotBlobs(hot)|];
      RoundTrip.AbsentBelow(fs, HotBlobs(hot), Dir(p));
    }
    var made := WithFolders(fs, hot + [GGUF]);
    RoundTrip.MovedOutside(made, LegacyBlobs(hot), HotBlobs(hot), p);
    WithFoldersIs(fs, hot + [GGUF], p);
  }

  /** After a successful repair a requested link leads where the blob its old text named leads, one link further on. */
  lemma RequestedLeads(fs: Files, hot: Path, spec: CacheSpec, f: Path)
    requires Repairable(fs, hot, spec) && RepairHot(fs, hot, spec).ok && f in spec.files
    ensures var end, p := RepairHot(fs, hot, spec).fs, hot + spec.target + f;
            && Resolve(end, p) == Walk(end, HotBlobs(hot), [BlobName(fs, p)], LINK_LIMIT - 1)
            && (FileServed(end, hot, p) <==> StaysBelow(end, hot, BlobName(fs, p)))
  {
    RepairIs(fs, hot, spec);
    var p := hot + spec.target + f;
    assert p in Requested(hot + spec.target, spec.files);
    RequestedKept(fs, hot, spec, f);
    LeadsToStore(Repaired(fs, hot, spec), hot, p, BlobName(fs, p));
    ServedExactly(Repaired(fs, hot, spec), hot, p, BlobName(fs, p));
  }

  /**
   * When a successful repair makes the artifact exist: if and only if the blob named by each requested link
   * leads to a place below gguf, in the file system the repair is about to leave.
   */
  lemma RepairServesIff(fs: Files, hot: Path, spec: CacheSpec)
    requires Repairable(fs, hot, spec) && RepairHot(fs, hot, spec).ok
    ensures AllServed(RepairHot(fs, hot, spec).fs, hot, hot + spec.target, spec.files) <==>
            forall f :: f in spec.files ==>
                StaysBelow(Repaired(fs, hot, spec), hot, BlobName(fs, hot + spec.target + f))
  {
    RepairIs(fs, hot, spec);
    forall f | f in spec.files
      ensures FileServed(RepairHot(fs, hot, spec).fs, hot, hot + spec.target + f) <==>
              StaysBelow(Repaired(fs, hot, spec), hot, BlobName(fs, hot + spec.target + f))
    {
      RequestedLeads(fs, hot, spec, f);
    }
  }

  /** The way does not pass through any of the given links. */
  predicate Avoids(fs: Files, touched: set<Path>, at: Path, rest: seq<string>, links: nat)
    decreases links, |rest|
  {
    if rest == [] then true
    else
      var c, tail := rest[0], rest[1..];
      if c == "" || c == "." then Avoids(fs, touched, at, tail, links)
      else if c == UP then Avoids(fs, touched, if at == [] then [] else Dir(at), tail, links)
      else
        var next := at + [c];
        if next !in fs then true
        else
          match fs[next]
          case Folder => Avoids(fs, touched, next, tail, links)
          case File(_) => true
          case Link(t) =>
            next !in touched && (links == 0 || Avoids(fs, touched, if t.absolute then []
                                                                   else at, t.parts + tail, links - 1))
  }

  /** Such a way is not changed by redirecting the links. */
  lemma {:induction false} WalkAvoids(fs: Files, hot: Path, touched: set<Path>, at: Path, rest: seq<string>, links: nat)
    requires Avoids(fs, touched, at, rest, links)
    ensures Walk(Redirect(fs, hot, touched), at, rest, links) == Walk(fs, at, rest, links)
    decreases links, |rest|
  {
    if rest == [] {
    } else {
      var c, tail := rest[0], rest[1..];
      if c == "" || c == "." {
        WalkAvoids(fs, hot, touched, at, tail, links);
      } else if c == UP {
        WalkAvoids(fs, hot, touched, if at == [] then [] else Dir(at), tail, links);
      } else if at + [c] in fs {
        match fs[at + [c]]
        case Folder => WalkAvoids(fs, hot, touched, at + [c], tail, links);
        case File(_) =>
        case Link(t) =>
          if links > 0 {
            WalkAvoids(fs, hot, touched, if t.absolute then [] else at, t.parts + tail, links - 1);
          }
      }
    }
  }

  /** The blobs of the request lead past the requested links themselves. */
  predicate BlobsAvoid(fs: Files, hot: Path, spec: CacheSpec) {
    forall f :: f in spec.files ==>
      Avoids(Settled(fs, hot), Requested(hot + spec.target, spec.files), HotBlobs(hot),
             [BlobName(fs, hot + spec.target + f)], LINK_LIMIT - 1)
  }

  /** With blobs that do not lead back through requested links, the condition can be read off the relocated store. */
  lemma RepairServesIffSettled(fs: Files, hot: Path, spec: CacheSpec)
    requires Repairable(fs, hot, spec) && RepairHot(fs, hot, spec).ok && BlobsAvoid(fs, hot, spec)
    ensures AllServed(RepairHot(fs, hot, spec).fs, hot, hot + spec.target, spec.files) <==>
            forall f :: f in spec.files ==> StaysBelow(Settled(fs, hot), hot, BlobName(fs, hot + spec.target + f))
  {
    RepairServesIff(fs, hot, spec);
    forall f | f in spec.files
      ensures StaysBelow(Repaired(fs, hot, spec), hot, BlobName(fs, hot + spec.target + f)) <==>
              StaysBelow(Settled(fs, hot), hot, BlobName(fs, hot + spec.target + f))
    {
      WalkAvoids(Settled(fs, hot), hot, Requested(hot + spec.target, spec.files), HotBlobs(hot),
                 [BlobName(fs, hot + spec.target + f)], LINK_LIMIT - 1);
    }
  }

  /** The blob store a repair will work with: the new one, or the legacy one if there is no new one. */
  function StoreOf(fs: Files, hot: Path): Path { if HotBlobs(hot) in fs then HotBlobs(hot) else LegacyBlobs(hot) }

  /** The blob store, new or legacy, holds no links. */
  predicate RegularStore(fs: Files, hot: Path) {
    forall p :: p in fs && p != [] && Dir(p) == StoreOf(fs, hot) ==> !fs[p].Link?
  }

  /** With a store that holds no links, a successful repair always makes the artifact exist. */
  lemma RepairServes(fs: Files, hot: Path, spec: CacheSpec)
    requires Repairable(fs, hot, spec) && RepairHot(fs, hot, spec).ok && RegularStore(fs, hot)
    ensures AllServed(RepairHot(fs, hot, spec).fs, hot, hot + spec.target, spec.files)
  {
    RepairIs(fs, hot, spec);
    RepairServesIff(fs, hot, spec);
    forall f | f in spec.files ensures StaysBelow(Repaired(fs, hot, spec), hot, BlobName(fs, hot + spec.target + f)) {
      var p := hot + spec.target + f;
      assert p in Requested(hot + spec.target, spec.files);
      RequestedKept(fs, hot, spec, f);
      RegularBlob(fs, hot, BlobName(fs, p));
      RegularStays(Repaired(fs, hot, spec), hot, BlobName(fs, p));
    }
  }

  /** A blob that is no link leads to itself. */
  lemma RegularStays(fs: Files, hot: Path, n: string)
    requires Tree(fs) && HotBlobs(hot) + [n] in fs && !fs[HotBlobs(hot) + [n]].Link?
    ensures StaysBelow(fs, hot, n)
  {
    var blob := HotBlobs(hot) + [n];
    assert Dir(blob) == HotBlobs(hot) && Base(blob) == n && hot + [GGUF] <= blob;
    WalkLast(fs, blob, LINK_LIMIT - 1);
  }

  /** In such a store a blob that is no directory is a regular file, after relocation too. */
  lemma RegularBlob(fs: Files, hot: Path, n: string)
    requires RepairReady(fs, hot) && HasStore(fs, hot) && RegularStore(fs, hot)
    requires HotBlobs(hot) + [n] in Settled(fs, hot)
    ensures !Settled(fs, hot)[HotBlobs(hot) + [n]].Link?
  {
    var l, h := LegacyBlobs(hot), HotBlobs(hot);
    assert Dir(h + [n]) == h && Dir(l + [n]) == l;
    if h !in fs {
      RelocatedFrom(fs, hot, n);
      RelocatedInside(fs, hot, [n]);
    }
  }

  /** An entry of the relocated store comes from the legacy one. */
  lemma RelocatedFrom(fs: Files, hot: Path, n: string)
    requires RepairReady(fs, hot) && HotBlobs(hot) !in fs && HotBlobs(hot) + [n] in Relocated(fs, hot)
    ensures LegacyBlobs(hot) + [n] in fs
  {
    var l, h := LegacyBlobs(hot), HotBlobs(hot);
    var p := h + [n];
    GgufMade(fs, hot);
    StoreNames(hot);
    var made := WithFolders(fs, hot + [GGUF]);
    assert h <= p;
    RoundTrip.AbsentBelow(made, h, p);
    RoundTrip.MovedFrom(made, l, h, p);
    assert p[|h|..] == [n] && l <= l + [n];
  }

  // ------------------------------------------------------------------ when a repair succeeds

  /** The place holds a link, and the store has a regular blob of the name the link's text ends in. */
  predicate BlobAtHand(fs: Files, hot: Path, p: Path) {
    && p in fs && fs[p].Link?
    && var blob := StoreOf(fs, hot) + [BaseName(fs[p].target)]; blob in fs && fs[blob].File?
  }

  /** A blob of the store, where the repair finds it and where it leaves it. */
  lemma BlobMoves(fs: Files, hot: Path, n: string)
    requires RepairReady(fs, hot) && HasStore(fs, hot)
    ensures StoreOf(fs, hot) + [n] in fs <==> HotBlobs(hot) + [n] in Settled(fs, hot)
    ensures StoreOf(fs, hot) + [n] in fs ==> Settled(fs, hot)[HotBlobs(hot) + [n]] == fs[StoreOf(fs, hot) + [n]]
  {
    if HotBlobs(hot) !in fs {
      if LegacyBlobs(hot) + [n] in fs {
        RelocatedInside(fs, hot, [n]);
      } else if HotBlobs(hot) + [n] in Relocated(fs, hot) {
        RelocatedFrom(fs, hot, n);
      }
    }
  }

  lemma RelinkFileWorks(orig: Files, fs: Files, hot: Path, p: Path)
    requires Tree(orig) && RelinkOf(orig, fs, hot) && p in orig && orig[p].Link?
    requires var blob := BlobFor(hot, orig[p].target); blob in orig && orig[blob].File?
    ensures RelinkFile(fs, hot, p).ok
  {
    RelinkKeepsTree(orig, fs, hot);
    assert fs[p].Link?;
    PlaceOfReal(fs, p);
    BaseNameKept(orig, fs, hot, p);
    ResolveEntry(fs, BlobFor(hot, orig[p].target));
  }

  lemma {:induction false} RelinkFilesWork(orig: Files, fs: Files, hot: Path, root: Path, files: seq<Path>)
    requires Tree(orig) && IsFolder(orig, HotBlobs(hot)) && RelinkOf(orig, fs, hot) && RealParents(orig, root, files)
    requires forall f :: f in files ==> Holding(orig, hot, root + f)
    ensures RelinkFiles(fs, hot, root, files).ok
    decreases |files|
  {
    if files != [] {
      var p := root + files[0];
      assert files[0] in files && Holding(orig, hot, p);
      ParentsOfRest(orig, root, files);
      RelinkFileWorks(orig, fs, hot, p);
      RelinkStep(orig, fs, hot, p);
      RelinkFilesWork(orig, RelinkFile(fs, hot, p).fs, hot, root, files[1..]);
    }
  }

  /** After relocation: a link whose blob is a regular file of the new store. */
  predicate Holding(fs: Files, hot: Path, p: Path) {
    p in fs && fs[p].Link? && var blob := BlobFor(hot, fs[p].target); blob in fs && fs[blob].File?
  }

  lemma RelocateWorks(fs: Files, hot: Path)
    requires RepairReady(fs, hot) && HasStore(fs, hot)
    ensures Relocate(fs, hot).ok
  {
    NoStore(fs, hot);
    if HotBlobs(hot) !in fs {
      GgufMade(fs, hot);
      StoreMoves(WithFolders(fs, hot + [GGUF]), hot);
    }
  }

  /** A requested place survives relocation as it is. */
  lemma AtHandHolds(fs: Files, hot: Path, spec: CacheSpec, f: Path)
    requires Repairable(fs, hot, spec) && HasStore(fs, hot) && f in spec.files
    ensures BlobAtHand(fs, hot, hot + spec.target + f) <==> Holding(Settled(fs, hot), hot, hot + spec.target + f)
  {
    var p := hot + spec.target + f;
    if p in fs {
      NotLegacy(hot, spec.target, f);
      EntryKept(fs, hot, p);
      if fs[p].Link? {
        BlobMoves(fs, hot, BaseName(fs[p].target));
      }
    } else if p in Settled(fs, hot) {
      RequestedKept(fs, hot, spec, f);
    }
  }

  /**
   * When a repair succeeds, for a store that holds no links: if and only if the artifact is a file artifact, there
   * is a store, and every requested place holds a link whose blob the store has as a regular file.
   */
  lemma RepairSucceedsIff(fs: Files, hot: Path, spec: CacheSpec)
    requires Repairable(fs, hot, spec) && RegularStore(fs, hot)
    ensures RepairHot(fs, hot, spec).ok <==>
            && spec.kind == CacheKeys.FILES && HasStore(fs, hot)
            && forall f :: f in spec.files ==> BlobAtHand(fs, hot, hot + spec.target + f)
  {
    if RepairHot(fs, hot, spec).ok {
      RepairIs(fs, hot, spec);
      forall f | f in spec.files ensures BlobAtHand(fs, hot, hot + spec.target + f) {
        var p := hot + spec.target + f;
        assert p in Requested(hot + spec.target, spec.files);
        RegularBlob(fs, hot, BaseName(Settled(fs, hot)[p].target));
        AtHandHolds(fs, hot, spec, f);
      }
    }
    if HasStore(fs, hot) && (forall f :: f in spec.files ==> BlobAtHand(fs, hot, hot + spec.target + f)) {
      AtHandSuffices(fs, hot, spec);
    }
  }

  lemma AtHandSuffices(fs: Files, hot: Path, spec: CacheSpec)
    requires Repairable(fs, hot, spec) && HasStore(fs, hot)
    requires forall f :: f in spec.files ==> BlobAtHand(fs, hot, hot + spec.target + f)
    ensures spec.kind == CacheKeys.FILES ==> RepairHot(fs, hot, spec).ok
  {
    RelocateWorks(fs, hot);
    RelocateIs(fs, hot);
    if HotBlobs(hot) !in fs {
      RelocatedStore(fs, hot);
    }
    ParentsKept(fs, hot, spec);
    forall f | f in spec.files ensures Holding(Settled(fs, hot), hot, hot + spec.target + f) {
      AtHandHolds(fs, hot, spec, f);
    }
    RelinkFilesWork(Settled(fs, hot), Settled(fs, hot), hot, hot + spec.target, spec.files);
  }

  /**
   * A store that appears under gguf before the legacy one has been moved cuts the legacy artifacts off: their
   * blobs are kept under the old name, and every repair of them fails.
   */
  lemma NewStoreBlocksRepair(fs: Files, hot: Path, spec: CacheSpec, f: Path)
    requires Repairable(fs, hot, spec) && RegularStore(fs, hot) && f in spec.files && HotBlobs(hot) in fs
    requires var p := hot + spec.target + f;
             && p in fs && fs[p].Link? && HotBlobs(hot) + [BaseName(fs[p].target)] !in fs
             && LegacyBlobs(hot) + [BaseName(fs[p].target)] in fs
    ensures !RepairHot(fs, hot, spec).ok
  {
    RepairSucceedsIff(fs, hot, spec);
    assert !BlobAtHand(fs, hot, hot + spec.target + f);
  }

  // ------------------------------------------------------------------ blobs that lead out of the cache

  /** With a blob that is itself a link out of the hot cache, the repair succeeds and the file is still not served. */
  lemma LinkedBlobEscapes(fs: Files, hot: Path, spec: CacheSpec, f: Path, n: string, x: string)
    requires Tree(fs) && spec.kind == CacheKeys.FILES && spec.files == [f]
    requires var p := hot + spec.target + f; p in fs && fs[p] == Link(LinkTo(p, HotBlobs(hot) + [n]))
    requires HotBlobs(hot) + [n] in fs && fs[HotBlobs(hot) + [n]] == Link(Target(true, [x])) && [x] in fs
    requires fs[[x]].File?
    ensures RepairHot(fs, hot, spec) == Outcome(true, fs) && !AllServed(fs, hot, hot + spec.target, spec.files)
  {
    var h, p := HotBlobs(hot), hot + spec.target + f;
    assert Dir(h + [n]) == h;
    PlaceOfReal(fs, h);
    EscapingRelink(fs, hot, p, n, x);
    OneFile(fs, hot, hot + spec.target, f);
    EscapingBlob(fs, hot, p, n, x);
    assert f in spec.files;
  }

  lemma OneFile(fs: Files, hot: Path, root: Path, f: Path)
    requires RelinkFile(fs, hot, root + f) == Outcome(true, fs)
    ensures RelinkFiles(fs, hot, root, [f]) == Outcome(true, fs)
  {
    assert [f][1..] == [];
  }

  lemma EscapingRelink(fs: Files, hot: Path, p: Path, n: string, x: string)
    requires Tree(fs) && p in fs && HotBlobs(hot) + [n] in fs && [x] in fs && fs[[x]].File?
    requires fs[HotBlobs(hot) + [n]] == Link(Target(true, [x])) && fs[p] == Link(LinkTo(p, HotBlobs(hot) + [n]))
    ensures RelinkFile(fs, hot, p) == Outcome(true, fs)
  {
    var b := HotBlobs(hot) + [n];
    EscapingRead(fs, HotBlobs(hot), n, x);
    PlaceOfReal(fs, p);
    assert Dir(b) == HotBlobs(hot) && Base(b) == n;
    CommonIsShort(fs, p, b);
    LastOfRel(Dir(p), b);
    assert fs[p := fs[p]] == fs;
  }

  lemma EscapingRead(fs: Files, h: Path, n: string, x: string)
    requires Tree(fs) && h + [n] in fs && [x] in fs && fs[[x]].File? && fs[h + [n]] == Link(Target(true, [x]))
    ensures Read(fs, h + [n]).Some?
  {
    var b := h + [n];
    assert Dir(b) == h && [] + h == h && n in b && x in [x];
    OutOfStore(fs, h, n, x, LINK_LIMIT);
    WalkFolders(fs, [], h, [n], LINK_LIMIT);
  }

  lemma EscapingBlob(fs: Files, hot: Path, p: Path, n: string, x: string)
    requires Tree(fs) && p in fs && HotBlobs(hot) + [n] in fs && [x] in fs && fs[[x]].File?
    requires fs[HotBlobs(hot) + [n]] == Link(Target(true, [x])) && fs[p] == Link(LinkTo(p, HotBlobs(hot) + [n]))
    ensures !FileServed(fs, hot, p)
  {
    assert n in HotBlobs(hot) + [n] && x in [x];
    OutOfStore(fs, HotBlobs(hot), n, x, LINK_LIMIT - 1);
    OutsideGguf(fs, hot, n, x);
    ServedExactly(fs, hot, p, n);
  }

  lemma OutsideGguf(fs: Files, hot: Path, n: string, x: string)
    requires Tree(fs) && HotBlobs(hot) + [n] in fs && [x] in fs && fs[[x]].File?
    ensures !(hot + [GGUF] <= [x])
  {
    var b := HotBlobs(hot) + [n];
    if hot + [GGUF] <= [x] {
      assert hot == [] && b[..1] == [x];
      AncestorIsFolder(fs, b, 1);
    }
  }

  lemma OutOfStore(fs: Files, h: Path, n: string, x: string, links: nat)
    requires Proper(n) && Proper(x) && h + [n] in fs && fs[h + [n]] == Link(Target(true, [x])) && links > 0
    requires [x] in fs && fs[[x]].File?
    ensures Walk(fs, h, [n], links) == Some([x])
  {
    assert [n][1..] == [] && [x] + [] == [x] && [] + [x] == [x];
    WalkName(fs, [], x, [], links - 1);
  }
}
