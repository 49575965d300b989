/**
 * How an artifact's files lie on disk: each requested file below `root` is a regular file, or a relative
 * link to a blob in a shared directory `blobs`.  Staging areas, cold artifacts and the hot cache all have
 * this form, and every copy the cache manager makes adds one file in this form.
 */
module Layout {
  import opened Prelude
  import opened Paths
  import opened FileSystem

  datatype Entry = Regular(data: Content) | Blob(name: string)

  /** Blob names are content addresses: a name determines the bytes. */
  type Store = string -> Content

  function LinkTo(link: Path, blob: Path): Target
    requires link != []
  {
    Target(false, Rel(Dir(link), blob))
  }

  predicate LaidAt(fs: Files, root: Path, blobs: Path, store: Store, f: Path, e: Entry) {
    var p := root + f;
    && f != [] && p in fs
    && match e
       case Regular(d) => fs[p] == File(d)
       case Blob(n) =>
         && fs[p] == Link(LinkTo(p, blobs + [n]))
         && blobs + [n] in fs && fs[blobs + [n]] == File(store(n))
  }

  predicate Laid(fs: Files, root: Path, blobs: Path, store: Store, entries: map<Path, Entry>) {
    forall f :: f in entries ==> LaidAt(fs, root, blobs, store, f, entries[f])
  }

  function DataOf(store: Store, e: Entry): Content {
    match e case Regular(d) => d case Blob(n) => store(n)
  }

  /** A relative link between two physical places is followed to the blob. */
  lemma FollowLink(fs: Files, p: Path, blob: Path)
    requires Tree(fs) && p in fs && blob in fs && fs[blob].File?
    requires fs[p] == Link(LinkTo(p, blob))
    ensures Resolve(fs, p) == Some(blob)
  {
    ResolveLink(fs, p);
    FollowParts(fs, p, blob);
  }

  /** A directory above an entry and a file or link have less in common than the latter's whole path. */
  lemma CommonIsShort(fs: Files, p: Path, blob: Path)
    requires Tree(fs) && p in fs && blob in fs && !fs[blob].Folder?
    ensures Common(Dir(p), blob) < |blob|
  {
    var d := Dir(p);
    var n := Common(d, blob);
    assert d[..n] == p[..n] && blob[..|blob|] == blob;
    if n == |blob| {
      AncestorIsFolder(fs, p, n);
    }
  }

  /** The way from the directory of an entry to a file. */
  lemma FollowParts(fs: Files, p: Path, blob: Path)
    requires Tree(fs) && p in fs && blob in fs && fs[blob].File?
    ensures Walk(fs, Dir(p), Rel(Dir(p), blob), LINK_LIMIT - 1) == Some(blob)
  {
    var n := Common(Dir(p), blob);
    WalkRel(fs, Dir(p), blob, LINK_LIMIT - 1);
    CommonIsShort(fs, p, blob);
    assert blob[..n] + blob[n..] == blob;
    WalkToFile(fs, blob[..n], blob[n..], LINK_LIMIT - 1);
  }

  /** Every file laid out this way reads as its bytes, wherever the tree is. */
  lemma LaidReads(fs: Files, root: Path, blobs: Path, store: Store, f: Path, e: Entry)
    requires Tree(fs) && LaidAt(fs, root, blobs, store, f, e)
    ensures Read(fs, root + f) == Some(DataOf(store, e))
    ensures Resolve(fs, root + f) == Some(if e.Regular? then root + f else blobs + [e.name])
  {
    match e
    case Regular(_) => ResolveEntry(fs, root + f);
    case Blob(n) => FollowLink(fs, root + f, blobs + [n]);
  }

  lemma LaidExtends(fs: Files, more: Files, root: Path, blobs: Path, store: Store, entries: map<Path, Entry>)
    requires Laid(fs, root, blobs, store, entries) && Extends(fs, more)
    ensures Laid(more, root, blobs, store, entries)
  {
    forall f | f in entries ensures LaidAt(more, root, blobs, store, f, entries[f]) {
      assert LaidAt(fs, root, blobs, store, f, entries[f]);
    }
  }

  // ------------------------------------------------------------------ making directories

  /** No file or link stands where a directory is wanted. */
  predicate Clear(fs: Files, p: Path) {
    forall i :: 0 < i <= |p| && p[..i] in fs ==> fs[p[..i]].Folder?
  }

  function WithFolders(fs: Files, p: Path): Files
    decreases |p|
  {
    if p == [] then fs else WithFolders(fs, Dir(p))[p := Folder]
  }

  lemma {:induction false} WithFoldersIs(fs: Files, p: Path, q: Path)
    ensures q in WithFolders(fs, p) <==> q in fs || (q != [] && q <= p)
    ensures q in WithFolders(fs, p) ==> WithFolders(fs, p)[q] == if q != [] && q <= p then Folder else fs[q]
    decreases |p|
  {
    if p == [] {
    } else {
      WithFoldersIs(fs, Dir(p), q);
      assert q <= p <==> q <= Dir(p) || q == p by {
        if q <= p && q != p {
          assert q == p[..|q|] == Dir(p)[..|q|];
        }
        if q <= Dir(p) {
          assert q == Dir(p)[..|q|] == p[..|q|];
        }
      }
    }
  }

  /** What making directories does to the rest: nothing. */
  lemma WithFoldersKeeps(fs: Files, p: Path)
    requires Tree(fs) && Clear(fs, p) && IsPath(p)
    ensures Tree(WithFolders(fs, p)) && Extends(fs, WithFolders(fs, p)) && IsFolder(WithFolders(fs, p), p)
  {
    var made := WithFolders(fs, p);
    forall q | q in made ensures q != [] && IsPath(q) && IsFolder(made, Dir(q)) {
      WithFoldersIs(fs, p, q);
      if q != [] && q <= p {
        assert forall c :: c in q ==> c in p;
        WithFoldersIs(fs, p, Dir(q));
        assert Dir(q) <= p;
      } else {
        WithFoldersIs(fs, p, Dir(q));
      }
    }
    forall q | q in fs ensures q in made && made[q] == fs[q] {
      WithFoldersIs(fs, p, q);
      if q <= p {
        assert q == p[..|q|];
      }
    }
    WithFoldersIs(fs, p, p);
  }

  lemma WithFoldersAlready(fs: Files, p: Path)
    requires Tree(fs) && IsFolder(fs, p)
    ensures WithFolders(fs, p) == fs
    decreases |p|
  {
    if p != [] {
      WithFoldersAlready(fs, Dir(p));
    }
  }

  lemma ClearShorter(fs: Files, p: Path)
    requires Clear(fs, p) && p != []
    ensures Clear(fs, Dir(p))
  {
    forall i | 0 < i <= |Dir(p)| && Dir(p)[..i] in fs ensures fs[Dir(p)[..i]].Folder? {
      assert Dir(p)[..i] == p[..i];
    }
  }

  /** A clear path that is not a directory yet leads nowhere. */
  lemma {:induction false} ClearIsAbsent(fs: Files, p: Path)
    requires Tree(fs) && Clear(fs, p) && IsPath(p) && p !in fs && p != []
    ensures Resolve(fs, p).None?
    decreases |p|
  {
    var i :| 0 <= i < |p| && IsFolder(fs, p[..i]) && p[..i + 1] !in fs by {
      FirstAbsent(fs, p);
    }
    assert p[i] in p;
    ResolveAbsent(fs, p, i);
  }

  lemma {:induction false} FirstAbsent(fs: Files, p: Path)
    requires Tree(fs) && Clear(fs, p) && p !in fs && p != []
    ensures exists i :: 0 <= i < |p| && IsFolder(fs, p[..i]) && p[..i + 1] !in fs
    decreases |p|
  {
    var d := Dir(p);
    if IsFolder(fs, d) {
      assert p[..|p| - 1] == d && p[..|p| - 1 + 1] == p;
    } else {
      assert d == p[..|d|];
      ClearShorter(fs, p);
      FirstAbsent(fs, d);
      var i :| 0 <= i < |d| && IsFolder(fs, d[..i]) && d[..i + 1] !in fs;
      assert d[..i] == p[..i] && d[..i + 1] == p[..i + 1];
    }
  }

  /** os.MkdirAll on a clear path makes exactly the missing directories. */
  lemma {:induction false} MkdirAllClear(fs: Files, p: Path)
    requires Tree(fs) && Clear(fs, p) && IsPath(p)
    ensures MkdirAll(fs, p) == Outcome(true, WithFolders(fs, p))
    decreases |p|
  {
    if p == [] {
    } else if p in fs {
      assert p == p[..|p|];
      ResolveEntry(fs, p);
      WithFoldersAlready(fs, p);
    } else {
      ClearIsAbsent(fs, p);
      ClearShorter(fs, p);
      var d := Dir(p);
      assert forall c :: c in d ==> c in p;
      MkdirAllClear(fs, d);
      WithFoldersKeeps(fs, d);
      var made := WithFolders(fs, d);
      PlaceOfReal(made, p);
      WithFoldersIs(fs, d, p);
    }
  }

  // ------------------------------------------------------------------ adding one entry

  /** A new entry with the directories above it. */
  function With(fs: Files, p: Path, node: Node): Files
    requires p != []
  {
    WithFolders(fs, Dir(p))[p := node]
  }

  /** There is room for the entry: nothing at its name, and no file or link above it. */
  predicate Room(fs: Files, p: Path) { p != [] && IsPath(p) && Clear(fs, Dir(p)) && p !in fs }

  lemma WithIs(fs: Files, p: Path, node: Node, q: Path)
    requires p != []
    ensures q in With(fs, p, node) <==> q in fs || (q != [] && q <= p)
    ensures q in With(fs, p, node) ==>
              With(fs, p, node)[q] == if q == p then node else if q != [] && q <= p then Folder else fs[q]
  {
    WithFoldersIs(fs, Dir(p), q);
    PrefixOfDir(q, p);
  }

  lemma PrefixOfDir(q: Path, p: Path)
    requires p != []
    ensures q <= p <==> q <= Dir(p) || q == p
  {
    if q <= p && q != p {
      assert q == p[..|q|] == Dir(p)[..|q|];
    }
    if q <= Dir(p) {
      assert q == Dir(p)[..|q|] == p[..|q|];
    }
  }

  lemma WithKeeps(fs: Files, p: Path, node: Node)
    requires Tree(fs) && Room(fs, p)
    ensures Tree(With(fs, p, node)) && Extends(fs, With(fs, p, node))
  {
    assert forall c :: c in Dir(p) ==> c in p;
    WithFoldersKeeps(fs, Dir(p));
    var made := WithFolders(fs, Dir(p));
    WithFoldersIs(fs, Dir(p), p);
    forall q | q in With(fs, p, node) ensures q != [] && IsPath(q) && IsFolder(With(fs, p, node), Dir(q)) {
      if q != p {
        assert q in made;
      }
    }
  }

  /** Adding an entry blocks no path that does not pass through it. */
  lemma WithClear(fs: Files, p: Path, node: Node, q: Path)
    requires p != [] && Clear(fs, q) && !(p <= q)
    ensures Clear(With(fs, p, node), q)
  {
    forall i | 0 < i <= |q| && q[..i] in With(fs, p, node) ensures With(fs, p, node)[q[..i]].Folder? {
      WithIs(fs, p, node, q[..i]);
      assert q[..i] <= q;
    }
  }

  predicate Apart(p: Path, q: Path) { !(p <= q) && !(q <= p) }

  lemma ApartBelow(p: Path, q: Path, r: Path)
    requires Apart(p, q) && p <= r
    ensures Apart(r, q)
  {
    if q <= r {
      PrefixesCompare(p, q, r);
    }
    if r <= q {
      PrefixTrans(p, r, q);
    }
  }

  lemma PrefixTrans(p: Path, q: Path, r: Path)
    requires p <= q && q <= r
    ensures p <= r
  {
    assert p == q[..|p|] == r[..|p|];
  }

  lemma PrefixUnder(root: Path, d: Path, g: Path)
    ensures root + d <= root + g <==> d <= g
  {
    if root + d <= root + g {
      assert d == (root + d)[|root|..] == (root + g)[|root|..|root| + |d|] == g[..|d|];
    }
    if d <= g {
      assert root + d == root + g[..|d|] == (root + g)[..|root| + |d|];
    }
  }

  lemma PrefixesCompare(p: Path, q: Path, r: Path)
    requires p <= r && q <= r
    ensures p <= q || q <= p
  {
    assert p == r[..|p|] && q == r[..|q|];
    if |p| <= |q| {
      assert p == q[..|p|];
    } else {
      assert q == p[..|q|];
    }
  }

  // ------------------------------------------------------------------ laying out one file after the other

  /** Where everything goes: files below `root`, which lies in `area`, and blobs in a store apart from both. */
  datatype Plan = Plan(area: Path, root: Path, blobs: Path, store: Store)

  predicate Sound(plan: Plan) {
    && IsPath(plan.root) && IsPath(plan.blobs) && plan.area <= plan.root
    && Apart(plan.area, plan.blobs) && Apart(plan.root, plan.blobs)
  }

  predicate PrefixFree(entries: map<Path, Entry>) {
    forall f, g :: f in entries && g in entries && f <= g ==> f == g
  }

  predicate Named(f: Path, e: Entry) { f != [] && IsPath(f) && (e.Blob? ==> Proper(e.name)) }

  /** A path the laid-out files need: a directory on the way to the root, or on the way to a file, or a file. */
  predicate Needed(plan: Plan, done: map<Path, Entry>, p: Path) {
    p <= plan.root || exists g :: g in done && p <= plan.root + g
  }

  predicate OnlyNeeded(fs: Files, plan: Plan, done: map<Path, Entry>) {
    forall p :: p in fs && plan.area <= p ==> Needed(plan, done, p)
  }

  ghost predicate StoreAgrees(fs: Files, plan: Plan) {
    forall n :: plan.blobs + [n] in fs ==> fs[plan.blobs + [n]] == File(plan.store(n))
  }

  /** Exactly the files of `done` have been laid out. */
  ghost predicate Stage(fs: Files, plan: Plan, done: map<Path, Entry>) {
    && Tree(fs) && Clear(fs, plan.root) && Clear(fs, plan.blobs)
    && Laid(fs, plan.root, plan.blobs, plan.store, done)
    && OnlyNeeded(fs, plan, done) && StoreAgrees(fs, plan)
  }

  function Stored(fs: Files, plan: Plan, n: string): Files {
    With(fs, plan.blobs + [n], File(plan.store(n)))
  }

  function NodeFor(plan: Plan, f: Path, e: Entry): Node
    requires f != []
  {
    match e
    case Regular(d) => File(d)
    case Blob(n) => Link(LinkTo(plan.root + f, plan.blobs + [n]))
  }

  /** One file laid out. */
  function Put(fs: Files, plan: Plan, f: Path, e: Entry): Files
    requires f != []
  {
    With(if e.Blob? then Stored(fs, plan, e.name) else fs, plan.root + f, NodeFor(plan, f, e))
  }

  /** A blob that is in the store already is stored without effect. */
  lemma StoredAlready(fs: Files, plan: Plan, n: string)
    requires Tree(fs) && StoreAgrees(fs, plan) && plan.blobs + [n] in fs
    ensures Stored(fs, plan, n) == fs
  {
    assert Dir(plan.blobs + [n]) == plan.blobs;
    WithFoldersAlready(fs, plan.blobs);
    assert fs[plan.blobs + [n] := fs[plan.blobs + [n]]] == fs;
  }

  lemma StoredRoom(fs: Files, plan: Plan, n: string)
    requires Sound(plan) && Clear(fs, plan.blobs) && Proper(n) && plan.blobs + [n] !in fs
    ensures Room(fs, plan.blobs + [n])
  {
    assert Dir(plan.blobs + [n]) == plan.blobs;
  }

  /** Storing a blob leaves the area alone and adds to the store only. */
  lemma StoredKeeps(fs: Files, plan: Plan, done: map<Path, Entry>, n: string)
    requires Sound(plan) && Stage(fs, plan, done) && Proper(n)
    ensures Stage(Stored(fs, plan, n), plan, done) && Extends(fs, Stored(fs, plan, n))
    ensures plan.blobs + [n] in Stored(fs, plan, n)
  {
    if plan.blobs + [n] in fs {
      StoredAlready(fs, plan, n);
    } else {
      StoredRoom(fs, plan, n);
      var b, node := plan.blobs + [n], File(plan.store(n));
      WithKeeps(fs, b, node);
      LaidExtends(fs, Stored(fs, plan, n), plan.root, plan.blobs, plan.store, done);
      ApartBelow(plan.blobs, plan.root, b);
      WithClear(fs, b, node, plan.root);
      WithClear(fs, b, node, plan.blobs);
      StoredOutside(fs, plan, done, n);
    }
  }

  lemma StoredOutside(fs: Files, plan: Plan, done: map<Path, Entry>, n: string)
    requires Sound(plan) && OnlyNeeded(fs, plan, done) && StoreAgrees(fs, plan)
    ensures OnlyNeeded(Stored(fs, plan, n), plan, done) && StoreAgrees(Stored(fs, plan, n), plan)
  {
    var b, node := plan.blobs + [n], File(plan.store(n));
    ApartBelow(plan.blobs, plan.area, b);
    forall p | p in Stored(fs, plan, n) && plan.area <= p ensures Needed(plan, done, p) {
      WithIs(fs, b, node, p);
      if p <= b {
        PrefixTrans(plan.area, p, b);
      }
    }
    forall m | plan.blobs + [m] in Stored(fs, plan, n)
      ensures Stored(fs, plan, n)[plan.blobs + [m]] == File(plan.store(m))
    {
      var q := plan.blobs + [m];
      WithIs(fs, b, node, q);
      assert q <= b ==> q == b;
      assert q == b ==> q[|plan.blobs|] == m && b[|plan.blobs|] == n;
    }
  }

  /** What lies on the way to another file is a directory, and not on the end of the way to this one. */
  lemma BelowRoot(fs: Files, plan: Plan, done: map<Path, Entry>, f: Path, e: Entry, g: Path, d: Path)
    requires Tree(fs) && Laid(fs, plan.root, plan.blobs, plan.store, done)
    requires f !in done && PrefixFree(done[f := e]) && g in done && plan.root + d in fs
    requires plan.root + d <= plan.root + g && plan.root + d <= plan.root + f
    ensures d != f && (d != [] ==> fs[plan.root + d].Folder?)
  {
    PrefixUnder(plan.root, d, g);
    PrefixUnder(plan.root, d, f);
    assert LaidAt(fs, plan.root, plan.blobs, plan.store, g, done[g]);
    assert g in done[f := e] && f in done[f := e];
    if d != g && d != [] {
      var q := plan.root + d;
      AncestorIsFolder(fs, plan.root + g, |q|);
      assert (plan.root + g)[..|q|] == q;
    }
  }

  lemma OnTheWay(fs: Files, plan: Plan, done: map<Path, Entry>, f: Path, e: Entry, d: Path)
    requires Sound(plan) && Stage(fs, plan, done) && f !in done && PrefixFree(done[f := e])
    requires d != [] && d <= f && plan.root + d in fs
    ensures d != f && fs[plan.root + d].Folder?
  {
    var q := plan.root + d;
    PrefixTrans(plan.area, plan.root, q);
    assert Needed(plan, done, q);
    var g :| g in done && q <= plan.root + g;
    PrefixUnder(plan.root, d, f);
    BelowRoot(fs, plan, done, f, e, g, d);
  }

  /** Each step of the way to a new file is free or a directory. */
  lemma WayIsClear(fs: Files, plan: Plan, done: map<Path, Entry>, f: Path, e: Entry, i: nat)
    requires Sound(plan) && Stage(fs, plan, done) && f !in done && PrefixFree(done[f := e])
    requires 0 < i < |plan.root + f| && (plan.root + f)[..i] in fs
    ensures fs[(plan.root + f)[..i]].Folder?
  {
    var n := |plan.root|;
    if i <= n {
      assert (plan.root + f)[..i] == plan.root[..i];
    } else {
      assert (plan.root + f)[..i] == plan.root + f[..i - n];
      OnTheWay(fs, plan, done, f, e, f[..i - n]);
    }
  }

  /** A file that is not there yet has room. */
  lemma FileRoom(fs: Files, plan: Plan, done: map<Path, Entry>, f: Path, e: Entry)
    requires Sound(plan) && Stage(fs, plan, done) && Named(f, e) && f !in done && PrefixFree(done[f := e])
    ensures Room(fs, plan.root + f)
  {
    var p := plan.root + f;
    forall i | 0 < i <= |Dir(p)| && Dir(p)[..i] in fs ensures fs[Dir(p)[..i]].Folder? {
      assert Dir(p)[..i] == p[..i];
      WayIsClear(fs, plan, done, f, e, i);
    }
    if p in fs {
      OnTheWay(fs, plan, done, f, e, f);
    }
  }

  /** Laying out one more file keeps everything that was there, and adds exactly that file. */
  lemma PutKeeps(fs: Files, plan: Plan, done: map<Path, Entry>, f: Path, e: Entry)
    requires Sound(plan) && Stage(fs, plan, done) && Named(f, e) && f !in done && PrefixFree(done[f := e])
    ensures Stage(Put(fs, plan, f, e), plan, done[f := e]) && Extends(fs, Put(fs, plan, f, e))
  {
    if e.Blob? {
      StoredKeeps(fs, plan, done, e.name);
    }
    var mid := if e.Blob? then Stored(fs, plan, e.name) else fs;
    PlaceFile(mid, plan, done, f, e);
  }

  lemma PlaceFile(fs: Files, plan: Plan, done: map<Path, Entry>, f: Path, e: Entry)
    requires Sound(plan) && Stage(fs, plan, done) && Named(f, e) && f !in done && PrefixFree(done[f := e])
    requires e.Blob? ==> plan.blobs + [e.name] in fs
    ensures var made := With(fs, plan.root + f, NodeFor(plan, f, e));
            Stage(made, plan, done[f := e]) && Extends(fs, made)
  {
    var p, node := plan.root + f, NodeFor(plan, f, e);
    var made := With(fs, p, node);
    FileRoom(fs, plan, done, f, e);
    WithKeeps(fs, p, node);
    LaidExtends(fs, made, plan.root, plan.blobs, plan.store, done);
    WithClear(fs, p, node, plan.root);
    assert !(p <= plan.blobs) by {
      ApartBelow(plan.root, plan.blobs, p);
    }
    WithClear(fs, p, node, plan.blobs);
    WithIs(fs, p, node, p);
    PlaceOutside(fs, plan, done, f, e);
  }

  lemma PlaceOutside(fs: Files, plan: Plan, done: map<Path, Entry>, f: Path, e: Entry)
    requires Sound(plan) && OnlyNeeded(fs, plan, done) && StoreAgrees(fs, plan) && f != []
    ensures var made := With(fs, plan.root + f, NodeFor(plan, f, e));
            OnlyNeeded(made, plan, done[f := e]) && StoreAgrees(made, plan)
  {
    var p, node := plan.root + f, NodeFor(plan, f, e);
    var made := With(fs, p, node);
    forall q | q in made && plan.area <= q ensures Needed(plan, done[f := e], q) {
      WithIs(fs, p, node, q);
      if q <= p {
        assert f in done[f := e];
      } else {
        assert Needed(plan, done, q);
        if !(q <= plan.root) {
          var g :| g in done && q <= plan.root + g;
          assert g in done[f := e];
        }
      }
    }
    ApartBelow(plan.root, plan.blobs, p);
    forall n | plan.blobs + [n] in made ensures made[plan.blobs + [n]] == File(plan.store(n)) {
      var q := plan.blobs + [n];
      WithIs(fs, p, node, q);
      if q <= p {
        PrefixTrans(plan.blobs, q, p);
      }
    }
  }

  // ------------------------------------------------------------------ what is not touched

  predicate Comparable(p: Path, q: Path) { p <= q || q <= p }

  /** Only paths on the way to, at or below the root and the blob store are new. */
  predicate AddsOnly(fs: Files, more: Files, plan: Plan) {
    forall q :: q in more && q !in fs ==> Comparable(q, plan.root) || Comparable(q, plan.blobs)
  }

  lemma WithAdds(fs: Files, plan: Plan, base: Path, p: Path, node: Node)
    requires p != [] && base <= p && (base == plan.root || base == plan.blobs)
    ensures AddsOnly(fs, With(fs, p, node), plan)
  {
    forall q | q in With(fs, p, node) && q !in fs ensures Comparable(q, base) {
      WithIs(fs, p, node, q);
      PrefixesCompare(q, base, p);
    }
  }

  lemma PutAdds(fs: Files, plan: Plan, f: Path, e: Entry)
    requires f != []
    ensures AddsOnly(fs, Put(fs, plan, f, e), plan)
  {
    var mid := if e.Blob? then Stored(fs, plan, e.name) else fs;
    if e.Blob? {
      WithAdds(fs, plan, plan.blobs, plan.blobs + [e.name], File(plan.store(e.name)));
    }
    WithAdds(mid, plan, plan.root, plan.root + f, NodeFor(plan, f, e));
  }

  /** Nothing lies below a regular file or a link. */
  lemma NothingBelow(fs: Files, p: Path, q: Path)
    requires Tree(fs) && p in fs && q in fs && p <= q && !fs[p].Folder?
    ensures p == q
  {
    assert q[..|p|] == p;
    if |p| < |q| {
      AncestorIsFolder(fs, q, |p|);
    }
  }

  lemma ClearAt(fs: Files, root: Path, p: Path)
    requires Clear(fs, root) && p in fs && p != [] && p <= root
    ensures fs[p].Folder?
  {
    assert p == root[..|p|];
  }

  /** Regular files and links in the area are exactly the laid-out ones. */
  lemma StageNodes(fs: Files, plan: Plan, done: map<Path, Entry>, p: Path)
    requires Stage(fs, plan, done) && p in fs && plan.area <= p && !fs[p].Folder?
    ensures exists f :: f in done && p == plan.root + f
  {
    assert Needed(plan, done, p);
    if p <= plan.root {
      ClearAt(fs, plan.root, p);
    }
    var g :| g in done && p <= plan.root + g;
    assert LaidAt(fs, plan.root, plan.blobs, plan.store, g, done[g]);
    NothingBelow(fs, p, plan.root + g);
  }
}
