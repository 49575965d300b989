/**
 * Copying file artifacts between the hot cache and cold storage (cmd/llm-proxy/cache_manager.go): the
 * copy loops of archiveHot and materialize as functions on the file system.
 */
module Archive {
  import opened Prelude
  import opened Paths
  import opened FileSystem
  import opened Layout

  // ------------------------------------------------------------------ copyTree, copyHuggingFaceFile

  /** Makes the directories above a file and writes it. */
  function Create(fs: Files, p: Path, data: Content): Outcome
    requires p != []
  {
    var o := MkdirAll(fs, Dir(p));
    if !o.ok then o else Write(o.fs, p, data)
  }

  /** Makes the directories above a link and puts it in place of whatever stood there. */
  function Relink(fs: Files, p: Path, t: Target): Outcome
    requires p != []
  {
    var o := MkdirAll(fs, Dir(p));
    if !o.ok then o else ReplaceSymlink(o.fs, p, t)
  }

  /** Removes an entry and puts a link in its place. */
  function FreshLink(fs: Files, p: Path, t: Target): Outcome
    requires p != []
  {
    var o := MkdirAll(fs, Dir(p));
    if !o.ok then o
    else
      var r := Remove(o.fs, p);
      if !r.ok then r else ReplaceSymlink(r.fs, p, t)
  }

  /** copyTree of one entry: links are copied as they are; directories are not part of this model. */
  function CopyTree(fs: Files, source: Path, destination: Path): Outcome
    requires destination != []
  {
    match Lstat(fs, source)
    case None => Outcome(false, fs)
    case Some(Folder) => Outcome(false, fs)
    case Some(File(d)) => Create(fs, destination, d)
    case Some(Link(t)) => FreshLink(fs, destination, t)
  }

  /** copyHuggingFaceFile. */
  function CopyHuggingFaceFile(fs: Files, source: Path, destination: Path, blobs: Path): Outcome {
    var n := Lstat(fs, source);
    if n.None? || destination == [] then Outcome(false, fs)
    else if !n.value.Link? then CopyTree(fs, source, destination)
    else
      var sourceBlob := Follow(true, Dir(source), n.value.target.parts);
      if sourceBlob == [] || Read(fs, sourceBlob).None? then Outcome(false, fs)
      else
        var destinationBlob := blobs + [Base(sourceBlob)];
        var o := CopyTree(fs, sourceBlob, destinationBlob);
        if !o.ok then o else FreshLink(o.fs, destination, LinkTo(destination, destinationBlob))
  }

  /** The copy loop of archiveHot. */
  function CopyFiles(fs: Files, source: Path, destination: Path, blobs: Path, files: seq<Path>): Outcome
    decreases |files|
  {
    if files == [] then Outcome(true, fs)
    else
      var o := CopyHuggingFaceFile(fs, source + files[0], destination + files[0], blobs);
      if !o.ok then o else CopyFiles(o.fs, source, destination, blobs, files[1..])
  }

  // ------------------------------------------------------------------ copyAndVerify, materialize

  /** copyAndVerify. */
  function CopyAndVerify(fs: Files, source: Path, destination: Path, size: nat, digest: Option<Content>): Outcome
    requires destination != []
  {
    var data := Read(fs, source);
    if data.None? then Outcome(false, fs)
    else
      var o := Create(fs, destination, data.value);
      if !o.ok then o
      else if Size(data.value) != size || (digest.Some? && Digest(data.value) != digest.value) then
        Outcome(false, Remove(o.fs, destination).fs)
      else o
  }

  const PAYLOAD := "payload"
  const FILES_DIR := "files"

  /** The file whose presence says that an artifact or a marker is complete. */
  const COMPLETE := ".complete"

  function HotBlobs(hot: Path): Path { hot + [GGUF, BLOBS] }

  predicate Escapes(base: Path, p: Path) {
    var r := Rel(base, p);
    r != [] && r[0] == UP
  }

  /** Promotes the blob, unless it is hot, and links it. */
  function PromoteLink(fs: Files, sourceBlob: Path, hotBlob: Path, to: Path): Outcome
    requires hotBlob != [] && to != []
  {
    var data := Read(fs, sourceBlob);
    if data.None? then Outcome(false, fs)
    else
      var o :=
        if Lstat(fs, hotBlob).Some? then Outcome(true, fs)
        else CopyAndVerify(fs, sourceBlob, hotBlob, Size(data.value), None);
      if !o.ok then o else Relink(o.fs, to, LinkTo(to, hotBlob))
  }

  /** One round of the loop of materialize for a file artifact. */
  function MaterializeItem(fs: Files, artifact: Path, hot: Path, target: Path, item: Item): Outcome {
    if |item.path| < 2 || item.path[0] != FILES_DIR then Outcome(false, fs)
    else
      var from := artifact + [PAYLOAD] + item.path;
      var to := hot + target + item.path[1..];
      if item.link.None? then CopyAndVerify(fs, from, to, item.size, item.digest)
      else if Lstat(fs, from) != Some(Link(item.link.value)) then Outcome(false, fs)
      else
        var sourceBlob := Follow(true, Dir(from), item.link.value.parts);
        if sourceBlob == [] || Escapes(artifact, sourceBlob) then Outcome(false, fs)
        else PromoteLink(fs, sourceBlob, HotBlobs(hot) + [Base(sourceBlob)], to)
  }

  function Materialize(fs: Files, artifact: Path, hot: Path, target: Path, items: seq<Item>): Outcome
    decreases |items|
  {
    if items == [] then Outcome(true, fs)
    else
      var o := MaterializeItem(fs, artifact, hot, target, items[0]);
      if !o.ok then o else Materialize(o.fs, artifact, hot, target, items[1..])
  }

  // ------------------------------------------------------------------ what the single steps do

  lemma WriteRoom(fs: Files, p: Path, data: Content)
    requires Tree(fs) && Room(fs, p) && IsFolder(fs, Dir(p))
    ensures Write(fs, p, data) == Outcome(true, fs[p := File(data)])
  {
    assert Clear(fs, p) by {
      assert p[..|p|] == p;
      forall i | 0 < i <= |p| && p[..i] in fs ensures fs[p[..i]].Folder? {
        if i < |p| {
          assert p[..i] == Dir(p)[..i];
        }
      }
    }
    ClearIsAbsent(fs, p);
    PlaceOfReal(fs, p);
  }

  lemma MadeRoom(fs: Files, p: Path)
    requires Tree(fs) && Room(fs, p)
    ensures var made := WithFolders(fs, Dir(p));
            MkdirAll(fs, Dir(p)) == Outcome(true, made) && Tree(made) && Room(made, p) && IsFolder(made, Dir(p))
  {
    var d := Dir(p);
    assert forall c :: c in d ==> c in p;
    MkdirAllClear(fs, d);
    WithFoldersKeeps(fs, d);
    WithFoldersIs(fs, d, p);
    var made := WithFolders(fs, d);
    forall i | 0 < i <= |d| && d[..i] in made ensures made[d[..i]].Folder? {
      WithFoldersIs(fs, d, d[..i]);
    }
  }

  lemma CreateRoom(fs: Files, p: Path, data: Content)
    requires Tree(fs) && Room(fs, p)
    ensures Create(fs, p, data) == Outcome(true, With(fs, p, File(data)))
  {
    MadeRoom(fs, p);
    WriteRoom(WithFolders(fs, Dir(p)), p, data);
  }

  lemma RelinkRoom(fs: Files, p: Path, t: Target)
    requires Tree(fs) && Room(fs, p)
    ensures Relink(fs, p, t) == Outcome(true, With(fs, p, Link(t)))
    ensures FreshLink(fs, p, t) == Outcome(true, With(fs, p, Link(t)))
  {
    MadeRoom(fs, p);
    PlaceOfReal(WithFolders(fs, Dir(p)), p);
  }

  /** Writing a blob puts it into the store, whether or not it was there. */
  lemma CreateStored(fs: Files, plan: Plan, n: string)
    requires Sound(plan) && Tree(fs) && Clear(fs, plan.blobs) && StoreAgrees(fs, plan) && Proper(n)
    ensures Create(fs, plan.blobs + [n], plan.store(n)) == Outcome(true, Stored(fs, plan, n))
  {
    var b := plan.blobs + [n];
    if b in fs {
      StoredAlready(fs, plan, n);
      assert Dir(b) == plan.blobs;
      MkdirAllClear(fs, plan.blobs);
      WithFoldersAlready(fs, plan.blobs);
      ResolveEntry(fs, b);
      assert fs[b := fs[b]] == fs;
    } else {
      StoredRoom(fs, plan, n);
      CreateRoom(fs, b, plan.store(n));
    }
  }

  // ------------------------------------------------------------------ archiving: one file

  /** The place a link's text speaks of, as it is computed from the text alone. */
  function TextTarget(source: Path, t: Target): Path
    requires source != []
  {
    Follow(true, Dir(source), t.parts)
  }

  /**
   * A requested file in the hot cache: a regular file, or a link whose text speaks of a regular blob, possibly
   * behind linked directories, that the link reads as; the blob's name determines its bytes.
   */
  predicate Holds(fs: Files, source: Path, store: Store, e: Entry) {
    && source in fs && source != []
    && match e
       case Regular(d) => fs[source] == File(d)
       case Blob(n) =>
         && fs[source].Link? && Read(fs, source) == Some(store(n))
         && var b := TextTarget(source, fs[source].target);
            b != [] && Base(b) == n && Lstat(fs, b) == Some(File(store(n)))
  }

  /** What an entry's directory leads to, the entry leads to with one more name. */
  lemma {:induction false} WalkThenFile(fs: Files, at: Path, a: seq<string>, c: string, links: nat)
    requires Proper(c) && Walk(fs, at, a, links).Some?
    requires var q := Walk(fs, at, a, links).value + [c]; q in fs && fs[q].File?
    requires IsFolder(fs, Walk(fs, at, a, links).value)
    ensures Walk(fs, at, a + [c], links) == Some(Walk(fs, at, a, links).value + [c])
    decreases links, |a|
  {
    if a == [] {
      assert a + [c] == [c] + [];
      WalkName(fs, at, c, [], links);
    } else {
      var d, tail := a[0], a[1..];
      assert (a + [c])[0] == d && (a + [c])[1..] == tail + [c];
      if d == "" || d == "." {
        WalkThenFile(fs, at, tail, c, links);
      } else if d == UP {
        WalkThenFile(fs, if at == [] then [] else Dir(at), tail, c, links);
      } else {
        match fs[at + [d]]
        case Folder => WalkThenFile(fs, at + [d], tail, c, links);
        case File(_) =>
        case Link(t) =>
          assert t.parts + (tail + [c]) == t.parts + tail + [c];
          WalkThenFile(fs, if t.absolute then [] else at, t.parts + tail, c, links - 1);
      }
    }
  }

  /** A regular file that is seen under a path can be read through it, and has a proper name. */
  lemma SeenIsRead(fs: Files, b: Path, d: Content)
    requires Tree(fs) && b != [] && Lstat(fs, b) == Some(File(d))
    ensures Proper(Base(b)) && Read(fs, b) == Some(d)
  {
    var dir, c := Resolve(fs, Dir(b)).value, Base(b);
    assert Place(fs, b) == Some(dir + [c]) && c in dir + [c] && b == Dir(b) + [c];
    WalkThenFile(fs, [], Dir(b), c, LINK_LIMIT);
  }

  // ------------------------------------------------------------------ when a link's text is what the kernel does

  /** The way turns back from real directories only. */
  predicate TurnsFromReal(fs: Files, at: Path, rest: seq<string>)
    decreases |rest|
  {
    if rest == [] then true
    else
      var c, tail := rest[0], rest[1..];
      if c == "" || c == "." then TurnsFromReal(fs, at, tail)
      else if c == UP then TurnsFromReal(fs, if at == [] then [] else Dir(at), tail)
      else if IsFolder(fs, at + [c]) then TurnsFromReal(fs, at + [c], tail)
      else UP !in tail
  }

  /** The names of a way, without the components that say nothing. */
  function NamesIn(rest: seq<string>): seq<string> {
    if rest == [] then []
    else (if rest[0] == "" || rest[0] == "." then [] else [rest[0]]) + NamesIn(rest[1..])
  }

  lemma {:induction false} FollowsNames(stack: Path, rest: seq<string>)
    requires UP !in rest
    ensures Follow(true, stack, rest) == stack + NamesIn(rest)
    decreases |rest|
  {
    if rest != [] {
      var c, tail := rest[0], rest[1..];
      if c == "" || c == "." {
        FollowsNames(stack, tail);
      } else {
        FollowsNames(stack + [c], tail);
        assert stack + [c] + NamesIn(tail) == stack + NamesIn(rest);
      }
    }
  }

  /** Components that say nothing can be left out at the end of a way. */
  lemma {:induction false} WalksNames(fs: Files, at: Path, a: seq<string>, rest: seq<string>, links: nat)
    requires UP !in rest && Walk(fs, at, a + rest, links).Some?
    ensures Walk(fs, at, a + NamesIn(rest), links) == Walk(fs, at, a + rest, links)
    decreases links, |a| + |rest|, 1
  {
    if a == [] {
      assert a + rest == rest && a + NamesIn(rest) == NamesIn(rest);
      if rest != [] {
        var c, tail := rest[0], rest[1..];
        if c == "" || c == "." {
          assert [] + tail == tail && [] + NamesIn(tail) == NamesIn(tail);
          WalksNames(fs, at, [], tail, links);
        } else {
          assert rest == [c] + ([] + tail) && NamesIn(rest) == [c] + ([] + NamesIn(tail));
          NameThenNames(fs, at, c, [], tail, links);
        }
      }
    } else {
      var c, tail := a[0], a[1..];
      assert (a + rest)[0] == c && (a + rest)[1..] == tail + rest;
      assert (a + NamesIn(rest))[0] == c && (a + NamesIn(rest))[1..] == tail + NamesIn(rest);
      if c == "" || c == "." {
        WalksNames(fs, at, tail, rest, links);
      } else if c == UP {
        WalksNames(fs, if at == [] then [] else Dir(at), tail, rest, links);
      } else {
        assert a + rest == [c] + (tail + rest) && a + NamesIn(rest) == [c] + (tail + NamesIn(rest));
        NameThenNames(fs, at, c, tail, rest, links);
      }
    }
  }

  /** One name of such a way. */
  lemma {:induction false} NameThenNames(
      fs: Files, at: Path, c: string, tail: seq<string>, rest: seq<string>, links: nat)
    requires UP !in rest && c != "" && c != "." && c != UP && Walk(fs, at, [c] + (tail + rest), links).Some?
    ensures Walk(fs, at, [c] + (tail + NamesIn(rest)), links) == Walk(fs, at, [c] + (tail + rest), links)
    decreases links, |tail| + |rest| + 1, 0
  {
    assert ([c] + (tail + rest))[1..] == tail + rest && ([c] + (tail + NamesIn(rest)))[1..] == tail + NamesIn(rest);
    match fs[at + [c]]
    case Folder => WalksNames(fs, at + [c], tail, rest, links);
    case File(_) =>
    case Link(t) =>
      assert t.parts + (tail + rest) == t.parts + tail + rest
          && t.parts + (tail + NamesIn(rest)) == t.parts + tail + NamesIn(rest);
      WalksNames(fs, if t.absolute then [] else at, t.parts + tail, rest, links - 1);
  }

  /** Such a way leads where its text, read from the root, leads. */
  lemma {:induction false} TextIsWay(fs: Files, at: Path, rest: seq<string>, links: nat)
    requires Tree(fs) && IsFolder(fs, at) && TurnsFromReal(fs, at, rest) && Walk(fs, at, rest, links).Some?
    ensures Walk(fs, [], Follow(true, at, rest), links) == Walk(fs, at, rest, links)
    decreases |rest|
  {
    assert [] + at == at && at + [] == at;
    if rest == [] {
      WalkFolders(fs, [], at, [], links);
    } else {
      var c, tail := rest[0], rest[1..];
      if c == "" || c == "." {
        TextIsWay(fs, at, tail, links);
      } else if c == UP {
        assert at != [] ==> Base(at) in at;
        TextIsWay(fs, if at == [] then [] else Dir(at), tail, links);
      } else if IsFolder(fs, at + [c]) {
        TextIsWay(fs, at + [c], tail, links);
      } else {
        assert rest == [c] + tail && UP !in rest && [] + rest == rest && [] + NamesIn(rest) == NamesIn(rest);
        FollowsNames(at, rest);
        WalksNames(fs, at, [], rest, links);
        WalkFolders(fs, [], at, NamesIn(rest), links);
      }
    }
  }

  /** The text of a relative link that turns back from real directories only speaks of the place the kernel goes to. */
  lemma TextIsKernel(fs: Files, source: Path)
    requires Tree(fs) && source in fs && fs[source].Link? && !fs[source].target.absolute && Resolve(fs, source).Some?
    requires TurnsFromReal(fs, Dir(source), fs[source].target.parts)
    ensures Resolve(fs, TextTarget(source, fs[source].target)) == Resolve(fs, source)
  {
    var t := fs[source].target;
    ResolveLink(fs, source);
    TextIsWay(fs, Dir(source), t.parts, LINK_LIMIT - 1);
    WalkMoreLinks(fs, [], TextTarget(source, t), LINK_LIMIT - 1, LINK_LIMIT);
  }

  /** An absolute link is read as if it were relative, and refused although it leads to a file. */
  lemma AbsoluteLinkIsRefused(fs: Files, source: Path, x: Path, destination: Path, blobs: Path)
    requires Tree(fs) && source in fs && x in fs && fs[x].File? && fs[source] == Link(Target(true, x))
    requires Resolve(fs, Dir(source) + x).None?
    ensures Read(fs, source).Some? && CopyHuggingFaceFile(fs, source, destination, blobs) == Outcome(false, fs)
  {
    var d, c := Dir(source), Base(source);
    assert [] + source == source && d + [c] == source && c in source && [c][1..] == [] && x + [] == x && [] + x == x;
    WalkToEntry(fs, [], source, LINK_LIMIT);
    WalkToFile(fs, [], x, LINK_LIMIT - 1);
    PlaceOfReal(fs, source);
    FollowNames(true, d, x);
  }

  lemma PlaceExtends(fs: Files, more: Files, p: Path)
    requires Extends(fs, more) && Place(fs, p).Some?
    ensures Place(more, p) == Place(fs, p)
  {
    WalkExtends(fs, more, [], Dir(p), LINK_LIMIT);
  }

  lemma SeenExtends(fs: Files, more: Files, p: Path, d: Content)
    requires Extends(fs, more) && Lstat(fs, p) == Some(File(d))
    ensures Lstat(more, p) == Some(File(d))
  {
    PlaceExtends(fs, more, p);
  }

  lemma ReadExtends(fs: Files, more: Files, p: Path, d: Content)
    requires Extends(fs, more) && Read(fs, p) == Some(d)
    ensures Read(more, p) == Some(d)
  {
    WalkExtends(fs, more, [], p, LINK_LIMIT);
  }

  lemma HoldsExtends(fs: Files, more: Files, source: Path, store: Store, e: Entry)
    requires Extends(fs, more) && Holds(fs, source, store, e)
    ensures Holds(more, source, store, e)
  {
    if e.Blob? {
      ReadExtends(fs, more, source, store(e.name));
      SeenExtends(fs, more, TextTarget(source, fs[source].target), store(e.name));
    }
  }

  /** copyHuggingFaceFile lays out exactly the requested file. */
  lemma CopyIsPut(fs: Files, plan: Plan, done: map<Path, Entry>, source: Path, f: Path, e: Entry)
    requires Sound(plan) && Stage(fs, plan, done) && Named(f, e) && f !in done && PrefixFree(done[f := e])
    requires Holds(fs, source, plan.store, e)
    ensures CopyHuggingFaceFile(fs, source, plan.root + f, plan.blobs) == Outcome(true, Put(fs, plan, f, e))
  {
    PlaceOfReal(fs, source);
    match e
    case Regular(d) =>
      FileRoom(fs, plan, done, f, e);
      CreateRoom(fs, plan.root + f, d);
    case Blob(n) =>
      CopyLinkIsPut(fs, plan, done, source, f, n);
  }

  /** The link itself, once its blob is stored. */
  lemma LinkIsPlaced(fs: Files, plan: Plan, done: map<Path, Entry>, f: Path, n: string)
    requires Sound(plan) && Stage(fs, plan, done) && Named(f, Blob(n)) && f !in done && PrefixFree(done[f := Blob(n)])
    ensures var t := LinkTo(plan.root + f, plan.blobs + [n]);
            && FreshLink(Stored(fs, plan, n), plan.root + f, t) == Outcome(true, Put(fs, plan, f, Blob(n)))
            && Relink(Stored(fs, plan, n), plan.root + f, t) == Outcome(true, Put(fs, plan, f, Blob(n)))
  {
    StoredKeeps(fs, plan, done, n);
    FileRoom(Stored(fs, plan, n), plan, done, f, Blob(n));
    RelinkRoom(Stored(fs, plan, n), plan.root + f, LinkTo(plan.root + f, plan.blobs + [n]));
  }

  lemma BlobIsCopied(fs: Files, plan: Plan, source: Path, n: string)
    requires Sound(plan) && Tree(fs) && Clear(fs, plan.blobs) && StoreAgrees(fs, plan) && Proper(n)
    requires Lstat(fs, source) == Some(File(plan.store(n)))
    ensures CopyTree(fs, source, plan.blobs + [n]) == Outcome(true, Stored(fs, plan, n))
  {
    CreateStored(fs, plan, n);
  }

  /** copyHuggingFaceFile of a link, once its blob has been copied. */
  lemma CopyLinkUnfolds(fs: Files, source: Path, destination: Path, blobs: Path, b: Path, mid: Files)
    requires destination != [] && Lstat(fs, source).Some? && Lstat(fs, source).value.Link?
    requires Follow(true, Dir(source), Lstat(fs, source).value.target.parts) == b && b != [] && Read(fs, b).Some?
    requires CopyTree(fs, b, blobs + [Base(b)]) == Outcome(true, mid)
    ensures CopyHuggingFaceFile(fs, source, destination, blobs) ==
            FreshLink(mid, destination, LinkTo(destination, blobs + [Base(b)]))
  {
  }

  lemma CopyLinkIsPut(fs: Files, plan: Plan, done: map<Path, Entry>, source: Path, f: Path, n: string)
    requires Sound(plan) && Stage(fs, plan, done) && Named(f, Blob(n)) && f !in done && PrefixFree(done[f := Blob(n)])
    requires Holds(fs, source, plan.store, Blob(n)) && Lstat(fs, source) == Some(fs[source])
    ensures CopyHuggingFaceFile(fs, source, plan.root + f, plan.blobs) == Outcome(true, Put(fs, plan, f, Blob(n)))
  {
    var b := TextTarget(source, fs[source].target);
    SeenIsRead(fs, b, plan.store(n));
    BlobIsCopied(fs, plan, b, n);
    CopyLinkUnfolds(fs, source, plan.root + f, plan.blobs, b, Stored(fs, plan, n));
    LinkIsPlaced(fs, plan, done, f, n);
  }

  // ------------------------------------------------------------------ archiving: all files

  predicate Within(done: map<Path, Entry>, entries: map<Path, Entry>) {
    forall f :: f in done ==> f in entries && entries[f] == done[f]
  }

  function Plus(done: map<Path, Entry>, entries: map<Path, Entry>, files: seq<Path>): map<Path, Entry> {
    done + map f | f in files && f in entries :: entries[f]
  }

  lemma PrefixFreeWithin(done: map<Path, Entry>, entries: map<Path, Entry>, f: Path)
    requires Within(done, entries) && PrefixFree(entries) && f in entries
    ensures PrefixFree(done[f := entries[f]]) && Within(done[f := entries[f]], entries)
  {
  }

  lemma PlusStep(done: map<Path, Entry>, entries: map<Path, Entry>, files: seq<Path>)
    requires files != [] && files[0] in entries && Within(done, entries)
    ensures Plus(done[files[0] := entries[files[0]]], entries, files[1..]) == Plus(done, entries, files)
  {
    assert forall f :: f in files <==> f == files[0] || f in files[1..];
  }

  /** The files still to be copied, each of them in place. */
  ghost predicate Pending(
      fs: Files, store: Store, done: map<Path, Entry>, source: Path, entries: map<Path, Entry>, files: seq<Path>)
  {
    && Within(done, entries) && PrefixFree(entries) && Distinct(files)
    && forall f :: f in files ==>
         f in entries && f !in done && Named(f, entries[f]) && Holds(fs, source + f, store, entries[f])
  }

  lemma PendingStep(
      fs: Files, next: Files, store: Store, done: map<Path, Entry>, source: Path, entries: map<Path, Entry>,
      files: seq<Path>)
    requires Pending(fs, store, done, source, entries, files) && files != [] && Extends(fs, next)
    requires files[0] in entries
    ensures Pending(next, store, done[files[0] := entries[files[0]]], source, entries, files[1..])
  {
    var f, rest := files[0], files[1..];
    PrefixFreeWithin(done, entries, f);
    forall g | g in rest
      ensures g in entries && g !in done[f := entries[f]] && Named(g, entries[g])
      ensures Holds(next, source + g, store, entries[g])
    {
      assert g in files;
      var i :| 0 <= i < |rest| && rest[i] == g;
      assert files[i + 1] == g;
      HoldsExtends(fs, next, source + g, store, entries[g]);
    }
  }

  lemma CopyStep(fs: Files, plan: Plan, done: map<Path, Entry>, source: Path, entries: map<Path, Entry>, f: Path)
    requires Sound(plan) && Stage(fs, plan, done) && Within(done, entries) && PrefixFree(entries)
    requires f in entries && f !in done && Named(f, entries[f]) && Holds(fs, source + f, plan.store, entries[f])
    ensures var o := CopyHuggingFaceFile(fs, source + f, plan.root + f, plan.blobs);
            o.ok && Stage(o.fs, plan, done[f := entries[f]]) && Extends(fs, o.fs) && AddsOnly(fs, o.fs, plan)
  {
    PutAdds(fs, plan, f, entries[f]);
    PrefixFreeWithin(done, entries, f);
    CopyIsPut(fs, plan, done, source + f, f, entries[f]);
    PutKeeps(fs, plan, done, f, entries[f]);
  }

  lemma ExtendsTrans(a: Files, b: Files, c: Files)
    requires Extends(a, b) && Extends(b, c)
    ensures Extends(a, c)
  {
  }

  lemma AddsTrans(a: Files, b: Files, c: Files, plan: Plan)
    requires Extends(a, b) && Extends(b, c) && AddsOnly(a, b, plan) && AddsOnly(b, c, plan)
    ensures Extends(a, c) && AddsOnly(a, c, plan)
  {
  }

  /** The copy loop lays out every requested file and disturbs nothing. */
  lemma {:induction false} CopyFilesLays(
      fs: Files, plan: Plan, done: map<Path, Entry>, source: Path, entries: map<Path, Entry>, files: seq<Path>)
    requires Sound(plan) && Stage(fs, plan, done) && Pending(fs, plan.store, done, source, entries, files)
    ensures var o := CopyFiles(fs, source, plan.root, plan.blobs, files);
            && o.ok && Stage(o.fs, plan, Plus(done, entries, files))
            && Extends(fs, o.fs) && AddsOnly(fs, o.fs, plan)
    decreases |files|
  {
    if files == [] {
      assert Plus(done, entries, files) == done;
    } else {
      var f := files[0];
      assert f in files;
      CopyStep(fs, plan, done, source, entries, f);
      var next := CopyHuggingFaceFile(fs, source + f, plan.root + f, plan.blobs).fs;
      PendingStep(fs, next, plan.store, done, source, entries, files);
      CopyFilesLays(next, plan, done[f := entries[f]], source, entries, files[1..]);
      PlusStep(done, entries, files);
      AddsTrans(fs, next, CopyFiles(fs, source, plan.root, plan.blobs, files).fs, plan);
    }
  }

  // ------------------------------------------------------------------ promoting

  function ColdRoot(artifact: Path): Path { artifact + [PAYLOAD, FILES_DIR] }

  function ColdBlobs(artifact: Path): Path { artifact + ["blobs"] }

  /** What the manifest says about a file. */
  function ItemFor(artifact: Path, f: Path, e: Entry): Item
    requires f != []
  {
    match e
    case Regular(d) => Item([FILES_DIR] + f, None, Size(d), Some(Digest(d)))
    case Blob(n) => Item([FILES_DIR] + f, Some(LinkTo(ColdRoot(artifact) + f, ColdBlobs(artifact) + [n])), 0, None)
  }

  function HotPlan(hot: Path, target: Path, store: Store): Plan {
    Plan(hot + target, hot + target, HotBlobs(hot), store)
  }

  /** Promoting one regular file lays it out, its recorded size and digest being met. */
  lemma RegularIsPut(fs: Files, plan: Plan, done: map<Path, Entry>, from: Path, f: Path, d: Content)
    requires Sound(plan) && Stage(fs, plan, done) && f !in done
    requires Named(f, Regular(d)) && PrefixFree(done[f := Regular(d)]) && from in fs && fs[from] == File(d)
    ensures CopyAndVerify(fs, from, plan.root + f, Size(d), Some(Digest(d))) ==
            Outcome(true, Put(fs, plan, f, Regular(d)))
  {
    ResolveEntry(fs, from);
    FileRoom(fs, plan, done, f, Regular(d));
    CreateRoom(fs, plan.root + f, d);
  }

  /** Whether or not the blob is hot already, it is afterwards. */
  lemma PromoteBlob(fs: Files, plan: Plan, blob: Path, n: string)
    requires Sound(plan) && Tree(fs) && Clear(fs, plan.blobs) && StoreAgrees(fs, plan) && Proper(n)
    requires blob in fs && fs[blob] == File(plan.store(n))
    ensures Read(fs, blob) == Some(plan.store(n))
    ensures var hotBlob := plan.blobs + [n];
            (if Lstat(fs, hotBlob).Some? then Outcome(true, fs)
             else CopyAndVerify(fs, blob, hotBlob, Size(plan.store(n)), None)) == Outcome(true, Stored(fs, plan, n))
  {
    var hotBlob := plan.blobs + [n];
    ResolveEntry(fs, blob);
    CreateStored(fs, plan, n);
    assert Dir(hotBlob) == plan.blobs;
    if hotBlob in fs {
      PlaceOfReal(fs, hotBlob);
      StoredAlready(fs, plan, n);
    } else if IsFolder(fs, plan.blobs) {
      PlaceOfReal(fs, hotBlob);
    } else {
      assert plan.blobs == plan.blobs[..|plan.blobs|];
      ClearIsAbsent(fs, plan.blobs);
    }
  }

  /**
   * Promotion trusts a blob's name: one that is in the store already is linked unread.  The promoted file reads as
   * its cold blob if and only if the hot blob of that name does.
   */
  lemma PromotedIsTrusted(fs: Files, blob: Path, hotBlob: Path, to: Path, d: Content)
    requires Tree(fs) && Read(fs, blob) == Some(d) && hotBlob in fs && fs[hotBlob].File? && Room(fs, to)
    ensures var o := PromoteLink(fs, blob, hotBlob, to);
            o.ok && Read(o.fs, to) == Some(fs[hotBlob].data) && (Read(o.fs, to) == Some(d) <==> fs[hotBlob] == File(d))
  {
    PlaceOfReal(fs, hotBlob);
    RelinkRoom(fs, to, LinkTo(to, hotBlob));
    WithKeeps(fs, to, Link(LinkTo(to, hotBlob)));
    FollowLink(With(fs, to, Link(LinkTo(to, hotBlob))), to, hotBlob);
  }

  /** The blob a cold link speaks of, found by text alone. */
  lemma ColdLink(artifact: Path, f: Path, n: string)
    requires f != [] && IsPath(ColdRoot(artifact) + f) && IsPath(ColdBlobs(artifact) + [n])
    ensures var b := ColdBlobs(artifact) + [n];
            && Follow(true, Dir(ColdRoot(artifact) + f), LinkTo(ColdRoot(artifact) + f, b).parts) == b
            && !Escapes(artifact, b) && Base(b) == n
  {
    var p, b := ColdRoot(artifact) + f, ColdBlobs(artifact) + [n];
    assert forall c :: c in Dir(p) ==> c in p;
    RelativeLinkReachesBlob(Dir(p), b);
    EscapeTest(artifact, b);
    assert artifact <= b;
  }

  lemma LinkIsPut(fs: Files, plan: Plan, done: map<Path, Entry>, blob: Path, f: Path, n: string)
    requires Sound(plan) && Stage(fs, plan, done) && f !in done
    requires Named(f, Blob(n)) && PrefixFree(done[f := Blob(n)]) && blob in fs && fs[blob] == File(plan.store(n))
    ensures PromoteLink(fs, blob, plan.blobs + [n], plan.root + f) == Outcome(true, Put(fs, plan, f, Blob(n)))
  {
    PromoteBlob(fs, plan, blob, n);
    LinkIsPlaced(fs, plan, done, f, n);
  }

  /** Which copy a manifest entry leads to. */
  lemma ItemRoute(fs: Files, artifact: Path, hot: Path, target: Path, store: Store, f: Path, e: Entry)
    requires Tree(fs) && LaidAt(fs, ColdRoot(artifact), ColdBlobs(artifact), store, f, e)
    ensures MaterializeItem(fs, artifact, hot, target, ItemFor(artifact, f, e)) ==
            match e
            case Regular(d) => CopyAndVerify(fs, ColdRoot(artifact) + f, hot + target + f, Size(d), Some(Digest(d)))
            case Blob(n) => PromoteLink(fs, ColdBlobs(artifact) + [n], HotBlobs(hot) + [n], hot + target + f)
  {
    var item, from := ItemFor(artifact, f, e), ColdRoot(artifact) + f;
    assert artifact + [PAYLOAD] + item.path == from && item.path[1..] == f;
    if e.Blob? {
      PlaceOfReal(fs, from);
      ColdLink(artifact, f, e.name);
    }
  }

  /** One round of materialize lays out exactly the file its manifest entry stands for. */
  lemma MaterializeIsPut(
      fs: Files, plan: Plan, done: map<Path, Entry>, artifact: Path, hot: Path, target: Path, f: Path, e: Entry)
    requires Sound(plan) && Stage(fs, plan, done) && f !in done && plan == HotPlan(hot, target, plan.store)
    requires Named(f, e) && PrefixFree(done[f := e])
    requires LaidAt(fs, ColdRoot(artifact), ColdBlobs(artifact), plan.store, f, e)
    ensures MaterializeItem(fs, artifact, hot, target, ItemFor(artifact, f, e)) == Outcome(true, Put(fs, plan, f, e))
  {
    ItemRoute(fs, artifact, hot, target, plan.store, f, e);
    match e
    case Regular(d) => RegularIsPut(fs, plan, done, ColdRoot(artifact) + f, f, d);
    case Blob(n) => LinkIsPut(fs, plan, done, ColdBlobs(artifact) + [n], f, n);
  }
}
