/**
 * The file system the cache manager works on: physical paths to regular files, symbolic links and
 * directories, with the kernel's path resolution.  A link is followed from the physical directory it lies
 * in, ".." means the physical parent, and more than LINK_LIMIT links on one way are an error.
 */
module FileSystem {
  import opened Prelude
  import opened Paths

  type Bytes = seq<bv8>

  datatype Target = Target(absolute: bool, parts: seq<string>)

  /** cacheSpec; file names and the materialization target are clean relative paths. */
  datatype CacheSpec =
    CacheSpec(kind: string, repo: string, revision: string, files: seq<Path>, size: int, target: Path)

  /** artifactFile: a link with its target, or a regular file with its size and digest. */
  datatype Item = Item(path: Path, link: Option<Target>, size: nat, digest: Option<Content>)

  /** What a regular file holds; the manager's own JSON documents are kept in parsed form. */
  datatype Content =
    | Raw(bytes: Bytes)
    | Stamp
    | SpecJson(spec: CacheSpec)
    | ManifestJson(version: nat, cache: CacheSpec, items: seq<Item>)

  datatype Node = File(data: Content) | Link(target: Target) | Folder

  type Files = map<Path, Node>

  /** What an operation leaves behind, whether it succeeded or stopped half way. */
  datatype Outcome = Outcome(ok: bool, fs: Files)

  const LINK_LIMIT := 40

  function Size(c: Content): nat { if c.Raw? then |c.bytes| else 0 }

  /** SHA-256, taken as telling any two contents apart. */
  function Digest(c: Content): Content { c }

  // ------------------------------------------------------------------ resolution

  function Walk(fs: Files, at: Path, rest: seq<string>, links: nat): Option<Path>
    decreases links, |rest|
  {
    if rest == [] then Some(at)
    else
      var c, tail := rest[0], rest[1..];
      if c == "" || c == "." then Walk(fs, at, tail, links)
      else if c == UP then Walk(fs, if at == [] then [] else Dir(at), tail, links)
      else
        var next := at + [c];
        if next !in fs then None
        else
          match fs[next]
          case Folder => Walk(fs, next, tail, links)
          case File(_) => if tail == [] then Some(next) else None
          case Link(t) =>
            if links == 0 then None else Walk(fs, if t.absolute then [] else at, t.parts + tail, links - 1)
  }

  /** The node at a physical path; the root is a directory. */
  function At(fs: Files, p: Path): Option<Node> {
    if p == [] then Some(Folder) else if p in fs then Some(fs[p]) else None
  }

  function Resolve(fs: Files, p: Path): Option<Path> { Walk(fs, [], p, LINK_LIMIT) }

  /** os.Stat: what a path leads to. */
  function Stat(fs: Files, p: Path): Option<Node> {
    var q := Resolve(fs, p);
    if q.None? then None else At(fs, q.value)
  }

  /** The bytes read through a path. */
  function Read(fs: Files, p: Path): Option<Content> {
    var n := Stat(fs, p);
    if n.Some? && n.value.File? then Some(n.value.data) else None
  }

  predicate IsFolder(fs: Files, p: Path) { p == [] || (p in fs && fs[p].Folder?) }

  /** Where the last component of a path physically lies. */
  function Place(fs: Files, p: Path): (r: Option<Path>)
    ensures r.Some? ==> r.value != [] && IsFolder(fs, Dir(r.value))
  {
    if p == [] then None
    else
      var d := Resolve(fs, Dir(p));
      if d.Some? && IsFolder(fs, d.value) then Some(d.value + [Base(p)]) else None
  }

  /** os.Lstat: the entry itself. */
  function Lstat(fs: Files, p: Path): Option<Node> {
    var q := Place(fs, p);
    if q.None? then None else At(fs, q.value)
  }

  // ------------------------------------------------------------------ operations

  function MkdirAll(fs: Files, p: Path): Outcome
    decreases |p|
  {
    var n := Stat(fs, p);
    if n.Some? then Outcome(n.value.Folder?, fs)
    else if p == [] then Outcome(false, fs)
    else
      var o := MkdirAll(fs, Dir(p));
      var q := Place(o.fs, p);
      if !o.ok || q.None? || q.value in o.fs then Outcome(false, o.fs)
      else Outcome(true, o.fs[q.value := Folder])
  }

  /** os.Create and write; through a link to an existing file, and refused on a dangling link. */
  function Write(fs: Files, p: Path, data: Content): Outcome {
    var q := Resolve(fs, p);
    var e := Place(fs, p);
    if q.Some? then
      if q.value in fs && fs[q.value].File? then Outcome(true, fs[q.value := File(data)]) else Outcome(false, fs)
    else if e.None? || e.value in fs then Outcome(false, fs)
    else Outcome(true, fs[e.value := File(data)])
  }

  /** os.Remove of one entry, an absent one included. */
  function Remove(fs: Files, p: Path): Outcome {
    var q := Place(fs, p);
    if q.None? || q.value !in fs then Outcome(true, fs)
    else if fs[q.value].Folder? && exists r :: r in fs && q.value < r then Outcome(false, fs)
    else Outcome(true, fs - {q.value})
  }

  /** replaceSymlink: a fresh temporary link renamed over the entry. */
  function ReplaceSymlink(fs: Files, p: Path, t: Target): Outcome {
    var q := Place(fs, p);
    if q.None? || (q.value in fs && fs[q.value].Folder?) then Outcome(false, fs)
    else Outcome(true, fs[q.value := Link(t)])
  }

  /** Everything but the tree at a physical path. */
  function Without(fs: Files, p: Path): Files {
    map r | r in fs && !(p <= r) :: fs[r]
  }

  function RemoveAll(fs: Files, p: Path): Files {
    var q := Place(fs, p);
    if q.None? then fs else Without(fs, q.value)
  }

  /** The tree at `from` carried to `to`. */
  function Moved(fs: Files, from: Path, to: Path): Files {
    var keys := set r | r in fs && from <= r :: to + r[|from|..];
    Without(fs, from) + map k | k in keys && to <= k && from + k[|to|..] in fs :: fs[from + k[|to|..]]
  }

  /** os.Rename onto a name that is not taken. */
  function Rename(fs: Files, from: Path, to: Path): Outcome {
    var p, q := Place(fs, from), Place(fs, to);
    if p.None? || q.None? || p.value !in fs || q.value in fs || p.value <= q.value then Outcome(false, fs)
    else Outcome(true, Moved(fs, p.value, q.value))
  }

  // ------------------------------------------------------------------ trees

  /** What every file system satisfies: entries lie in directories and have proper names. */
  predicate Tree(fs: Files) {
    forall p :: p in fs ==> p != [] && IsPath(p) && IsFolder(fs, Dir(p))
  }

  predicate Extends(fs: Files, more: Files) {
    forall p :: p in fs ==> p in more && more[p] == fs[p]
  }

  lemma {:induction false} AncestorIsFolder(fs: Files, p: Path, i: nat)
    requires Tree(fs) && p in fs && i < |p|
    ensures IsFolder(fs, p[..i])
    decreases |p| - i
  {
    assert IsFolder(fs, Dir(p));
    if i < |p| - 1 {
      AncestorIsFolder(fs, Dir(p), i);
      assert Dir(p)[..i] == p[..i];
    } else {
      assert p[..i] == Dir(p);
    }
  }

  /** One proper name that is no link. */
  lemma WalkName(fs: Files, at: Path, c: string, rest: seq<string>, links: nat)
    requires Proper(c) && at + [c] in fs && !fs[at + [c]].Link?
    ensures fs[at + [c]].Folder? ==> Walk(fs, at, [c] + rest, links) == Walk(fs, at + [c], rest, links)
    ensures fs[at + [c]].File? && rest == [] ==> Walk(fs, at, [c] + rest, links) == Some(at + [c])
  {
    assert ([c] + rest)[0] == c && ([c] + rest)[1..] == rest;
  }

  /** One proper name that is a relative link. */
  lemma WalkLink(fs: Files, at: Path, c: string, rest: seq<string>, links: nat)
    requires Proper(c) && at + [c] in fs && fs[at + [c]].Link? && !fs[at + [c]].target.absolute && links > 0
    ensures Walk(fs, at, [c] + rest, links) == Walk(fs, at, fs[at + [c]].target.parts + rest, links - 1)
  {
    assert ([c] + rest)[0] == c && ([c] + rest)[1..] == rest;
  }

  /** Names of real directories are walked one after the other. */
  lemma {:induction false} WalkFolders(fs: Files, at: Path, names: Path, rest: seq<string>, links: nat)
    requires Tree(fs) && IsFolder(fs, at + names)
    ensures Walk(fs, at, names + rest, links) == Walk(fs, at + names, rest, links)
    decreases |names|
  {
    if names == [] {
      assert names + rest == rest && at + names == at;
    } else {
      var c := Base(names);
      var p := at + names;
      assert p[|p| - 1] == c && c in p;
      assert Dir(p) == at + Dir(names) && Dir(p) + [c] == p;
      assert names + rest == Dir(names) + ([c] + rest);
      WalkFolders(fs, at, Dir(names), [c] + rest, links);
      WalkName(fs, Dir(p), c, rest, links);
    }
  }

  /** An entry is reached through its directory. */
  lemma WalkToEntry(fs: Files, at: Path, names: Path, links: nat)
    requires Tree(fs) && names != [] && at + names in fs
    ensures Walk(fs, at, names, links) == Walk(fs, Dir(at + names), [Base(names)], links)
  {
    var p := at + names;
    assert Dir(p) == at + Dir(names) && names == Dir(names) + [Base(names)];
    WalkFolders(fs, at, Dir(names), [Base(names)], links);
  }

  lemma WalkLast(fs: Files, p: Path, links: nat)
    requires p in fs && p != [] && IsPath(p) && !fs[p].Link?
    ensures Walk(fs, Dir(p), [Base(p)], links) == Some(p)
  {
    var c := Base(p);
    assert Dir(p) + [c] == p && c in p && [c] + [] == [c];
    WalkName(fs, Dir(p), c, [], links);
  }

  /** A file is reached from any directory above it. */
  lemma WalkToFile(fs: Files, at: Path, names: Path, links: nat)
    requires Tree(fs) && names != [] && at + names in fs && !fs[at + names].Link?
    ensures Walk(fs, at, names, links) == Some(at + names)
  {
    assert Base(names) == Base(at + names);
    WalkToEntry(fs, at, names, links);
    WalkLast(fs, at + names, links);
  }

  lemma {:induction false} WalkUps(fs: Files, at: Path, n: nat, rest: seq<string>, links: nat)
    requires n <= |at|
    ensures Walk(fs, at, Ups(n) + rest, links) == Walk(fs, at[..|at| - n], rest, links)
    decreases n
  {
    if n == 0 {
      assert Ups(n) + rest == rest && at[..|at|] == at;
    } else {
      assert (Ups(n) + rest)[1..] == Ups(n - 1) + rest;
      WalkUps(fs, Dir(at), n - 1, rest, links);
      assert Dir(at)[..|at| - 1 - (n - 1)] == at[..|at| - n];
    }
  }

  /** The relative way between two physical places: up to what they share, then down. */
  lemma WalkRel(fs: Files, d: Path, p: Path, links: nat)
    ensures var n := Common(d, p); Walk(fs, d, Rel(d, p), links) == Walk(fs, p[..n], p[n..], links)
  {
    var n := Common(d, p);
    WalkUps(fs, d, |d| - n, p[n..], links);
    assert d[..|d| - (|d| - n)] == p[..n];
  }

  /** A path whose directory is real is where its name says. */
  lemma PlaceOfReal(fs: Files, p: Path)
    requires Tree(fs) && p != [] && IsFolder(fs, Dir(p))
    ensures Place(fs, p) == Some(p)
  {
    assert [] + Dir(p) == Dir(p) && Dir(p) + [] == Dir(p);
    WalkFolders(fs, [], Dir(p), [], LINK_LIMIT);
    assert Dir(p) + [Base(p)] == p;
  }

  /** An entry of the tree that is no link is found under its own name. */
  lemma ResolveEntry(fs: Files, p: Path)
    requires Tree(fs) && p in fs && !fs[p].Link?
    ensures Resolve(fs, p) == Some(p)
  {
    assert [] + p == p;
    WalkToFile(fs, [], p, LINK_LIMIT);
  }

  /** A relative link is followed from the directory it lies in. */
  lemma ResolveLink(fs: Files, p: Path)
    requires Tree(fs) && p in fs && fs[p].Link? && !fs[p].target.absolute
    ensures Resolve(fs, p) == Walk(fs, Dir(p), fs[p].target.parts, LINK_LIMIT - 1)
  {
    var d, c := Dir(p), Base(p);
    assert [] + p == p && d + [c] == p && c in p && [c] + [] == [c];
    WalkToEntry(fs, [], p, LINK_LIMIT);
    WalkLink(fs, d, c, [], LINK_LIMIT);
    assert fs[p].target.parts + [] == fs[p].target.parts;
  }

  /** Finding something is not disturbed by adding entries. */
  lemma {:induction false} WalkExtends(fs: Files, more: Files, at: Path, rest: seq<string>, links: nat)
    requires Extends(fs, more) && Walk(fs, at, rest, links).Some?
    ensures Walk(more, at, rest, links) == Walk(fs, at, rest, links)
    decreases links, |rest|
  {
    if rest == [] {
    } else {
      var c, tail := rest[0], rest[1..];
      if c == "" || c == "." {
        WalkExtends(fs, more, at, tail, links);
      } else if c == UP {
        WalkExtends(fs, more, if at == [] then [] else Dir(at), tail, links);
      } else {
        var next := at + [c];
        match fs[next]
        case Folder => WalkExtends(fs, more, next, tail, links);
        case File(_) =>
        case Link(t) => WalkExtends(fs, more, if t.absolute then [] else at, t.parts + tail, links - 1);
      }
    }
  }

  /** A larger allowance of links finds the same thing. */
  lemma {:induction false} WalkMoreLinks(fs: Files, at: Path, rest: seq<string>, links: nat, more: nat)
    requires links <= more && Walk(fs, at, rest, links).Some?
    ensures Walk(fs, at, rest, more) == Walk(fs, at, rest, links)
    decreases links, |rest|
  {
    if rest == [] {
    } else {
      var c, tail := rest[0], rest[1..];
      if c == "" || c == "." {
        WalkMoreLinks(fs, at, tail, links, more);
      } else if c == UP {
        WalkMoreLinks(fs, if at == [] then [] else Dir(at), tail, links, more);
      } else {
        var next := at + [c];
        match fs[next]
        case Folder => WalkMoreLinks(fs, next, tail, links, more);
        case File(_) =>
        case Link(t) => WalkMoreLinks(fs, if t.absolute then [] else at, t.parts + tail, links - 1, more - 1);
      }
    }
  }

  /** What is found from a directory of the tree is an entry of the tree. */
  lemma {:induction false} WalkEnds(fs: Files, at: Path, rest: seq<string>, links: nat)
    requires Tree(fs) && IsFolder(fs, at) && Walk(fs, at, rest, links).Some?
    ensures var q := Walk(fs, at, rest, links).value; IsPath(q) && At(fs, q).Some? && !At(fs, q).value.Link?
    decreases links, |rest|
  {
    if rest == [] {
    } else {
      var c, tail := rest[0], rest[1..];
      if c == "" || c == "." {
        WalkEnds(fs, at, tail, links);
      } else if c == UP {
        assert at != [] ==> IsFolder(fs, Dir(at));
        WalkEnds(fs, if at == [] then [] else Dir(at), tail, links);
      } else {
        var next := at + [c];
        match fs[next]
        case Folder => WalkEnds(fs, next, tail, links);
        case File(_) =>
        case Link(t) => WalkEnds(fs, if t.absolute then [] else at, t.parts + tail, links - 1);
      }
    }
  }

  /** A way that leads to nothing: an absent name below real directories. */
  lemma ResolveAbsent(fs: Files, p: Path, i: nat)
    requires Tree(fs) && i < |p| && p[i] != "" && p[i] != "." && p[i] != UP
    requires IsFolder(fs, p[..i]) && p[..i + 1] !in fs
    ensures Resolve(fs, p).None?
  {
    assert [] + p[..i] == p[..i] && p[..i] + p[i..] == p;
    WalkFolders(fs, [], p[..i], p[i..], LINK_LIMIT);
    assert p[..i] + [p[i]] == p[..i + 1];
  }
}
