/**
 * What a repair does to every other way of reaching a file: whatever a path led to before, by relative or
 * absolute links, chains of them or aliases of requested links, it leads to afterwards, in the store's new place.
 */
module Retained {
  import opened Prelude
  import opened Paths
  import opened FileSystem
  import opened Layout
  import opened Archive
  import opened Repair
  import RoundTrip

  /** Whether the repair moves the legacy store. */
  predicate Moves(fs: Files, hot: Path) { HotBlobs(hot) !in fs }

  /** The requested link leads to the regular file that carries, after the repair, the name the link's text ends in. */
  predicate Faithful(fs: Files, hot: Path, at: Path, t: Target, links: nat) {
    var q := Walk(fs, if t.absolute then [] else at, t.parts, links);
    q.Some? && q.value in fs && fs[q.value].File? && Home(fs, hot, q.value) == BlobFor(hot, t)
  }

  /**
   * The way never climbs out of a legacy store that is about to move, and the requested links on it, if any,
   * stand at its end and are faithful.
   */
  predicate Steady(fs: Files, hot: Path, touched: set<Path>, at: Path, rest: seq<string>, links: nat)
    decreases links, |rest|
  {
    if rest == [] then true
    else
      var c, tail := rest[0], rest[1..];
      if c == "" || c == "." then Steady(fs, hot, touched, at, tail, links)
      else if c == UP then
        !(Moves(fs, hot) && at == LegacyBlobs(hot)) && Steady(fs, hot, touched, if at == [] then []
                                                                                else Dir(at), tail, links)
      else
        var next := at + [c];
        if next !in fs then true
        else
          match fs[next]
          case Folder => Steady(fs, hot, touched, next, tail, links)
          case File(_) => true
          case Link(t) =>
            if links == 0 then true
            else if next in touched then tail == [] && Faithful(fs, hot, at, t, links - 1)
            else Steady(fs, hot, touched, if t.absolute then [] else at, t.parts + tail, links - 1)
  }

  /** How often the way enters a legacy store that is about to become a link. */
  function Entries(fs: Files, hot: Path, touched: set<Path>, at: Path, rest: seq<string>, links: nat): nat
    decreases links, |rest|
  {
    if rest == [] then 0
    else
      var c, tail := rest[0], rest[1..];
      if c == "" || c == "." then Entries(fs, hot, touched, at, tail, links)
      else if c == UP then Entries(fs, hot, touched, if at == [] then [] else Dir(at), tail, links)
      else
        var next := at + [c];
        if next !in fs then 0
        else
          match fs[next]
          case Folder => (if Moves(fs, hot) && next == LegacyBlobs(hot) then 1
                          else 0) + Entries(fs, hot, touched, next, tail, links)
          case File(_) => 0
          case Link(t) =>
            if links == 0 || next in touched then 0
            else Entries(fs, hot, touched, if t.absolute then [] else at, t.parts + tail, links - 1)
  }

  // ------------------------------------------------------------------ single steps

  /** One name further, inside or outside the legacy store. */
  lemma HomeOfChild(fs: Files, hot: Path, at: Path, c: string)
    requires !(Moves(fs, hot) && at + [c] == LegacyBlobs(hot))
    ensures Home(fs, hot, at + [c]) == Home(fs, hot, at) + [c]
  {
    var l, next := LegacyBlobs(hot), at + [c];
    assert Dir(next) == at;
    PrefixOfDir(l, next);
    if l <= at {
      assert next[|l|..] == at[|l|..] + [c];
    }
  }

  lemma HomeOfParent(fs: Files, hot: Path, at: Path)
    requires at != [] && !(Moves(fs, hot) && at == LegacyBlobs(hot))
    ensures Home(fs, hot, at) != [] && Home(fs, hot, Dir(at)) == Dir(Home(fs, hot, at))
  {
    assert at == Dir(at) + [Base(at)];
    HomeOfChild(fs, hot, Dir(at), Base(at));
    assert Dir(Home(fs, hot, Dir(at)) + [Base(at)]) == Home(fs, hot, Dir(at));
  }

  /** The requested places, when the repair moves the store, lie outside both stores. */
  lemma TouchedOutside(fs: Files, hot: Path, spec: CacheSpec, p: Path)
    requires Repairable(fs, hot, spec) && p in Requested(hot + spec.target, spec.files)
    ensures !(LegacyBlobs(hot) <= p)
    ensures Moves(fs, hot) ==> !(HotBlobs(hot) <= p)
  {
    var f :| f in spec.files && p == hot + spec.target + f;
    NotLegacy(hot, spec.target, f);
    var h := HotBlobs(hot);
    if Moves(fs, hot) && h <= p {
      assert Dir(p) == hot + spec.target + Dir(f);
      assert |h| <= |Dir(p)| && h == p[..|h|] == Dir(p)[..|h|];
      RoundTrip.AbsentBelow(fs, h, Dir(p));
    }
  }

  /**
   * What the repaired file system keeps of the old one: every entry but the requested links is in its home, the
   * old name of a moved store is a link to the new one, and requested links lead to their blobs.
   */
  ghost predicate RepairOf(fs: Files, end: Files, hot: Path, touched: set<Path>) {
    && Tree(fs) && Tree(end) && (Moves(fs, hot) && LegacyBlobs(hot) in fs ==> fs[LegacyBlobs(hot)].Folder?)
    && (forall p :: p in fs && (fs[p].Link? ==> p !in touched) ==>
          Home(fs, hot, p) in end && end[Home(fs, hot, p)] == fs[p])
    && (Moves(fs, hot) ==> && LegacyBlobs(hot) in end && end[LegacyBlobs(hot)] == Link(Target(false, [GGUF, BLOBS]))
                           && IsFolder(end, HotBlobs(hot)))
    && (forall p :: p in touched && p in fs && fs[p].Link? ==>
          && p != [] && !(LegacyBlobs(hot) <= p)
          && p in end && end[p] == Link(LinkTo(p, BlobFor(hot, fs[p].target))))
  }

  lemma EntryRepaired(fs: Files, hot: Path, spec: CacheSpec, p: Path)
    requires Repairable(fs, hot, spec) && HasStore(fs, hot) && p in fs
    requires fs[p].Link? ==> p !in Requested(hot + spec.target, spec.files)
    ensures var end := Repaired(fs, hot, spec); Home(fs, hot, p) in end && end[Home(fs, hot, p)] == fs[p]
  {
    EntryKept(fs, hot, p);
    var home := Home(fs, hot, p);
    if home in Requested(hot + spec.target, spec.files) && home != p {
      TouchedOutside(fs, hot, spec, home);
    }
  }

  lemma OldNameRepaired(fs: Files, hot: Path, spec: CacheSpec)
    requires Repairable(fs, hot, spec) && RepairHot(fs, hot, spec).ok && Moves(fs, hot)
    ensures var end, l := Repaired(fs, hot, spec), LegacyBlobs(hot);
            l in end && end[l] == Link(Target(false, [GGUF, BLOBS])) && IsFolder(end, HotBlobs(hot))
  {
    RepairIs(fs, hot, spec);
    var l := LegacyBlobs(hot);
    if l in Requested(hot + spec.target, spec.files) {
      TouchedOutside(fs, hot, spec, l);
    }
  }

  lemma RequestedRepaired(fs: Files, hot: Path, spec: CacheSpec, p: Path)
    requires Repairable(fs, hot, spec) && HasStore(fs, hot) && p in Requested(hot + spec.target, spec.files)
    requires p in fs && fs[p].Link?
    ensures p != [] && !(LegacyBlobs(hot) <= p)
    ensures var end := Repaired(fs, hot, spec); p in end && end[p] == Link(LinkTo(p, BlobFor(hot, fs[p].target)))
  {
    TouchedOutside(fs, hot, spec, p);
    EntryKept(fs, hot, p);
  }

  lemma RepairedIs(fs: Files, hot: Path, spec: CacheSpec)
    requires Repairable(fs, hot, spec) && RepairHot(fs, hot, spec).ok
    ensures RepairOf(fs, RepairHot(fs, hot, spec).fs, hot, Requested(hot + spec.target, spec.files))
  {
    RepairIs(fs, hot, spec);
    var end, touched := Repaired(fs, hot, spec), Requested(hot + spec.target, spec.files);
    forall p | p in fs && (fs[p].Link? ==> p !in touched)
      ensures Home(fs, hot, p) in end && end[Home(fs, hot, p)] == fs[p]
    {
      EntryRepaired(fs, hot, spec, p);
    }
    if Moves(fs, hot) {
      OldNameRepaired(fs, hot, spec);
    }
    forall p | p in touched && p in fs && fs[p].Link?
      ensures && p != [] && !(LegacyBlobs(hot) <= p)
              && p in end && end[p] == Link(LinkTo(p, BlobFor(hot, fs[p].target)))
    {
      RequestedRepaired(fs, hot, spec, p);
    }
  }

  // ------------------------------------------------------------------ steps through the repaired file system

  /** The old name of a moved store leads, one link later, into the new one. */
  lemma ThroughOldName(fs: Files, end: Files, hot: Path, touched: set<Path>, tail: seq<string>, links: nat)
    requires RepairOf(fs, end, hot, touched) && Moves(fs, hot) && links > 0
    ensures Walk(end, hot, ["blobs"] + tail, links) == Walk(end, HotBlobs(hot), tail, links - 1)
  {
    StoreNames(hot);
    WalkLink(end, hot, "blobs", tail, links);
    assert hot + [GGUF, BLOBS] == HotBlobs(hot);
    WalkFolders(end, hot, [GGUF, BLOBS], tail, links - 1);
  }

  /** A faithful requested link leads to the same file after it has been redirected. */
  lemma ThroughRequested(
      fs: Files, end: Files, hot: Path, touched: set<Path>, at: Path, c: string, t: Target, links: nat, more: nat)
    requires RepairOf(fs, end, hot, touched) && more > 0
    requires at + [c] in touched && at + [c] in fs && fs[at + [c]] == Link(t) && Faithful(fs, hot, at, t, links)
    ensures Home(fs, hot, at) == at
    ensures Walk(end, at, [c], more) == Some(BlobFor(hot, t))
  {
    var p := at + [c];
    assert Dir(p) == at && Base(p) == c;
    PrefixOfDir(LegacyBlobs(hot), p);
    RedirectedLeads(end, hot, p, BaseName(t), more);
  }

  /** A link to a regular blob is followed to it. */
  lemma RedirectedLeads(end: Files, hot: Path, p: Path, n: string, links: nat)
    requires Tree(end) && p in end && end[p] == Link(LinkTo(p, HotBlobs(hot) + [n])) && links > 0
    requires HotBlobs(hot) + [n] in end && end[HotBlobs(hot) + [n]].File?
    ensures Walk(end, Dir(p), [Base(p)], links) == Some(HotBlobs(hot) + [n])
  {
    var blob := HotBlobs(hot) + [n];
    WayToStore(end, hot, p, n, links - 1);
    assert Dir(blob) == HotBlobs(hot) && Base(blob) == n;
    WalkLast(end, blob, links - 1);
    FollowOne(end, p, end[p].target.parts, links, blob);
  }

  /** A relative link leads where its text leads. */
  lemma FollowOne(fs: Files, p: Path, parts: seq<string>, links: nat, q: Path)
    requires Tree(fs) && p in fs && fs[p] == Link(Target(false, parts)) && links > 0
    requires Walk(fs, Dir(p), parts, links - 1) == Some(q)
    ensures Walk(fs, Dir(p), [Base(p)], links) == Some(q)
  {
    var d, c := Dir(p), Base(p);
    assert d + [c] == p && c in p && [c] + [] == [c] && parts + [] == parts;
    WalkLink(fs, d, c, [], links);
  }

  /** An ordinary name: what was found under it is found under it. */
  lemma ThroughName(fs: Files, end: Files, hot: Path, touched: set<Path>, at: Path, c: string)
    requires RepairOf(fs, end, hot, touched) && at + [c] in fs && !(Moves(fs, hot) && at + [c] == LegacyBlobs(hot))
    requires fs[at + [c]].Link? ==> at + [c] !in touched
    ensures var next := Home(fs, hot, at) + [c];
            next == Home(fs, hot, at + [c]) && next in end && end[next] == fs[at + [c]]
    ensures Home(fs, hot, []) == []
  {
    HomeOfChild(fs, hot, at, c);
  }

  lemma ThroughUp(fs: Files, hot: Path, at: Path)
    requires Tree(fs) && IsFolder(fs, at) && !(Moves(fs, hot) && at == LegacyBlobs(hot))
    ensures IsFolder(fs, if at == [] then [] else Dir(at))
    ensures Home(fs, hot, if at == [] then [] else Dir(at)) ==
            (if Home(fs, hot, at) == [] then [] else Dir(Home(fs, hot, at)))
  {
    if at != [] {
      HomeOfParent(fs, hot, at);
    }
  }

  lemma EnterKept(fs: Files, end: Files, hot: Path, touched: set<Path>, at: Path, rest: seq<string>, more: nat)
    requires RepairOf(fs, end, hot, touched) && Moves(fs, hot) && more > 0
    requires rest != [] && at + [rest[0]] == LegacyBlobs(hot)
    ensures Home(fs, hot, LegacyBlobs(hot)) == HotBlobs(hot)
    ensures Walk(end, Home(fs, hot, at), rest, more) == Walk(end, HotBlobs(hot), rest[1..], more - 1)
  {
    var l := LegacyBlobs(hot);
    assert at == l[..|hot|] == hot && rest[0] == l[|hot|] == "blobs";
    assert rest == ["blobs"] + rest[1..];
    assert HotBlobs(hot) + l[|l|..] == HotBlobs(hot);
    ThroughOldName(fs, end, hot, touched, rest[1..], more);
  }

  // ------------------------------------------------------------------ whole ways

  /**
   * Whatever a steady way led to, it leads to the home of afterwards, given a link for each entry of the moved
   * store.
   */
  lemma {:induction false} WayKept(
      fs: Files, end: Files, hot: Path, touched: set<Path>, at: Path, rest: seq<string>, links: nat, more: nat)
    requires RepairOf(fs, end, hot, touched) && IsFolder(fs, at) && Walk(fs, at, rest, links).Some?
    requires Steady(fs, hot, touched, at, rest, links) && links + Entries(fs, hot, touched, at, rest, links) <= more
    ensures Walk(end, Home(fs, hot, at), rest, more) == Some(Home(fs, hot, Walk(fs, at, rest, links).value))
    decreases links, |rest|, 1
  {
    if rest != [] {
      var c, tail := rest[0], rest[1..];
      if c == "" || c == "." {
        WayKept(fs, end, hot, touched, at, tail, links, more);
      } else if c == UP {
        ThroughUp(fs, hot, at);
        WayKept(fs, end, hot, touched, if at == [] then [] else Dir(at), tail, links, more);
      } else if fs[at + [c]].Folder? {
        FolderKept(fs, end, hot, touched, at, rest, links, more);
      } else if fs[at + [c]].File? {
        ThroughName(fs, end, hot, touched, at, c);
      } else {
        LinkKept(fs, end, hot, touched, at, rest, links, more);
      }
    }
  }

  lemma {:induction false} FolderKept(
      fs: Files, end: Files, hot: Path, touched: set<Path>, at: Path, rest: seq<string>, links: nat, more: nat)
    requires RepairOf(fs, end, hot, touched) && IsFolder(fs, at) && Walk(fs, at, rest, links).Some?
    requires Steady(fs, hot, touched, at, rest, links) && links + Entries(fs, hot, touched, at, rest, links) <= more
    requires rest != [] && rest[0] != "" && rest[0] != "." && rest[0] != UP && fs[at + [rest[0]]].Folder?
    ensures Walk(end, Home(fs, hot, at), rest, more) == Some(Home(fs, hot, Walk(fs, at, rest, links).value))
    decreases links, |rest|, 0
  {
    var next := at + [rest[0]];
    if Moves(fs, hot) && next == LegacyBlobs(hot) {
      WayKept(fs, end, hot, touched, next, rest[1..], links, more - 1);
      EnterKept(fs, end, hot, touched, at, rest, more);
    } else {
      WayKept(fs, end, hot, touched, next, rest[1..], links, more);
      ThroughName(fs, end, hot, touched, at, rest[0]);
    }
  }

  lemma {:induction false} LinkKept(
      fs: Files, end: Files, hot: Path, touched: set<Path>, at: Path, rest: seq<string>, links: nat, more: nat)
    requires RepairOf(fs, end, hot, touched) && IsFolder(fs, at) && Walk(fs, at, rest, links).Some?
    requires Steady(fs, hot, touched, at, rest, links) && links + Entries(fs, hot, touched, at, rest, links) <= more
    requires rest != [] && rest[0] != "" && rest[0] != "." && rest[0] != UP && fs[at + [rest[0]]].Link?
    ensures Walk(end, Home(fs, hot, at), rest, more) == Some(Home(fs, hot, Walk(fs, at, rest, links).value))
    decreases links, |rest|, 0
  {
    var t := fs[at + [rest[0]]].target;
    if at + [rest[0]] in touched {
      RequestedLinkKept(fs, end, hot, touched, at, rest, links, more);
    } else {
      LinkUnfolds(fs, hot, touched, at, rest, links);
      WayKept(fs, end, hot, touched, if t.absolute then [] else at, t.parts + rest[1..], links - 1, more - 1);
      OtherLinkKept(fs, end, hot, touched, at, rest, more);
    }
  }

  /** The way over an unrequested link goes on with its text. */
  lemma LinkUnfolds(fs: Files, hot: Path, touched: set<Path>, at: Path, rest: seq<string>, links: nat)
    requires rest != [] && rest[0] != "" && rest[0] != "." && rest[0] != UP && links > 0
    requires at + [rest[0]] in fs && fs[at + [rest[0]]].Link? && at + [rest[0]] !in touched
    ensures var t := fs[at + [rest[0]]].target;
            var from, parts := if t.absolute then [] else at, t.parts + rest[1..];
            && Walk(fs, at, rest, links) == Walk(fs, from, parts, links - 1)
            && (Steady(fs, hot, touched, at, rest, links) <==> Steady(fs, hot, touched, from, parts, links - 1))
            && Entries(fs, hot, touched, at, rest, links) == Entries(fs, hot, touched, from, parts, links - 1)
  {
  }

  /** A requested link on a steady way is its end, and faithful. */
  lemma RequestedUnfolds(fs: Files, hot: Path, touched: set<Path>, at: Path, rest: seq<string>, links: nat)
    requires rest != [] && rest[0] != "" && rest[0] != "." && rest[0] != UP
    requires at + [rest[0]] in fs && fs[at + [rest[0]]].Link? && at + [rest[0]] in touched
    requires Steady(fs, hot, touched, at, rest, links) && Walk(fs, at, rest, links).Some?
    ensures var t := fs[at + [rest[0]]].target;
            && rest == [rest[0]] && links > 0 && Faithful(fs, hot, at, t, links - 1)
            && Home(fs, hot, Walk(fs, at, rest, links).value) == BlobFor(hot, t)
  {
    var t := fs[at + [rest[0]]].target;
    assert rest == [rest[0]] && t.parts + [] == t.parts;
  }

  lemma RequestedLinkKept(
      fs: Files, end: Files, hot: Path, touched: set<Path>, at: Path, rest: seq<string>, links: nat, more: nat)
    requires RepairOf(fs, end, hot, touched) && Walk(fs, at, rest, links).Some? && links <= more
    requires Steady(fs, hot, touched, at, rest, links)
    requires rest != [] && rest[0] != "" && rest[0] != "." && rest[0] != UP && at + [rest[0]] in fs
    requires fs[at + [rest[0]]].Link?
    requires at + [rest[0]] in touched
    ensures Walk(end, Home(fs, hot, at), rest, more) == Some(Home(fs, hot, Walk(fs, at, rest, links).value))
  {
    RequestedUnfolds(fs, hot, touched, at, rest, links);
    ThroughRequested(fs, end, hot, touched, at, rest[0], fs[at + [rest[0]]].target, links - 1, more);
  }

  /** An unrequested link is followed as before. */
  lemma OtherLinkKept(fs: Files, end: Files, hot: Path, touched: set<Path>, at: Path, rest: seq<string>, more: nat)
    requires RepairOf(fs, end, hot, touched) && more > 0 && rest != [] && rest[0] != "" && rest[0] != "."
    requires rest[0] != UP
    requires at + [rest[0]] in fs && fs[at + [rest[0]]].Link? && at + [rest[0]] !in touched
    ensures var t := fs[at + [rest[0]]].target;
            Walk(end, Home(fs, hot, at), rest, more) ==
            Walk(end, Home(fs, hot, if t.absolute then [] else at), t.parts + rest[1..], more - 1)
  {
    ThroughName(fs, end, hot, touched, at, rest[0]);
  }

  /**
   * A successful repair loses no way to a file: any path that led somewhere by a steady way, with a link to
   * spare for each time it passes the old name of a moved store, leads to the same entry in its new place, and
   * reads as the same bytes.
   */
  lemma RepairKeepsResolution(fs: Files, hot: Path, spec: CacheSpec, p: Path, links: nat)
    requires Repairable(fs, hot, spec) && RepairHot(fs, hot, spec).ok && Walk(fs, [], p, links).Some?
    requires var touched := Requested(hot + spec.target, spec.files);
             Steady(fs, hot, touched, [], p, links) && links + Entries(fs, hot, touched, [], p, links) <= LINK_LIMIT
    ensures Resolve(fs, p) == Walk(fs, [], p, links)
    ensures Resolve(RepairHot(fs, hot, spec).fs, p) == Some(Home(fs, hot, Resolve(fs, p).value))
    ensures Read(RepairHot(fs, hot, spec).fs, p) == Read(fs, p)
  {
    RepairedIs(fs, hot, spec);
    WayRead(fs, RepairHot(fs, hot, spec).fs, hot, Requested(hot + spec.target, spec.files), p, links);
  }

  lemma WayRead(fs: Files, end: Files, hot: Path, touched: set<Path>, p: Path, links: nat)
    requires RepairOf(fs, end, hot, touched) && Walk(fs, [], p, links).Some?
    requires Steady(fs, hot, touched, [], p, links) && links + Entries(fs, hot, touched, [], p, links) <= LINK_LIMIT
    ensures Resolve(fs, p) == Walk(fs, [], p, links)
    ensures Resolve(end, p) == Some(Home(fs, hot, Resolve(fs, p).value)) && Read(end, p) == Read(fs, p)
  {
    WalkMoreLinks(fs, [], p, links, LINK_LIMIT);
    WayKept(fs, end, hot, touched, [], p, links, LINK_LIMIT);
    WalkEnds(fs, [], p, links);
  }

  // ------------------------------------------------------------------ links of other artifacts, and a way that is lost

  lemma SteadyName(fs: Files, hot: Path, touched: set<Path>, at: Path, c: string, rest: seq<string>, links: nat)
    requires Proper(c) && at + [c] in fs && fs[at + [c]].Folder?
    ensures Steady(fs, hot, touched, at, [c] + rest, links) <==> Steady(fs, hot, touched, at + [c], rest, links)
    ensures Entries(fs, hot, touched, at, [c] + rest, links) ==
            Entries(fs, hot, touched, at + [c], rest, links) +
            (if Moves(fs, hot) && at + [c] == LegacyBlobs(hot) then 1 else 0)
  {
    assert ([c] + rest)[0] == c && ([c] + rest)[1..] == rest;
  }

  lemma SteadyLink(fs: Files, hot: Path, touched: set<Path>, at: Path, c: string, t: Target)
    requires Proper(c) && at + [c] in fs && fs[at + [c]] == Link(t) && at + [c] !in touched
    ensures var from := if t.absolute then [] else at;
            && Walk(fs, at, [c], 1) == Walk(fs, from, t.parts, 0)
            && (Steady(fs, hot, touched, at, [c], 1) <==> Steady(fs, hot, touched, from, t.parts, 0))
            && Entries(fs, hot, touched, at, [c], 1) == Entries(fs, hot, touched, from, t.parts, 0)
  {
    assert [c][1..] == [] && t.parts + [] == t.parts;
  }

  /** Whether the old name of a moved store is passed between two places. */
  function Passed(fs: Files, hot: Path, from: Path, to: Path): nat {
    if Moves(fs, hot) && from < LegacyBlobs(hot) && LegacyBlobs(hot) <= to then 1 else 0
  }

  lemma PassedOnce(fs: Files, hot: Path, at: Path, c: string, to: Path)
    requires at + [c] <= to
    ensures Passed(fs, hot, at, to) ==
            Passed(fs, hot, at + [c], to) + (if Moves(fs, hot) && at + [c] == LegacyBlobs(hot) then 1 else 0)
  {
    var l := LegacyBlobs(hot);
    if at < l && l <= to {
      assert l == to[..|l|] && at + [c] == to[..|at| + 1];
      assert at + [c] == l[..|at| + 1];
    }
    if at + [c] <= l {
      assert at == l[..|at|];
    }
  }

  lemma FirstName(fs: Files, at: Path, names: Path)
    requires Tree(fs) && IsFolder(fs, at + names) && names != []
    ensures var next := at + [names[0]];
            Proper(names[0]) && next in fs && fs[next].Folder? && next + names[1..] == at + names && next <= at + names
  {
    var next, q := at + [names[0]], at + names;
    assert names[0] in q && next == q[..|at| + 1];
    if |names| > 1 {
      AncestorIsFolder(fs, q, |at| + 1);
    } else {
      assert names == [names[0]];
    }
  }

  /** Names of real directories are passed steadily; the old name of the store counts when it is on the way. */
  lemma {:induction false} SteadyNames(
      fs: Files, hot: Path, touched: set<Path>, at: Path, names: Path, rest: seq<string>, links: nat)
    requires Tree(fs) && IsFolder(fs, at + names)
    ensures Steady(fs, hot, touched, at, names + rest, links) <==> Steady(fs, hot, touched, at + names, rest, links)
    ensures Entries(fs, hot, touched, at, names + rest, links) ==
            Entries(fs, hot, touched, at + names, rest, links) + Passed(fs, hot, at, at + names)
    decreases |names|
  {
    if names == [] {
      assert names + rest == rest && at + names == at;
    } else {
      var c := names[0];
      FirstName(fs, at, names);
      assert names + rest == [c] + (names[1..] + rest);
      SteadyName(fs, hot, touched, at, c, names[1..] + rest, links);
      SteadyNames(fs, hot, touched, at + [c], names[1..], rest, links);
      PassedOnce(fs, hot, at, c, at + names);
    }
  }

  lemma {:induction false} SteadyUps(
      fs: Files, hot: Path, touched: set<Path>, at: Path, n: nat, rest: seq<string>, links: nat)
    requires n <= |at| && !(LegacyBlobs(hot) <= at)
    ensures Steady(fs, hot, touched, at, Ups(n) + rest, links) <==>
              Steady(fs, hot, touched, at[..|at| - n], rest, links)
    ensures Entries(fs, hot, touched, at, Ups(n) + rest, links) ==
            Entries(fs, hot, touched, at[..|at| - n], rest, links)
    decreases n
  {
    if n == 0 {
      assert Ups(n) + rest == rest && at[..|at|] == at;
    } else {
      assert (Ups(n) + rest)[1..] == Ups(n - 1) + rest;
      PrefixOfDir(LegacyBlobs(hot), at);
      SteadyUps(fs, hot, touched, Dir(at), n - 1, rest, links);
      assert Dir(at)[..|at| - 1 - (n - 1)] == at[..|at| - n];
    }
  }

  /** The text speaks of `q`: absolutely, or by climbing `k` directories and naming the rest. */
  predicate Speaks(p: Path, t: Target, k: nat, q: Path)
    requires p != []
  {
    if t.absolute then t.parts == q
    else k <= |Dir(p)| && Dir(p)[..|Dir(p)| - k] <= q && t.parts == Ups(k) + q[|Dir(p)| - k..]
  }

  /** From a place above it, a regular file of the legacy store is reached steadily, entering the store once. */
  lemma DownToFile(fs: Files, hot: Path, touched: set<Path>, top: Path, q: Path, links: nat)
    requires Tree(fs) && q in fs && fs[q].File? && LegacyBlobs(hot) < q && top <= q && !(LegacyBlobs(hot) <= top)
    ensures Walk(fs, top, q[|top|..], links) == Some(q)
    ensures Steady(fs, hot, touched, top, q[|top|..], links) && Entries(fs, hot, touched, top, q[|top|..], links) <= 1
  {
    PrefixesCompare(top, LegacyBlobs(hot), q);
    var names := q[|top|..];
    assert top + names == q && names != [] && top + Dir(names) == Dir(q) && Base(names) == Base(q);
    assert names == Dir(names) + [Base(q)] && Dir(q) + [Base(q)] == q && [Base(q)][1..] == [] && Base(q) in q;
    WalkToFile(fs, top, names, links);
    SteadyNames(fs, hot, touched, top, Dir(names), [Base(q)], links);
  }

  /** The text of such a link is walked steadily too. */
  lemma SpokenWay(fs: Files, hot: Path, touched: set<Path>, p: Path, k: nat, q: Path, links: nat)
    requires Tree(fs) && p in fs && fs[p].Link? && !(LegacyBlobs(hot) <= p) && Speaks(p, fs[p].target, k, q)
    requires q in fs && fs[q].File? && LegacyBlobs(hot) < q
    ensures var t := fs[p].target;
            var from := if t.absolute then [] else Dir(p);
            && Walk(fs, from, t.parts, links) == Some(q)
            && Steady(fs, hot, touched, from, t.parts, links) && Entries(fs, hot, touched, from, t.parts, links) <= 1
  {
    if fs[p].target.absolute {
      assert q[0..] == q;
      DownToFile(fs, hot, touched, [], q, links);
    } else {
      NotBelow(LegacyBlobs(hot), p, |p| - 1);
      NotBelow(LegacyBlobs(hot), Dir(p), |Dir(p)| - k);
      UpAndDown(fs, hot, touched, Dir(p), k, q, links);
    }
  }

  lemma NotBelow(l: Path, p: Path, n: nat)
    requires !(l <= p) && n <= |p|
    ensures !(l <= p[..n])
  {
    var q := p[..n];
    if l <= q {
      PrefixTrans(l, q, p);
    }
  }

  /** Up from a place outside the legacy store, and down to a regular file in it. */
  lemma UpAndDown(fs: Files, hot: Path, touched: set<Path>, d: Path, k: nat, q: Path, links: nat)
    requires Tree(fs) && q in fs && fs[q].File? && LegacyBlobs(hot) < q && k <= |d| && d[..|d| - k] <= q
    requires !(LegacyBlobs(hot) <= d) && !(LegacyBlobs(hot) <= d[..|d| - k])
    ensures var parts := Ups(k) + q[|d| - k..];
            && Walk(fs, d, parts, links) == Some(q)
            && Steady(fs, hot, touched, d, parts, links) && Entries(fs, hot, touched, d, parts, links) <= 1
  {
    var top := d[..|d| - k];
    DownToFile(fs, hot, touched, top, q, links);
    WalkUps(fs, d, k, q[|top|..], links);
    SteadyUps(fs, hot, touched, d, k, q[|top|..], links);
  }

  lemma LinkWay(fs: Files, hot: Path, touched: set<Path>, p: Path, k: nat, q: Path)
    requires Tree(fs) && p in fs && fs[p].Link?
    requires !(LegacyBlobs(hot) <= p) && Speaks(p, fs[p].target, k, q) && p !in touched
    requires q in fs && fs[q].File? && LegacyBlobs(hot) < q
    ensures Walk(fs, [], p, 1) == Some(q)
    ensures Steady(fs, hot, touched, [], p, 1) && Entries(fs, hot, touched, [], p, 1) <= 1
  {
    var d, c, t := Dir(p), Base(p), fs[p].target;
    assert [] + d == d && p == d + [c] && c in p;
    if LegacyBlobs(hot) <= d {
      PrefixTrans(LegacyBlobs(hot), d, p);
    }
    WalkFolders(fs, [], d, [c], 1);
    SteadyNames(fs, hot, touched, [], d, [c], 1);
    SteadyLink(fs, hot, touched, d, c, t);
    SpokenWay(fs, hot, touched, p, k, q, 0);
  }

  /** A steady way through one link to a file is read before the repair and after it. */
  lemma SteadyReads(fs: Files, hot: Path, spec: CacheSpec, p: Path, q: Path)
    requires Repairable(fs, hot, spec) && RepairHot(fs, hot, spec).ok
    requires Walk(fs, [], p, 1) == Some(q) && q in fs && fs[q].File?
    requires var touched := Requested(hot + spec.target, spec.files);
             Steady(fs, hot, touched, [], p, 1) && 1 + Entries(fs, hot, touched, [], p, 1) <= LINK_LIMIT
    ensures Read(fs, p) == Some(fs[q].data) && Read(RepairHot(fs, hot, spec).fs, p) == Some(fs[q].data)
  {
    RepairKeepsResolution(fs, hot, spec, p, 1);
  }

  /** Links of other artifacts that speak of a blob of the legacy store, relatively or absolutely, read as before. */
  lemma RepairKeepsOtherLinks(fs: Files, hot: Path, spec: CacheSpec, p: Path, k: nat, q: Path)
    requires Repairable(fs, hot, spec) && RepairHot(fs, hot, spec).ok
    requires p in fs && fs[p].Link? && !(LegacyBlobs(hot) <= p) && p !in Requested(hot + spec.target, spec.files)
    requires Speaks(p, fs[p].target, k, q) && LegacyBlobs(hot) < q && q in fs && fs[q].File?
    ensures Read(fs, p) == Some(fs[q].data) && Read(RepairHot(fs, hot, spec).fs, p) == Some(fs[q].data)
  {
    LinkWay(fs, hot, Requested(hot + spec.target, spec.files), p, k, q);
    SteadyReads(fs, hot, spec, p, q);
  }

  /**
   * A requested link is redirected by name alone.  With a store that holds no links it keeps its bytes if and
   * only if the blob of that name, in the store as the repair finds or relocates it, holds them.
   */
  lemma RepairKeepsRequestedIff(fs: Files, hot: Path, spec: CacheSpec, f: Path, d: Content)
    requires Repairable(fs, hot, spec) && RepairHot(fs, hot, spec).ok && f in spec.files && RegularStore(fs, hot)
    ensures var p := hot + spec.target + f;
            var blob := HotBlobs(hot) + [BlobName(fs, p)];
            && blob in Settled(fs, hot)
            && (Read(RepairHot(fs, hot, spec).fs, p) == Some(d) <==> Settled(fs, hot)[blob] == File(d))
  {
    RepairIs(fs, hot, spec);
    RequestedLeads(fs, hot, spec, f);
    var p, end := hot + spec.target + f, Repaired(fs, hot, spec);
    var n := BlobName(fs, p);
    var blob := HotBlobs(hot) + [n];
    assert p in Requested(hot + spec.target, spec.files);
    RequestedKept(fs, hot, spec, f);
    RegularBlob(fs, hot, n);
    assert Dir(blob) == HotBlobs(hot) && Base(blob) == n;
    WalkLast(end, blob, LINK_LIMIT - 1);
  }

  /** A path that climbs out of the legacy store and back in is lost when the store moves. */
  lemma ClimbingOutIsLost(fs: Files, hot: Path, spec: CacheSpec, n: string)
    requires Repairable(fs, hot, spec) && RepairHot(fs, hot, spec).ok && Moves(fs, hot)
    requires LegacyBlobs(hot) + [n] in fs && fs[LegacyBlobs(hot) + [n]].File? && hot + [GGUF, "blobs"] !in fs
    ensures var p := LegacyBlobs(hot) + [UP, "blobs", n];
            Read(fs, p).Some? && Read(RepairHot(fs, hot, spec).fs, p).None?
  {
    OutAndIn(fs, hot, n);
    RepairedIs(fs, hot, spec);
    NoSecondStore(fs, hot, spec);
    OutOnly(fs, RepairHot(fs, hot, spec).fs, hot, Requested(hot + spec.target, spec.files), n);
  }

  lemma OutOnly(fs: Files, end: Files, hot: Path, touched: set<Path>, n: string)
    requires RepairOf(fs, end, hot, touched) && Moves(fs, hot) && hot + [GGUF, "blobs"] !in end
    ensures Resolve(end, LegacyBlobs(hot) + [UP, "blobs", n]).None?
  {
    var l, h := LegacyBlobs(hot), HotBlobs(hot);
    assert [] + hot == hot && l + [UP, "blobs", n] == hot + (["blobs"] + [UP, "blobs", n]);
    assert Dir(l) == hot && IsFolder(end, hot);
    WalkFolders(end, [], hot, ["blobs"] + [UP, "blobs", n], LINK_LIMIT);
    ThroughOldName(fs, end, hot, touched, [UP, "blobs", n], LINK_LIMIT);
    assert [UP, "blobs", n][1..] == ["blobs", n] && Dir(h) == hot + [GGUF]
        && hot + [GGUF] + ["blobs"] == hot + [GGUF, "blobs"];
    assert Walk(end, h, [UP, "blobs", n], LINK_LIMIT - 1) == Walk(end, hot + [GGUF], ["blobs", n], LINK_LIMIT - 1);
  }

  lemma OutAndIn(fs: Files, hot: Path, n: string)
    requires Tree(fs) && LegacyBlobs(hot) + [n] in fs && fs[LegacyBlobs(hot) + [n]].File?
    ensures Read(fs, LegacyBlobs(hot) + [UP, "blobs", n]).Some?
  {
    var l := LegacyBlobs(hot);
    assert Dir(l + [n]) == l && Dir(l) == hot && [] + l == l && ["blobs", n] == ["blobs"] + [n]
        && l + [n] == hot + ["blobs", n];
    assert [UP, "blobs", n][1..] == ["blobs", n];
    WalkFolders(fs, [], l, [UP, "blobs", n], LINK_LIMIT);
    WalkToFile(fs, hot, ["blobs", n], LINK_LIMIT);
  }

  lemma NoSecondStore(fs: Files, hot: Path, spec: CacheSpec)
    requires Repairable(fs, hot, spec) && RepairHot(fs, hot, spec).ok && Moves(fs, hot) && hot + [GGUF, "blobs"] !in fs
    ensures hot + [GGUF, "blobs"] !in RepairHot(fs, hot, spec).fs
  {
    RepairIs(fs, hot, spec);
    StoreNames(hot);
    var q := hot + [GGUF, "blobs"];
    assert q[|hot|] == GGUF && q[|hot| + 1] == "blobs" && HotBlobs(hot)[|hot| + 1] == BLOBS
        && LegacyBlobs(hot)[|hot|] == "blobs";
    assert "blobs"[0] != BLOBS[0];
    RoundTrip.MovedOutside(WithFolders(fs, hot + [GGUF]), LegacyBlobs(hot), HotBlobs(hot), q);
    WithFoldersIs(fs, hot + [GGUF], q);
  }
}
