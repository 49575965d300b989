/**
 * The cache manager as an object over a file system (cmd/llm-proxy/cache_manager.go: sweep, makeSpace,
 * ensureArtifact, and the ensure and sweep handlers, which run one at a time under the manager's lock).
 */
module CacheManagers {
  import opened Prelude
  import opened Paths
  import opened FileSystem
  import opened Layout
  import opened Capacity
  import Archive
  import Cache
  import CacheKeys
  import ColdStore
  import Disks
  import Download
  import Repair
  import Revival
  import RoundTrip

  datatype Usage = Usage(capacity: Bytes64, used: Bytes64)

  /**
   * What the manager asks of the outside world, each answer by the number of questions asked before:
   * usage measurements, directory listings and modification times, repository inventories, runs of the download
   * tool into a staging directory, what brings hub artifacts in, and the random ends of temporary names.
   */
  datatype Environment = Environment(
    usage: nat -> Option<Usage>,
    listable: nat -> bool,
    modified: (nat, string) -> Option<int>,
    discover: (nat, CacheSpec) -> Option<CacheSpec>,
    fetch: (nat, Files, CacheSpec, Path) -> Outcome,
    hub: (nat, Files, CacheSpec) -> Outcome,
    suffix: nat -> string
  )

  datatype Verdict = Done | NotMeasured | NotListed | TooLarge | Insufficient

  // ------------------------------------------------------------------ markers and evictions in sequence

  /** The names in the marker directory. */
  function Names(fs: Files, hot: Path): set<string> {
    set p | p in fs && Cache.Area(hot) < p && |p| == |hot| + 2 :: p[|hot| + 1]
  }

  function NamesOf(s: seq<Listed>): seq<string> {
    seq(|s|, i requires 0 <= i < |s| => s[i].name)
  }

  /** An oldest-first listing of exactly these markers. */
  ghost predicate Listing(order: seq<Listed>, names: set<string>) {
    OldestFirst(order) && Distinct(NamesOf(order)) && forall n :: n in names <==> n in NamesOf(order)
  }

  /** The listed names that a sweep may evict, in order. */
  function Candidates(order: seq<Listed>, preserve: Option<string>): seq<string> {
    if order == [] then []
    else
      var n := order[|order| - 1].name;
      Candidates(order[..|order| - 1], preserve) + if Some(n) == preserve then [] else [n]
  }

  function EvictAll(fs: Files, hot: Path, names: seq<string>): Files {
    if names == [] then fs
    else Cache.Evict(EvictAll(fs, hot, names[..|names| - 1]), hot, names[|names| - 1])
  }

  lemma {:induction false} CandidatesAre(order: seq<Listed>, preserve: Option<string>)
    ensures forall n :: n in Candidates(order, preserve) <==> n in NamesOf(order) && Some(n) != preserve
    decreases |order|
  {
    if order != [] {
      var front, last := order[..|order| - 1], order[|order| - 1].name;
      CandidatesAre(front, preserve);
      assert NamesOf(order) == NamesOf(front) + [last];
    }
  }

  lemma CandidatesStep(order: seq<Listed>, preserve: Option<string>, i: nat)
    requires i < |order|
    ensures Candidates(order[..i + 1], preserve) ==
            Candidates(order[..i], preserve) + if Some(order[i].name) == preserve then [] else [order[i].name]
  {
    assert order[..i + 1][..i] == order[..i];
  }

  lemma {:induction false} CandidatesPrefix(order: seq<Listed>, preserve: Option<string>, i: nat)
    requires i <= |order|
    ensures Candidates(order[..i], preserve) <= Candidates(order, preserve)
    decreases |order| - i
  {
    if i == |order| {
      assert order[..i] == order;
    } else {
      CandidatesStep(order, preserve, i);
      CandidatesPrefix(order, preserve, i + 1);
      PrefixOfSum(Candidates(order[..i], preserve), Candidates(order[..i + 1], preserve), Candidates(order, preserve));
    }
  }

  lemma PrefixOfSum(a: seq<string>, b: seq<string>, c: seq<string>)
    requires a <= b && b <= c
    ensures a <= c
  {
    assert a == b[..|a|] == c[..|a|];
  }

  /** Names of markers are proper. */
  lemma NameIsProper(fs: Files, hot: Path, n: string)
    requires Tree(fs) && n in Names(fs, hot)
    ensures Proper(n)
  {
    var p :| p in fs && Cache.Area(hot) < p && |p| == |hot| + 2 && p[|hot| + 1] == n;
    assert p[|hot| + 1] in p;
  }

  /** Evicting some markers keeps the cache sound and adds nothing. */
  lemma {:induction false} EvictAllKeeps(fs: Files, hot: Path, specs: Cache.Specs, names: seq<string>)
    requires Cache.Catalogue(hot, specs) && Cache.Inv(fs, hot, specs) && forall n :: n in names ==> Proper(n)
    ensures Cache.Inv(EvictAll(fs, hot, names), hot, specs)
    ensures forall p :: p in EvictAll(fs, hot, names) ==> p in fs
    decreases |names|
  {
    if names != [] {
      var front, last := names[..|names| - 1], names[|names| - 1];
      assert last in names && forall n :: n in front ==> n in names;
      EvictAllKeeps(fs, hot, specs, front);
      Cache.EvictIs(EvictAll(fs, hot, front), hot, specs, last);
      Cache.EvictKeeps(EvictAll(fs, hot, front), hot, specs, last);
    }
  }

  /** An evicted marker is gone from the listing, and evicting adds nothing to it. */
  lemma EvictedName(fs: Files, hot: Path, specs: Cache.Specs, k: string)
    requires Cache.Catalogue(hot, specs) && Cache.Inv(fs, hot, specs) && Proper(k)
    ensures Names(Cache.Evict(fs, hot, k), hot) == Names(fs, hot) - {k}
  {
    Cache.EvictIs(fs, hot, specs, k);
    DroppedName(fs, Cache.Evict(fs, hot, k), hot, specs, k);
  }

  lemma DroppedName(fs: Files, next: Files, hot: Path, specs: Cache.Specs, k: string)
    requires Cache.Catalogue(hot, specs)
    requires || next == Without(fs, Cache.Marker(hot, k))
             || (k in specs.known
                 && next == Without(Without(fs, Cache.Payload(hot, specs.known[k])), Cache.Marker(hot, k)))
    ensures Names(next, hot) == Names(fs, hot) - {k}
  {
    forall n ensures n in Names(next, hot) <==> n in Names(fs, hot) && n != k {
      NameIsMarker(fs, hot, n);
      NameIsMarker(next, hot, n);
      if k in specs.known {
        NameWithout(fs, hot, specs.known[k], k, n);
      }
      MarkerStays(fs, hot, k, n);
    }
  }

  lemma MarkerStays(fs: Files, hot: Path, k: string, n: string)
    ensures Cache.Marker(hot, n) in Without(fs, Cache.Marker(hot, k)) <==> Cache.Marker(hot, n) in fs && n != k
  {
    if n != k {
      Cache.MarkersApart(hot, k, n);
    }
  }

  lemma NameWithout(fs: Files, hot: Path, spec: CacheSpec, k: string, n: string)
    requires Cache.Fits(hot, spec)
    ensures var rest := Without(Without(fs, Cache.Payload(hot, spec)), Cache.Marker(hot, k));
            Cache.Marker(hot, n) in rest <==> Cache.Marker(hot, n) in fs && n != k
  {
    Cache.MarkerOff(hot, spec, n);
    MarkerStays(Without(fs, Cache.Payload(hot, spec)), hot, k, n);
  }

  lemma NameIsMarker(fs: Files, hot: Path, n: string)
    ensures n in Names(fs, hot) <==> Cache.Marker(hot, n) in fs
  {
    var m := Cache.Marker(hot, n);
    assert Cache.Area(hot) < m && |m| == |hot| + 2 && m[|hot| + 1] == n;
    forall p | p in fs && Cache.Area(hot) < p && |p| == |hot| + 2 && p[|hot| + 1] == n ensures p == m {
      assert p == p[..|hot| + 1] + [p[|hot| + 1]] && p[..|hot| + 1] == Cache.Area(hot);
    }
  }

  lemma {:induction false} EvictAllNames(fs: Files, hot: Path, specs: Cache.Specs, names: seq<string>)
    requires Cache.Catalogue(hot, specs) && Cache.Inv(fs, hot, specs) && forall n :: n in names ==> Proper(n)
    ensures forall n :: n in Names(EvictAll(fs, hot, names), hot) <==> n in Names(fs, hot) && n !in names
    decreases |names|
  {
    if names != [] {
      var front, last := names[..|names| - 1], names[|names| - 1];
      assert last in names && names == front + [last];
      EvictAllNames(fs, hot, specs, front);
      EvictAllKeeps(fs, hot, specs, front);
      EvictedName(EvictAll(fs, hot, front), hot, specs, last);
    }
  }

  /** If a sweep has evicted every candidate, only the preserved marker can remain. */
  lemma OnlyPreservedRemains(
      fs: Files, hot: Path, specs: Cache.Specs, order: seq<Listed>, preserve: Option<string>)
    requires Cache.Catalogue(hot, specs) && Cache.Inv(fs, hot, specs) && Listing(order, Names(fs, hot))
    ensures Names(EvictAll(fs, hot, Candidates(order, preserve)), hot) <= if preserve.Some? then {preserve.value}
                                                                          else {}
  {
    CandidatesAre(order, preserve);
    forall n | n in Candidates(order, preserve) ensures Proper(n) {
      NameIsProper(fs, hot, n);
    }
    EvictAllNames(fs, hot, specs, Candidates(order, preserve));
  }

  // ------------------------------------------------------------------ what sweeping and making space promise

  predicate AtMost(u: Option<Usage>, incoming: int, limit: int) { u.Some? && Sum(u.value.used, incoming) <= limit }

  predicate MoreThan(u: Option<Usage>, incoming: int, limit: int) { u.Some? && Sum(u.value.used, incoming) > limit }

  /** Every measurement after one of the first `n` evictions was above the limit. */
  predicate StillAbove(env: Environment, t: nat, n: nat, incoming: int, limit: int) {
    forall i: nat :: t < i <= t + n ==> MoreThan(env.usage(i), incoming, limit)
  }

  /**
   * Evictions from a list of candidates in order, one measurement after each: they stop at the first
   * measurement at or below the limit, or at one that fails, or when no candidate is left.
   */
  predicate Stopped(
      env: Environment, t: nat, candidates: seq<string>, gone: seq<string>, incoming: int, limit: int, v: Verdict,
      end: Verdict)
  {
    && gone <= candidates
    && (|| (v == Done && gone != [] && StillAbove(env, t, |gone| - 1, incoming, limit)
            && AtMost(env.usage(t + |gone|), incoming, limit))
        || (v == NotMeasured && gone != [] && StillAbove(env, t, |gone| - 1, incoming, limit)
            && env.usage(t + |gone|).None?)
        || (v == end && gone == candidates && StillAbove(env, t, |gone|, incoming, limit)))
  }

  /** A loop that leaves at this candidate has stopped properly. */
  lemma StopsHere(
      env: Environment, t: nat, order: seq<Listed>, preserve: Option<string>, i: nat, gone: seq<string>,
      incoming: int, limit: int, end: Verdict)
    requires i < |order| && gone == Candidates(order[..i + 1], preserve) && gone != []
    requires StillAbove(env, t, |gone| - 1, incoming, limit)
    ensures env.usage(t + |gone|).None? ==>
              Stopped(env, t, Candidates(order, preserve), gone, incoming, limit, NotMeasured, end)
    ensures AtMost(env.usage(t + |gone|), incoming, limit) ==>
              Stopped(env, t, Candidates(order, preserve), gone, incoming, limit, Done, end)
    ensures MoreThan(env.usage(t + |gone|), incoming, limit) ==> StillAbove(env, t, |gone|, incoming, limit)
  {
    CandidatesPrefix(order, preserve, i + 1);
  }

  /** sweep: nothing up to 80 percent; otherwise oldest first, never the preserved marker, down to 65 percent. */
  ghost predicate Swept(
      env: Environment, t: nat, names: set<string>, preserve: Option<string>, order: seq<Listed>, gone: seq<string>,
      v: Verdict)
  {
    match env.usage(t)
    case None => v == NotMeasured && gone == []
    case Some(u) =>
      if u.used <= Percent(u.capacity, 80) then v == Done && gone == []
      else
        || (v == NotListed && gone == [])
        || (&& Listing(order, names)
            && Stopped(env, t, Candidates(order, preserve), gone, 0, Percent(u.capacity, 65), v, Done))
  }

  /**
   * makeSpace: nothing if there is room or the artifact alone is too large; otherwise oldest first until there is
   * room.
   */
  ghost predicate SpaceMade(
      env: Environment, t: nat, names: set<string>, incoming: int, order: seq<Listed>, gone: seq<string>, v: Verdict)
  {
    match env.usage(t)
    case None => v == NotMeasured && gone == []
    case Some(u) =>
      if incoming > Percent(u.capacity, 95) then v == TooLarge && gone == []
      else if Sum(u.used, incoming) <= Percent(u.capacity, 95) then v == Done && gone == []
      else
        || (v == NotListed && gone == [])
        || (&& Listing(order, names)
            && Stopped(env, t, Candidates(order, None), gone, incoming, Percent(u.capacity, 95), v, Insufficient))
  }

  /**
   * Success of makeSpace in plain numbers, for capacities and sums that fit 64 bits: the last measurement
   * plus the incoming bytes is at most 95 percent of the capacity, rounded down.
   */
  lemma SpaceIsThere(
      env: Environment, t: nat, names: set<string>, incoming: int, order: seq<Listed>, gone: seq<string>)
    requires SpaceMade(env, t, names, incoming, order, gone, Done) && 0 <= incoming
    ensures env.usage(t).Some? && env.usage(t + |gone|).Some?
    ensures var capacity, last := env.usage(t).value.capacity, env.usage(t + |gone|).value.used;
            0 <= capacity <= MAX_INT64 / 95 && 0 <= last && last + incoming <= MAX_INT64 ==>
              last + incoming <= 95 * capacity / 100
  {
    var capacity, last := env.usage(t).value.capacity, env.usage(t + |gone|).value.used;
    if 0 <= capacity <= MAX_INT64 / 95 && 0 <= last && last + incoming <= MAX_INT64 {
      PercentExact(capacity, 95);
      SumExact(last, incoming);
      assert capacity * 95 == 95 * capacity;
    }
  }

  /** Failure for want of capacity comes only after every marker has been evicted. */
  lemma InsufficientMeansAll(
      env: Environment, t: nat, names: set<string>, incoming: int, order: seq<Listed>, gone: seq<string>)
    requires SpaceMade(env, t, names, incoming, order, gone, Insufficient)
    ensures forall n :: n in names ==> n in gone
  {
    CandidatesAre(order, None);
  }

  /** A sweep evicts oldest first: a marker that could have gone and stayed is no older than any that went. */
  lemma SweptOldestFirst(
      env: Environment, t: nat, names: set<string>, preserve: Option<string>, order: seq<Listed>, gone: seq<string>,
          v: Verdict,
      a: nat, b: nat)
    requires Swept(env, t, names, preserve, order, gone, v) && gone != []
    requires a < |order| && b < |order| && order[a].name in gone
    requires order[b].name !in gone && Some(order[b].name) != preserve
    ensures Some(order[a].name) != preserve && !Before(order[b], order[a])
  {
    CandidatesAre(order, preserve);
    assert order[a].name in Candidates(order, preserve);
    if b < a {
      SkippedIsPreserved(order, preserve, gone, b, a);
    }
  }

  /** The candidates before an evicted one have been evicted. */
  lemma SkippedIsPreserved(order: seq<Listed>, preserve: Option<string>, gone: seq<string>, b: nat, a: nat)
    requires b < a < |order| && Distinct(NamesOf(order)) && gone <= Candidates(order, preserve)
    requires order[a].name in gone && Some(order[b].name) != preserve
    ensures order[b].name in gone
  {
    var before := Candidates(order[..a], preserve);
    CandidatesAre(order[..a], preserve);
    assert NamesOf(order[..a])[b] == order[b].name;
    assert order[b].name in before;
    assert order[a].name !in before by {
      forall i | 0 <= i < a ensures NamesOf(order[..a])[i] != order[a].name {
        assert NamesOf(order)[i] != NamesOf(order)[a];
      }
    }
    CandidatesPrefix(order, preserve, a);
    assert |before| < |gone| by {
      var i :| 0 <= i < |gone| && gone[i] == order[a].name;
      assert Candidates(order, preserve)[i] == gone[i];
      if i < |before| {
        assert before[i] == gone[i];
      }
    }
    assert before == Candidates(order, preserve)[..|before|] == gone[..|before|];
  }

  // ------------------------------------------------------------------ the listing

  lemma {:induction false} CountAtMostOnce(s: seq<Listed>, e: Listed)
    requires Distinct(NamesOf(s))
    ensures multiset(s)[e] <= 1
    decreases |s|
  {
    if s != [] {
      var front, last := s[..|s| - 1], s[|s| - 1];
      assert s == front + [last];
      forall i, j | 0 <= i < j < |front| ensures NamesOf(front)[i] != NamesOf(front)[j] {
        assert NamesOf(s)[i] != NamesOf(s)[j];
      }
      CountAtMostOnce(front, e);
      assert forall i :: 0 <= i < |front| ==> front[i].name == NamesOf(s)[i] != NamesOf(s)[|s| - 1] == last.name;
      assert last !in front;
    }
  }

  lemma CountTwice(s: seq<Listed>, i: nat, j: nat)
    requires i < j < |s| && s[i] == s[j]
    ensures multiset(s)[s[i]] >= 2
  {
    assert s == s[..j] + s[j..];
    assert s[i] in s[..j] && s[j] in s[j..];
  }

  /** Reordering keeps the names, each once. */
  lemma ReorderedNames(entries: seq<Listed>, sorted: seq<Listed>)
    requires multiset(sorted) == multiset(entries) && Distinct(NamesOf(entries))
    ensures Distinct(NamesOf(sorted)) && forall n :: n in NamesOf(sorted) <==> n in NamesOf(entries)
  {
    forall n ensures n in NamesOf(sorted) <==> n in NamesOf(entries) {
      if n in NamesOf(entries) {
        SameNames(entries, sorted, n);
      }
      if n in NamesOf(sorted) {
        SameNames(sorted, entries, n);
      }
    }
    forall i, j | 0 <= i < j < |sorted| ensures NamesOf(sorted)[i] != NamesOf(sorted)[j] {
      if sorted[i] == sorted[j] {
        CountTwice(sorted, i, j);
        CountAtMostOnce(entries, sorted[i]);
      } else {
        var a := PlaceIn(sorted, entries, i);
        var b := PlaceIn(sorted, entries, j);
        assert NamesOf(entries)[a] == sorted[i].name && NamesOf(entries)[b] == sorted[j].name && a != b;
      }
    }
  }

  lemma PlaceIn(s: seq<Listed>, t: seq<Listed>, i: nat) returns (j: nat)
    requires multiset(s) == multiset(t) && i < |s|
    ensures j < |t| && t[j] == s[i]
  {
    assert s[i] in multiset(s);
    assert s[i] in t;
    j :| 0 <= j < |t| && t[j] == s[i];
  }

  lemma SameNames(s: seq<Listed>, t: seq<Listed>, n: string)
    requires multiset(s) == multiset(t) && n in NamesOf(s)
    ensures n in NamesOf(t)
  {
    var i :| 0 <= i < |NamesOf(s)| && NamesOf(s)[i] == n;
    var j := PlaceIn(s, t, i);
    assert NamesOf(t)[j] == n;
  }

  // ------------------------------------------------------------------ what every operation keeps

  /** The request is for an artifact of the catalogue, and hot cache and cold storage are sound. */
  ghost predicate Entitled(fs: Files, site: ColdStore.Site, request: CacheSpec) {
    ColdStore.Planned(site) && ColdStore.Sound(fs, site) && ColdStore.Known(site, request)
  }

  predicate Marked(fs: Files, hot: Path, key: string) { Cache.Marker(hot, key) + [Archive.COMPLETE] in fs }

  /** Everything is still sound, and every complete marker that was not evicted is still there. */
  ghost predicate Kept(fs: Files, next: Files, site: ColdStore.Site, gone: seq<string>) {
    ColdStore.Sound(next, site) && forall l :: Marked(fs, site.hot, l) && l !in gone ==> Marked(next, site.hot, l)
  }

  lemma KeptTrans(a: Files, b: Files, c: Files, site: ColdStore.Site, g: seq<string>, h: seq<string>)
    requires Kept(a, b, site, g) && Kept(b, c, site, h)
    ensures Kept(a, c, site, g + h)
  {
  }

  lemma {:induction false} EvictAllSound(fs: Files, site: ColdStore.Site, names: seq<string>)
    requires ColdStore.Planned(site) && ColdStore.Sound(fs, site) && forall n :: n in names ==> Proper(n)
    ensures Kept(fs, EvictAll(fs, site.hot, names), site, names)
    ensures forall l :: l in site.specs.known && l !in names && Cache.Installed(fs, site.hot, site.specs.known[l]) ==>
              Cache.Installed(EvictAll(fs, site.hot, names), site.hot, site.specs.known[l])
    decreases |names|
  {
    if names != [] {
      var front, last := names[..|names| - 1], names[|names| - 1];
      assert last in names && forall n :: n in front ==> n in names;
      EvictAllSound(fs, site, front);
      ColdStore.EvictKeeps(EvictAll(fs, site.hot, front), site, last);
    }
  }

  lemma EvictedAreMarkers(fs: Files, hot: Path, order: seq<Listed>, preserve: Option<string>, gone: seq<string>)
    requires Tree(fs) && Listing(order, Names(fs, hot)) && gone <= Candidates(order, preserve)
    ensures forall n :: n in gone ==> Proper(n) && Some(n) != preserve
  {
    CandidatesAre(order, preserve);
    forall n | n in gone ensures Proper(n) && Some(n) != preserve {
      assert n in Candidates(order, preserve);
      NameIsProper(fs, hot, n);
    }
  }

  lemma SweptKeeps(
      env: Environment, t: nat, fs: Files, site: ColdStore.Site, preserve: Option<string>,
      order: seq<Listed>, gone: seq<string>, v: Verdict)
    requires ColdStore.Planned(site) && ColdStore.Sound(fs, site)
    requires Swept(env, t, Names(fs, site.hot), preserve, order, gone, v)
    ensures Kept(fs, EvictAll(fs, site.hot, gone), site, gone)
    ensures forall p :: p in EvictAll(fs, site.hot, gone) ==> p in fs
    ensures forall n :: n in gone ==> Some(n) != preserve
    ensures forall l :: l in site.specs.known && l !in gone && Cache.Installed(fs, site.hot, site.specs.known[l]) ==>
              Cache.Installed(EvictAll(fs, site.hot, gone), site.hot, site.specs.known[l])
  {
    if gone != [] {
      EvictedAreMarkers(fs, site.hot, order, preserve, gone);
    }
    EvictAllSound(fs, site, gone);
    EvictAllKeeps(fs, site.hot, site.specs, gone);
  }

  lemma SpaceKeeps(
      env: Environment, t: nat, fs: Files, site: ColdStore.Site, incoming: int, order: seq<Listed>, gone: seq<string>,
      v: Verdict)
    requires ColdStore.Planned(site) && ColdStore.Sound(fs, site)
    requires SpaceMade(env, t, Names(fs, site.hot), incoming, order, gone, v)
    ensures Kept(fs, EvictAll(fs, site.hot, gone), site, gone)
    ensures forall p :: p in EvictAll(fs, site.hot, gone) ==> p in fs
  {
    if gone != [] {
      EvictedAreMarkers(fs, site.hot, order, None, gone);
    }
    EvictAllSound(fs, site, gone);
    EvictAllKeeps(fs, site.hot, site.specs, gone);
  }

  /** A complete marker outside the legacy keys has its payload installed. */
  lemma MarkedIsInstalled(fs: Files, site: ColdStore.Site, request: CacheSpec)
    requires Entitled(fs, site, request) && Marked(fs, site.hot, Cache.KeyOf(request))
    ensures Cache.KeyOf(request) in site.specs.legacy
        || Cache.Installed(fs, site.hot, site.specs.known[Cache.KeyOf(request)])
  {
    assert Cache.MarkerSound(fs, site.hot, site.specs, Cache.KeyOf(request));
  }

  /** The repair of a complete marker keeps everything, and installs the artifact when it succeeds. */
  lemma RevivedKeeps(fs: Files, o: Outcome, site: ColdStore.Site, request: CacheSpec)
    requires Entitled(fs, site, request) && Marked(fs, site.hot, Cache.KeyOf(request))
    requires !Cache.HotArtifactExists(fs, site.hot, request) && o == Repair.RepairHot(fs, site.hot, request)
    ensures Kept(fs, o.fs, site, []) && Marked(o.fs, site.hot, Cache.KeyOf(request))
    ensures o.ok ==> Cache.Installed(o.fs, site.hot, site.specs.known[Cache.KeyOf(request)])
  {
    Revival.RepairKeeps(fs, site, request);
  }

  /** What is installed for the catalogued artifact is there for the request. */
  lemma InstalledIsThere(fs: Files, site: ColdStore.Site, request: CacheSpec)
    requires Entitled(fs, site, request) && Cache.Installed(fs, site.hot, site.specs.known[Cache.KeyOf(request)])
    ensures Cache.HotArtifactExists(fs, site.hot, request)
  {
    var known := site.specs.known[Cache.KeyOf(request)];
    assert Cache.Fits(site.hot, known);
    Cache.InstalledExists(fs, site.hot, known);
    ColdStore.KnownFits(site, request);
  }

  /** Archiving a marked artifact that is installed keeps everything, and leaves a manifest that will be found. */
  lemma ArchivedKeeps(
      fs: Files, o: Outcome, site: ColdStore.Site, request: CacheSpec, temp: string, items: seq<Item>)
    requires Entitled(fs, site, request) && request.kind == CacheKeys.FILES
    requires Cache.Installed(fs, site.hot, site.specs.known[Cache.KeyOf(request)])
    requires Proper(temp) && temp != Cache.KeyOf(request) && ColdStore.Artifact(site.cold, temp) !in fs
    requires o ==
             RoundTrip.ArchiveHot(fs, request, site.hot, ColdStore.Artifact(site.cold, Cache.KeyOf(request)), temp,
                 items)
    requires Disks.Inventoried(fs, request, site.hot, ColdStore.Artifact(site.cold, Cache.KeyOf(request)), temp, items)
    ensures o.ok && Kept(fs, o.fs, site, [])
    ensures request.files != [] ==>
              RoundTrip.ManifestFor(o.fs, ColdStore.Artifact(site.cold, Cache.KeyOf(request)), request).Some?
  {
    var dir := ColdStore.Artifact(site.cold, Cache.KeyOf(request));
    ColdStore.CopyWorks(fs, site, request, temp);
    assert Dir(dir) + [temp] + [Archive.PAYLOAD] == Dir(dir) + [temp, Archive.PAYLOAD];
    ColdStore.ArchiveKeeps(fs, site, request, temp, items);
  }

  /** Filling the payload a resolved request speaks of fills the payload of the catalogued artifact. */
  lemma FillsKnown(fs: Files, o: Outcome, site: ColdStore.Site, spec: CacheSpec)
    requires ColdStore.Fills(fs, o, site, spec) && ColdStore.Known(site, spec)
    ensures ColdStore.Fills(fs, o, site, site.specs.known[Cache.KeyOf(spec)])
  {
    var known := site.specs.known[Cache.KeyOf(spec)];
    assert Cache.Payload(site.hot, spec) == Cache.Payload(site.hot, known);
    forall p | p in o.fs && p !in fs ensures Cache.NewPath(o.fs, site.hot, known, p) {
      assert Cache.NewPath(o.fs, site.hot, spec, p);
    }
  }

  /** Filling and marking: the artifact is complete, everything else is kept. */
  lemma FilledAndMarked(fs: Files, o: Outcome, site: ColdStore.Site, spec: CacheSpec)
    requires Entitled(fs, site, spec) && !Marked(fs, site.hot, Cache.KeyOf(spec)) && ColdStore.Fills(fs, o, site, spec)
    ensures Kept(fs, o.fs, site, [])
    ensures o.ok ==> Kept(fs, Cache.Mark(o.fs, site.hot, spec).fs, site, [])
    ensures o.ok && Cache.Mark(o.fs, site.hot, spec).ok ==>
              Marked(Cache.Mark(o.fs, site.hot, spec).fs, site.hot, Cache.KeyOf(spec))
    ensures o.ok ==> Cache.Installed(Cache.Mark(o.fs, site.hot, spec).fs, site.hot, site.specs.known[Cache.KeyOf(spec)])
  {
    FillsKnown(fs, o, site, spec);
    ColdStore.FillKeeps(fs, o, site, Cache.KeyOf(spec));
    if o.ok {
      ColdStore.MarkKeeps(o.fs, site, spec);
    }
  }

  // ------------------------------------------------------------------ runs of operations

  datatype Operation =
    | EnsureArtifact(request: CacheSpec)
    | SweepFor(request: CacheSpec)
    | ArchiveArtifact(request: CacheSpec)

  /** Artifacts that may lie as an earlier release left them are not archived. */
  predicate Archives(o: Operation, site: ColdStore.Site) {
    o.ArchiveArtifact? ==> Cache.KeyOf(o.request) !in site.specs.legacy
  }

  /** An answered ensure request: its key, the state reported, and the evictions counted at its start and end. */
  datatype Reply = Reply(key: string, state: Option<Cache.State>, start: nat, end: nat)

  predicate InOrder(replies: seq<Reply>, n: nat) {
    forall i :: 0 <= i < |replies| ==> replies[i].start <= replies[i].end <= n
  }

  /** Every artifact that was ensured is marked complete, unless it has been evicted since. */
  predicate Remembered(replies: seq<Reply>, fs: Files, hot: Path, evicted: seq<string>)
    requires InOrder(replies, |evicted|)
  {
    forall i :: 0 <= i < |replies| && replies[i].state.Some? && replies[i].key !in evicted[replies[i].end..] ==>
      Marked(fs, hot, replies[i].key)
  }

  /** A later reply for an artifact that was ensured before and not evicted in between is hot. */
  predicate HotAgain(replies: seq<Reply>, evicted: seq<string>)
    requires InOrder(replies, |evicted|)
  {
    forall i, j :: 0 <= i < j < |replies| && Follows(replies[i], replies[j], evicted) ==>
        replies[j].state == Some(Cache.Hot)
  }

  predicate Follows(first: Reply, next: Reply, evicted: seq<string>)
    requires first.end <= |evicted| && next.start <= |evicted|
  {
    && first.state.Some? && next.state.Some? && first.key == next.key && first.end <= next.start
    && first.key !in evicted[first.end..next.start]
  }

  lemma RememberedStep(
      replies: seq<Reply>, fs: Files, next: Files, site: ColdStore.Site, log: seq<string>, evicted: seq<string>)
    requires InOrder(replies, |log|) && log <= evicted && Remembered(replies, fs, site.hot, log)
    requires Kept(fs, next, site, evicted[|log|..])
    ensures InOrder(replies, |evicted|) && Remembered(replies, next, site.hot, evicted)
  {
    forall i | 0 <= i < |replies| && replies[i].state.Some? && replies[i].key !in evicted[replies[i].end..]
      ensures Marked(next, site.hot, replies[i].key)
    {
      var e := replies[i].end;
      assert evicted[e..] == log[e..] + evicted[|log|..];
    }
  }

  lemma HotAgainStep(replies: seq<Reply>, log: seq<string>, evicted: seq<string>)
    requires InOrder(replies, |log|) && log <= evicted && HotAgain(replies, log)
    ensures InOrder(replies, |evicted|) && HotAgain(replies, evicted)
  {
    forall i, j | 0 <= i < j < |replies| && Follows(replies[i], replies[j], evicted)
      ensures replies[j].state == Some(Cache.Hot)
    {
      assert evicted[replies[i].end..replies[j].start] == log[replies[i].end..replies[j].start];
      assert Follows(replies[i], replies[j], log);
    }
  }

  /** One more answered ensure request. */
  lemma ReplyStep(
      replies: seq<Reply>, fs: Files, next: Files, site: ColdStore.Site, log: seq<string>, evicted: seq<string>,
      request: CacheSpec, state: Option<Cache.State>)
    requires InOrder(replies, |log|) && log <= evicted && Remembered(replies, fs, site.hot, log)
    requires HotAgain(replies, log)
    requires Entitled(fs, site, request) && Kept(fs, next, site, evicted[|log|..])
    requires state.Some? ==> Marked(next, site.hot, Cache.KeyOf(request))
    requires state.Some? ==> state.value == Cache.CacheResult(fs, site.hot, site.cold, request)
    ensures var all := replies + [Reply(Cache.KeyOf(request), state, |log|, |evicted|)];
            InOrder(all, |evicted|) && Remembered(all, next, site.hot, evicted) && HotAgain(all, evicted)
  {
    var k := Cache.KeyOf(request);
    var last := Reply(k, state, |log|, |evicted|);
    var all := replies + [last];
    RememberedStep(replies, fs, next, site, log, evicted);
    HotAgainStep(replies, log, evicted);
    forall i, j | 0 <= i < j < |all| && Follows(all[i], all[j], evicted) ensures all[j].state == Some(Cache.Hot) {
      if j < |replies| {
        assert Follows(replies[i], replies[j], evicted);
      } else {
        AnsweredHot(replies[i], last, replies, fs, site, log, evicted, request);
      }
    }
  }

  /** What was ensured, not evicted since and asked for again is answered hot. */
  lemma AnsweredHot(
      first: Reply, last: Reply, replies: seq<Reply>, fs: Files, site: ColdStore.Site, log: seq<string>,
      evicted: seq<string>, request: CacheSpec)
    requires InOrder(replies, |log|) && log <= evicted && Remembered(replies, fs, site.hot, log) && first in replies
    requires last.start == |log| && last.key == Cache.KeyOf(request) && Follows(first, last, evicted)
    requires Entitled(fs, site, request) && last.state == Some(Cache.CacheResult(fs, site.hot, site.cold, request))
    ensures last.state == Some(Cache.Hot)
  {
    assert evicted[first.end..|log|] == log[first.end..];
    assert Marked(fs, site.hot, first.key);
    MarkedIsHot(fs, site, request);
  }

  lemma MarkedIsComplete(fs: Files, site: ColdStore.Site, request: CacheSpec)
    requires Entitled(fs, site, request)
    ensures Marked(fs, site.hot, Cache.KeyOf(request)) <==>
              Cache.Complete(fs, Cache.Marker(site.hot, Cache.KeyOf(request)))
  {
    assert Cache.Fits(site.hot, site.specs.known[Cache.KeyOf(request)]);
    Cache.CompleteIff(fs, site.hot, site.specs, Cache.KeyOf(request));
  }

  lemma MarkedIsHot(fs: Files, site: ColdStore.Site, request: CacheSpec)
    requires Entitled(fs, site, request) && Marked(fs, site.hot, Cache.KeyOf(request))
    ensures Cache.CacheResult(fs, site.hot, site.cold, request) == Cache.Hot
  {
    MarkedIsComplete(fs, site, request);
  }

  // ------------------------------------------------------------------ the manager

  class CacheManager {
    const hot: Path
    const cold: Path
    const env: Environment
    var fs: Files
    var measured: nat
    var asked: nat
    var sweeps: nat
    var evictions: nat
    /** The markers evicted so far, in order. */
    var evicted: seq<string>

    constructor (hot: Path, cold: Path, env: Environment, fs: Files)
      ensures this.hot == hot && this.cold == cold && this.env == env && this.fs == fs
      ensures measured == asked == sweeps == evictions == 0 && evicted == []
    {
      this.hot, this.cold, this.env, this.fs := hot, cold, env, fs;
      measured, asked, sweeps, evictions, evicted := 0, 0, 0, 0, [];
    }

    /** The manager works on this site, and its downloads keep their contracts. */
    ghost predicate Serves(site: ColdStore.Site) {
      && site.hot == hot && site.cold == cold
      && Download.Fetches(env.fetch, site) && ColdStore.BringsIn(env.hub, site)
    }

    /** cacheUsage. */
    method Measure() returns (u: Option<Usage>)
      modifies this`measured
      ensures u == env.usage(old(measured)) && measured == old(measured) + 1
    {
      u := env.usage(measured);
      measured := measured + 1;
    }

    /** os.ReadDir of the marker directory, and the sort. */
    method ListMarkers() returns (ok: bool, order: seq<Listed>)
      modifies this`asked
      ensures ok ==> Listing(order, Names(fs, hot))
    {
      ok := env.listable(asked);
      var names := Names(fs, hot);
      var entries: seq<Listed> := [];
      var rest := names;
      while rest != {}
        invariant rest <= names && Distinct(NamesOf(entries))
        invariant forall n :: n in NamesOf(entries) <==> n in names && n !in rest
        decreases rest
      {
        var n :| n in rest;
        var longer := entries + [Listed(n, env.modified(asked, n))];
        assert NamesOf(longer) == NamesOf(entries) + [n];
        entries, rest := longer, rest - {n};
      }
      asked := asked + 1;
      order := SortByAge(entries);
      ReorderedNames(entries, order);
    }

    /** evict. */
    method Evict(key: string)
      modifies this`fs, this`evicted, this`evictions
      ensures fs == Cache.Evict(old(fs), hot, key)
      ensures evicted == old(evicted) + [key] && evictions == old(evictions) + 1
    {
      fs := Cache.Evict(fs, hot, key);
      evicted := evicted + [key];
      evictions := evictions + 1;
    }

    /** Where a sequence of evictions, begun in the given state, has brought the object. */
    ghost predicate Trail(origin: Files, log: seq<string>, count: nat, gone: seq<string>)
      reads this`fs, this`evicted, this`evictions
    {
      fs == EvictAll(origin, hot, gone) && evicted == log + gone && evictions == count + |gone|
    }

    /** One eviction and the measurement after it. */
    method EvictNext(
        key: string, ghost origin: Files, ghost log: seq<string>, ghost count: nat, ghost gone: seq<string>)
      returns (u: Option<Usage>)
      requires Trail(origin, log, count, gone)
      modifies this`fs, this`evicted, this`evictions, this`measured
      ensures Trail(origin, log, count, gone + [key])
      ensures u == env.usage(old(measured)) && measured == old(measured) + 1
    {
      assert (gone + [key])[..|gone|] == gone;
      assert log + gone + [key] == log + (gone + [key]);
      Evict(key);
      u := Measure();
    }

    /** The loop that sweep and makeSpace share: evict in order, measure, and stop once the limit is met. */
    method EvictUntil(entries: seq<Listed>, preserve: Option<string>, incoming: int, limit: int, exhausted: Verdict)
      returns (v: Verdict, gone: seq<string>)
      requires measured > 0
      modifies this`fs, this`evicted, this`evictions, this`measured
      ensures Stopped(env, old(measured) - 1, Candidates(entries, preserve), gone, incoming, limit, v, exhausted)
      ensures Trail(old(fs), old(evicted), old(evictions), gone)
    {
      ghost var t, origin, log, count := measured - 1, fs, evicted, evictions;
      gone := [];
      assert entries[..0] == [];
      for i := 0 to |entries|
        invariant Trail(origin, log, count, gone) && measured == t + 1 + |gone|
        invariant gone == Candidates(entries[..i], preserve)
        invariant StillAbove(env, t, |gone|, incoming, limit)
      {
        CandidatesStep(entries, preserve, i);
        if Some(entries[i].name) != preserve {
          var u := EvictNext(entries[i].name, origin, log, count, gone);
          gone := gone + [entries[i].name];
          StopsHere(env, t, entries, preserve, i, gone, incoming, limit, exhausted);
          if u.None? {
            return NotMeasured, gone;
          }
          if Sum(u.value.used, incoming) <= limit {
            return Done, gone;
          }
        }
      }
      assert entries[..|entries|] == entries;
      v := exhausted;
    }

    /** sweep. */
    method Sweep(preserve: Option<string>) returns (v: Verdict, gone: seq<string>, ghost order: seq<Listed>)
      modifies this
      ensures Swept(env, old(measured), Names(old(fs), hot), preserve, order, gone, v)
      ensures Trail(old(fs), old(evicted), old(evictions), gone) && sweeps == old(sweeps) + 1
    {
      gone, order := [], [];
      sweeps := sweeps + 1;
      var first := Measure();
      if first.None? {
        return NotMeasured, gone, order;
      }
      if first.value.used <= Percent(first.value.capacity, 80) {
        return Done, gone, order;
      }
      var listed, entries := ListMarkers();
      if !listed {
        return NotListed, gone, order;
      }
      order := entries;
      v, gone := EvictUntil(entries, preserve, 0, Percent(first.value.capacity, 65), Done);
    }

    /** makeSpace. */
    method MakeSpace(incoming: int) returns (v: Verdict, gone: seq<string>, ghost order: seq<Listed>)
      modifies this
      ensures SpaceMade(env, old(measured), Names(old(fs), hot), incoming, order, gone, v)
      ensures Trail(old(fs), old(evicted), old(evictions), gone) && sweeps == old(sweeps)
    {
      gone, order := [], [];
      var first := Measure();
      if first.None? {
        return NotMeasured, gone, order;
      }
      var limit := Percent(first.value.capacity, 95);
      if incoming > limit {
        return TooLarge, gone, order;
      }
      if Sum(first.value.used, incoming) <= limit {
        return Done, gone, order;
      }
      var listed, entries := ListMarkers();
      if !listed {
        return NotListed, gone, order;
      }
      order := entries;
      v, gone := EvictUntil(entries, None, incoming, limit, Insufficient);
    }

    /** Clears and fills the payload: from a cold artifact with a fitting manifest, or by a download. */
    method Fill(spec: CacheSpec, ghost site: ColdStore.Site) returns (ok: bool)
      modifies this`fs, this`asked
      ensures Serves(site) && Entitled(old(fs), site, spec) ==> ColdStore.Fills(old(fs), Outcome(ok, fs), site, spec)
    {
      var artifact := ColdStore.Artifact(cold, Cache.KeyOf(spec));
      var manifest := RoundTrip.ManifestFor(fs, artifact, spec);
      if spec.kind != CacheKeys.FILES {
        ok := BringIn(spec, site);
      } else if manifest.None? {
        ok := DownloadToHot(spec, site);
      } else {
        var disk := new Disks.Disk(fs);
        ok := disk.Promote(artifact, hot, spec.target, manifest.value);
        if Serves(site) && Entitled(fs, site, spec) {
          ColdStore.PromoteFills(fs, site, spec, manifest.value);
        }
        fs := disk.fs;
      }
    }

    /** The promotion or download of a hub artifact. */
    method BringIn(spec: CacheSpec, ghost site: ColdStore.Site) returns (ok: bool)
      modifies this`fs, this`asked
      ensures Serves(site) && Entitled(old(fs), site, spec) && spec.kind != CacheKeys.FILES ==>
                ColdStore.Fills(old(fs), Outcome(ok, fs), site, spec)
    {
      if Serves(site) && Entitled(fs, site, spec) && spec.kind != CacheKeys.FILES {
        ColdStore.KnownFits(site, spec);
        ColdStore.HubFills(fs, site, spec, env.hub, asked);
      }
      var o := env.hub(asked, RemoveAll(fs, Cache.Payload(hot, spec)), spec);
      asked := asked + 1;
      fs, ok := o.fs, o.ok;
    }

    /** clearMaterialized and downloadToHot of a file artifact. */
    method DownloadToHot(spec: CacheSpec, ghost site: ColdStore.Site) returns (ok: bool)
      modifies this`fs, this`asked
      ensures Serves(site) && Entitled(old(fs), site, spec) && spec.kind == CacheKeys.FILES ==>
                ColdStore.Fills(old(fs), Outcome(ok, fs), site, spec)
    {
      var n, suffix := asked, env.suffix(asked);
      var staging := hot + [Download.STAGING + suffix];
      asked := asked + 1;
      if !Proper(Download.STAGING + suffix) {
        if Serves(site) && Entitled(fs, site, spec) {
          Download.OnlyCleared(fs, site, spec);
        }
        fs, ok := RemoveAll(fs, Cache.Payload(hot, spec)), false;
        return;
      }
      if Serves(site) && Entitled(fs, site, spec) && spec.kind == CacheKeys.FILES {
        Download.DownloadFills(fs, site, spec, suffix, env.fetch, n);
      }
      var disk := new Disks.Disk(RemoveAll(fs, Cache.Payload(hot, spec)));
      ok := disk.DownloadFiles(hot, spec, Download.STAGING + suffix, cur => env.fetch(n, cur, spec, staging));
      fs := disk.fs;
    }

    /** What an operation on a catalogued artifact leaves: everything sound, with every marker it did not evict. */
    ghost predicate Granted(before: Files, log: seq<string>, site: ColdStore.Site, key: string, ok: bool)
      reads this`fs, this`evicted
    {
      && log <= evicted && Kept(before, fs, site, evicted[|log|..])
      && (ok ==> Marked(fs, hot, key))
    }

    /**
     * repairHotMaterialization of an artifact whose marker is complete but whose files are not all served.
     * Success makes the artifact exist exactly when the retained blobs lead to places below gguf.
     */
    method Revive(request: CacheSpec) returns (ok: bool)
      modifies this`fs
      ensures Outcome(ok, fs) == Repair.RepairHot(old(fs), hot, request)
      ensures ok && Repair.Repairable(old(fs), hot, request) ==>
                (Cache.HotArtifactExists(fs, hot, request) <==>
                 forall f :: f in request.files ==>
                   Repair.StaysBelow(Repair.Repaired(old(fs), hot, request), hot,
                       Repair.BlobName(old(fs), hot + request.target + f)))
      ensures ok && Repair.Repairable(old(fs), hot, request) && Repair.RegularStore(old(fs), hot) ==>
                Cache.HotArtifactExists(fs, hot, request)
    {
      var o := Repair.RepairHot(fs, hot, request);
      if o.ok && Repair.Repairable(fs, hot, request) {
        Cache.KindsAreTwo();
        Repair.RepairServesIff(fs, hot, request);
        if Repair.RegularStore(fs, hot) {
          Repair.RepairServes(fs, hot, request);
        }
      }
      fs, ok := o.fs, o.ok;
    }

    /** A successful ensure leaves the artifact installed, unless it is a legacy one that was served as it was. */
    ghost predicate InPlace(before: Files, site: ColdStore.Site, request: CacheSpec)
      reads this`fs
      requires Cache.KeyOf(request) in site.specs.known
    {
      || Cache.Installed(fs, hot, site.specs.known[Cache.KeyOf(request)])
      || (&& Cache.KeyOf(request) in site.specs.legacy
          && Marked(before, hot, Cache.KeyOf(request)) && Cache.HotArtifactExists(before, hot, request))
    }

    /** The first half of ensureArtifact: the marker is complete. */
    method EnsureHit(request: CacheSpec, ghost site: ColdStore.Site) returns (ok: bool)
      modifies this
      ensures old(evicted) <= evicted
      ensures Serves(site) && Entitled(old(fs), site, request) && Marked(old(fs), hot, Cache.KeyOf(request)) ==>
                && Granted(old(fs), old(evicted), site, Cache.KeyOf(request), ok)
                && (ok ==> InPlace(old(fs), site, request))
      ensures && ok && Repair.Repairable(old(fs), hot, request) && Repair.RegularStore(old(fs), hot)
              && evicted == old(evicted) ==>
                Cache.HotArtifactExists(fs, hot, request)
    {
      var key := Cache.KeyOf(request);
      ghost var entitled := Serves(site) && Entitled(fs, site, request) && Marked(fs, hot, key);
      if entitled {
        MarkedIsInstalled(fs, site, request);
      }
      if !Cache.HotArtifactExists(fs, hot, request) {
        ok := Revive(request);
        if entitled {
          RevivedKeeps(old(fs), Outcome(ok, fs), site, request);
        }
        assert evicted[|old(evicted)|..] == [];
        if !ok {
          return false;
        }
      }
      ghost var before := fs;
      var v, gone := SweepKeeping(Some(key), site);
      ok := v == Done;
      assert evicted[|old(evicted)|..] == gone && [] + gone == gone;
      if entitled {
        KeptTrans(old(fs), before, fs, site, [], gone);
      }
    }

    /** The second half: room is made, the payload filled, the marker written. */
    method EnsureMiss(request: CacheSpec, ghost site: ColdStore.Site) returns (ok: bool)
      modifies this
      ensures old(evicted) <= evicted
      ensures Serves(site) && Entitled(old(fs), site, request) && !Marked(old(fs), hot, Cache.KeyOf(request)) ==>
                && Granted(old(fs), old(evicted), site, Cache.KeyOf(request), ok)
                && (ok ==> InPlace(old(fs), site, request))
    {
      ghost var entitled := Serves(site) && Entitled(fs, site, request) && !Marked(fs, hot, Cache.KeyOf(request));
      assert evicted[|evicted|..] == [];
      var spec := request;
      if spec.kind == CacheKeys.HUB && spec.size <= 0 {
        var found := env.discover(asked, spec);
        asked := asked + 1;
        if found.None? {
          return false;
        }
        spec := spec.(size := found.value.size, files := found.value.files);
      }
      assert Cache.KeyOf(spec) == Cache.KeyOf(request);
      var roomy := Admit(spec.size, site);
      if !roomy {
        return false;
      }
      ok := FillAndMark(spec, site);
      if entitled {
        assert evicted[|old(evicted)|..] + [] == evicted[|old(evicted)|..];
      }
    }

    /** Fills the payload, then writes the marker. */
    method FillAndMark(spec: CacheSpec, ghost site: ColdStore.Site) returns (ok: bool)
      modifies this`fs, this`asked
      ensures Serves(site) && Entitled(old(fs), site, spec) && !Marked(old(fs), hot, Cache.KeyOf(spec)) ==>
                && Kept(old(fs), fs, site, [])
                && (ok ==> Marked(fs, hot, Cache.KeyOf(spec)))
                && (ok ==> Cache.Installed(fs, hot, site.specs.known[Cache.KeyOf(spec)]))
    {
      ghost var entitled := Serves(site) && Entitled(fs, site, spec) && !Marked(fs, hot, Cache.KeyOf(spec));
      ok := Fill(spec, site);
      if entitled {
        FilledAndMarked(old(fs), Outcome(ok, fs), site, spec);
      }
      if ok {
        var m := Cache.Mark(fs, hot, spec);
        fs, ok := m.fs, m.ok;
      }
    }

    /** The sweep and the making of space before a payload is filled. */
    method Admit(incoming: int, ghost site: ColdStore.Site) returns (ok: bool)
      modifies this
      ensures old(evicted) <= evicted
      ensures Serves(site) && ColdStore.Planned(site) && ColdStore.Sound(old(fs), site) ==>
                Kept(old(fs), fs, site, evicted[|old(evicted)|..]) && forall p :: p in fs ==> p in old(fs)
    {
      var v, first := SweepKeeping(None, site);
      assert evicted[|old(evicted)|..] == first;
      if v != Done {
        return false;
      }
      ghost var middle := fs;
      var w, second := SpaceKeeping(incoming, site);
      ok := w == Done;
      assert evicted[|old(evicted)|..] == first + second;
      if Serves(site) && ColdStore.Planned(site) && ColdStore.Sound(old(fs), site) {
        KeptTrans(old(fs), middle, fs, site, first, second);
      }
    }

    /** A sweep of a sound cache keeps it sound, and keeps every marker it does not evict. */
    method SweepKeeping(preserve: Option<string>, ghost site: ColdStore.Site) returns (v: Verdict, gone: seq<string>)
      modifies this
      ensures evicted == old(evicted) + gone && (gone == [] ==> fs == old(fs))
      ensures Serves(site) && ColdStore.Planned(site) && ColdStore.Sound(old(fs), site) ==>
                && Kept(old(fs), fs, site, gone) && (forall p :: p in fs ==> p in old(fs))
                && (forall n :: n in gone ==> Some(n) != preserve)
                && forall l :: l in site.specs.known && l !in gone ==>
                     Cache.Installed(old(fs), hot, site.specs.known[l]) ==>
                         Cache.Installed(fs, hot, site.specs.known[l])
    {
      ghost var order;
      v, gone, order := Sweep(preserve);
      if Serves(site) && ColdStore.Planned(site) && ColdStore.Sound(old(fs), site) {
        SweptKeeps(env, old(measured), old(fs), site, preserve, order, gone, v);
      }
    }

    method SpaceKeeping(incoming: int, ghost site: ColdStore.Site) returns (v: Verdict, gone: seq<string>)
      modifies this
      ensures evicted == old(evicted) + gone
      ensures Serves(site) && ColdStore.Planned(site) && ColdStore.Sound(old(fs), site) ==>
                Kept(old(fs), fs, site, gone) && forall p :: p in fs ==> p in old(fs)
    {
      ghost var order;
      v, gone, order := MakeSpace(incoming);
      if Serves(site) && ColdStore.Planned(site) && ColdStore.Sound(old(fs), site) {
        SpaceKeeps(env, old(measured), old(fs), site, incoming, order, gone, v);
      }
    }

    /** ensureArtifact; the archiving it starts in the background is an operation of its own. */
    method Ensured(request: CacheSpec, ghost site: ColdStore.Site) returns (ok: bool)
      modifies this
      ensures old(evicted) <= evicted
      ensures Serves(site) && Entitled(old(fs), site, request) ==>
                && Granted(old(fs), old(evicted), site, Cache.KeyOf(request), ok)
                && (ok ==> InPlace(old(fs), site, request))
    {
      if Serves(site) && Entitled(fs, site, request) {
        MarkedIsComplete(fs, site, request);
      }
      if Cache.Complete(fs, Cache.Marker(hot, Cache.KeyOf(request))) {
        ok := EnsureHit(request, site);
      } else {
        ok := EnsureMiss(request, site);
      }
    }

    /** The ensure handler: the state is evaluated before the artifact is ensured. */
    method Ensure(request: CacheSpec, ghost site: ColdStore.Site) returns (state: Option<Cache.State>)
      modifies this
      ensures old(evicted) <= evicted
      ensures state.Some? ==> state.value == Cache.CacheResult(old(fs), hot, cold, request)
      ensures Serves(site) && Entitled(old(fs), site, request) ==>
                && Granted(old(fs), old(evicted), site, Cache.KeyOf(request), state.Some?)
                && (state.Some? ==>
                      Cache.CacheResult(fs, hot, cold, request) == Cache.Hot && InPlace(old(fs), site, request))
                && (state.Some? ==>
                      || Cache.HotArtifactExists(fs, hot, request)
                      || (Cache.KeyOf(request) in site.specs.legacy && Cache.HotArtifactExists(old(fs), hot, request)))
    {
      var result := Cache.CacheResult(fs, hot, cold, request);
      var ok := Ensured(request, site);
      state := if ok then Some(result) else None;
      if Serves(site) && Entitled(old(fs), site, request) && ok {
        MarkedIsHot(fs, site, request);
        if Cache.Installed(fs, hot, site.specs.known[Cache.KeyOf(request)]) {
          InstalledIsThere(fs, site, request);
        }
      }
    }

    /** The sweep handler: the requested artifact is preserved. */
    method SweepRequest(request: CacheSpec, ghost site: ColdStore.Site) returns (ok: bool)
      modifies this
      ensures old(evicted) <= evicted
      ensures Serves(site) && Entitled(old(fs), site, request) ==>
                && Granted(old(fs), old(evicted), site, Cache.KeyOf(request), false)
                && (Marked(old(fs), hot, Cache.KeyOf(request)) ==> Marked(fs, hot, Cache.KeyOf(request)))
    {
      var v, gone := SweepKeeping(Some(Cache.KeyOf(request)), site);
      ok := v == Done;
      assert evicted[|old(evicted)|..] == gone;
    }

    /** The background archiving of a complete file artifact, at any later time at which it is still complete. */
    method ArchiveComplete(request: CacheSpec, ghost site: ColdStore.Site) returns (ok: bool)
      modifies this`fs, this`asked
      ensures && Serves(site) && Entitled(old(fs), site, request)
              && (Cache.KeyOf(request) in site.specs.legacy ==>
                    Cache.Installed(old(fs), hot, site.specs.known[Cache.KeyOf(request)])) ==>
                && Kept(old(fs), fs, site, [])
                && (ok && request.files != [] ==>
                      RoundTrip.ManifestFor(fs, ColdStore.Artifact(cold, Cache.KeyOf(request)), request).Some?)
    {
      var key := Cache.KeyOf(request);
      var temp := key + ".staging-" + env.suffix(asked);
      asked := asked + 1;
      if request.kind != CacheKeys.FILES || Cache.Marker(hot, key) + [Archive.COMPLETE] !in fs {
        return false;
      }
      if !Proper(temp) || ColdStore.Artifact(cold, temp) in fs {
        return false;
      }
      ghost var items;
      var disk := new Disks.Disk(fs);
      ok, items := disk.ArchiveHot(request, hot, ColdStore.Artifact(cold, key), temp);
      fs := disk.fs;
      if Serves(site) && Entitled(old(fs), site, request) {
        MarkedIsInstalled(old(fs), site, request);
        if Cache.Installed(old(fs), hot, site.specs.known[key]) {
          assert |temp| > |key|;
          ArchivedKeeps(old(fs), Outcome(ok, fs), site, request, temp, items);
        }
      }
    }

    /**
     * Any sequence of operations on catalogued artifacts, one after the other: hot cache and cold storage stay
     * sound, an artifact that was ensured stays complete until it is evicted, and until then every further
     * ensure request for it that succeeds reports it hot.
     */
    method Serve(operations: seq<Operation>, ghost site: ColdStore.Site) returns (replies: seq<Reply>)
      requires Serves(site) && ColdStore.Planned(site) && ColdStore.Sound(fs, site)
      requires forall o :: o in operations ==> ColdStore.Known(site, o.request) && Archives(o, site)
      modifies this
      ensures ColdStore.Sound(fs, site)
      ensures InOrder(replies, |evicted|) && Remembered(replies, fs, hot, evicted) && HotAgain(replies, evicted)
    {
      replies := [];
      for n := 0 to |operations|
        invariant ColdStore.Sound(fs, site)
        invariant InOrder(replies, |evicted|) && Remembered(replies, fs, hot, evicted) && HotAgain(replies, evicted)
      {
        assert operations[n] in operations;
        replies := Step(operations[n], replies, site);
      }
    }

    /** One operation of a run. */
    method Step(operation: Operation, before: seq<Reply>, ghost site: ColdStore.Site) returns (replies: seq<Reply>)
      requires Serves(site) && Entitled(fs, site, operation.request) && Archives(operation, site)
      requires InOrder(before, |evicted|) && Remembered(before, fs, hot, evicted) && HotAgain(before, evicted)
      modifies this
      ensures ColdStore.Sound(fs, site)
      ensures InOrder(replies, |evicted|) && Remembered(replies, fs, hot, evicted) && HotAgain(replies, evicted)
    {
      var start := |evicted|;
      var request := operation.request;
      match operation
      case EnsureArtifact(_) =>
        var state := Ensure(request, site);
        replies := before + [Reply(Cache.KeyOf(request), state, start, |evicted|)];
        ReplyStep(before, old(fs), fs, site, old(evicted), evicted, request, state);
      case SweepFor(_) =>
        var ok := SweepRequest(request, site);
        replies := before;
        RememberedStep(before, old(fs), fs, site, old(evicted), evicted);
        HotAgainStep(before, old(evicted), evicted);
      case ArchiveArtifact(_) =>
        var ok := ArchiveComplete(request, site);
        replies := before;
        assert evicted[|evicted|..] == [];
        RememberedStep(before, old(fs), fs, site, evicted, evicted);
    }
  }
}
