/**
 * Slash-separated paths as the cache manager computes with them (cmd/llm-proxy/cache_manager.go).
 * An absolute clean path is the sequence of its components; the text forms are needed only where the
 * manager judges text it was given, the materialization target and the cache key.
 */
module Paths {
  type Path = seq<string>

  const UP := ".."

  /** A component that names something: what remains of a path once it is clean. */
  predicate Proper(c: string) { c != "" && c != "." && c != UP && '/' !in c }

  predicate IsPath(p: Path) { forall c :: c in p ==> Proper(c) }

  // ------------------------------------------------------------------ cleaning and relative links

  /** Reads components onto a stack: "" and "." say nothing, ".." drops a name, or stays if there is none. */
  function Follow(rooted: bool, stack: Path, parts: seq<string>): Path
    decreases |parts|
  {
    if parts == [] then stack
    else
      var c, rest := parts[0], parts[1..];
      if c == "" || c == "." then Follow(rooted, stack, rest)
      else if c != UP then Follow(rooted, stack + [c], rest)
      else if stack != [] && stack[|stack| - 1] != UP then Follow(rooted, stack[..|stack| - 1], rest)
      else if rooted then Follow(rooted, stack, rest)
      else Follow(rooted, stack + [UP], rest)
  }

  function Ups(n: nat): (r: seq<string>)
    ensures |r| == n
  {
    if n == 0 then [] else [UP] + Ups(n - 1)
  }

  function Common(a: Path, b: Path): (n: nat)
    ensures n <= |a| && n <= |b| && a[..n] == b[..n]
    ensures n < |a| && n < |b| ==> a[n] != b[n]
  {
    if a == [] || b == [] || a[0] != b[0] then 0 else 1 + Common(a[1..], b[1..])
  }

  /** filepath.Rel of two clean absolute paths; the empty sequence is written ".". */
  function Rel(base: Path, target: Path): seq<string> {
    Ups(|base| - Common(base, target)) + target[Common(base, target)..]
  }

  function Dir(p: Path): Path
    requires p != []
  {
    p[..|p| - 1]
  }

  function Base(p: Path): string
    requires p != []
  {
    p[|p| - 1]
  }

  lemma {:induction false} FollowNames(rooted: bool, stack: Path, names: Path)
    requires IsPath(names)
    ensures Follow(rooted, stack, names) == stack + names
    decreases |names|
  {
    if names == [] {
    } else {
      assert names[0] in names;
      FollowNames(rooted, stack + [names[0]], names[1..]);
      assert stack + [names[0]] + names[1..] == stack + names;
    }
  }

  lemma {:induction false} FollowConcat(rooted: bool, stack: Path, a: seq<string>, b: seq<string>)
    ensures Follow(rooted, stack, a + b) == Follow(rooted, Follow(rooted, stack, a), b)
    decreases |a|
  {
    if a == [] {
      assert a + b == b;
    } else {
      assert (a + b)[1..] == a[1..] + b;
      var c := a[0];
      if c == "" || c == "." {
        FollowConcat(rooted, stack, a[1..], b);
      } else if c != UP {
        FollowConcat(rooted, stack + [c], a[1..], b);
      } else if stack != [] && stack[|stack| - 1] != UP {
        FollowConcat(rooted, stack[..|stack| - 1], a[1..], b);
      } else if rooted {
        FollowConcat(rooted, stack, a[1..], b);
      } else {
        FollowConcat(rooted, stack + [UP], a[1..], b);
      }
    }
  }

  lemma {:induction false} FollowUps(rooted: bool, stack: Path, n: nat)
    requires IsPath(stack) && n <= |stack|
    ensures Follow(rooted, stack, Ups(n)) == stack[..|stack| - n]
    decreases n
  {
    if n == 0 {
      assert stack[..|stack|] == stack;
    } else {
      var shorter := stack[..|stack| - 1];
      assert stack[|stack| - 1] in stack;
      FollowUps(rooted, shorter, n - 1);
      assert Ups(n)[1..] == Ups(n - 1);
      assert shorter[..|shorter| - (n - 1)] == stack[..|stack| - n];
    }
  }

  /** Following the relative link computed for a blob, from the directory of the link, yields the blob. */
  lemma RelativeLinkReachesBlob(dir: Path, blob: Path)
    requires IsPath(dir) && IsPath(blob)
    ensures Follow(true, dir, Rel(dir, blob)) == blob
  {
    var n := Common(dir, blob);
    FollowConcat(true, dir, Ups(|dir| - n), blob[n..]);
    FollowUps(true, dir, |dir| - n);
    FollowNames(true, dir[..n], blob[n..]);
    assert blob[..n] + blob[n..] == blob;
  }

  lemma {:induction false} CommonOfExtension(root: Path, a: Path, b: Path)
    ensures Common(root + a, root + b) == |root| + Common(a, b)
    decreases |root|
  {
    if root == [] {
      assert root + a == a && root + b == b;
    } else {
      assert (root + a)[1..] == root[1..] + a && (root + b)[1..] == root[1..] + b;
      CommonOfExtension(root[1..], a, b);
    }
  }

  /** Links between two places of one tree do not depend on where that tree is mounted. */
  lemma RelativeLinkSurvivesReRooting(root: Path, moved: Path, a: Path, b: Path)
    ensures Rel(root + a, root + b) == Rel(moved + a, moved + b)
  {
    CommonOfExtension(root, a, b);
    CommonOfExtension(moved, a, b);
    var n := Common(a, b);
    assert (root + b)[|root| + n..] == b[n..] == (moved + b)[|moved| + n..];
  }

  lemma {:induction false} UpsAt(n: nat, k: nat)
    requires k < n
    ensures Ups(n)[k] == UP
  {
    if k > 0 {
      UpsAt(n - 1, k - 1);
    }
  }

  lemma {:induction false} UpsPrefix(n: nat, k: nat)
    requires k <= n
    ensures Ups(n)[..k] == Ups(k)
  {
    if k > 0 {
      UpsPrefix(n - 1, k - 1);
      assert Ups(n)[..k] == [UP] + Ups(n - 1)[..k - 1];
    }
  }

  /** Where the first steps of a link from `dir` to `blob` lead: never above their common directory. */
  lemma LinkPosition(dir: Path, blob: Path, k: nat)
    requires IsPath(dir) && IsPath(blob)
    requires k <= |Rel(dir, blob)|
    ensures dir[..Common(dir, blob)] <= Follow(true, dir, Rel(dir, blob)[..k])
  {
    var n := Common(dir, blob);
    var up := |dir| - n;
    if k <= up {
      UpsPrefix(up, k);
      assert Rel(dir, blob)[..k] == Ups(k);
      FollowUps(true, dir, k);
    } else {
      var names := blob[n..][..k - up];
      assert Rel(dir, blob)[..k] == Ups(up) + names;
      FollowConcat(true, dir, Ups(up), names);
      FollowUps(true, dir, up);
      FollowNames(true, dir[..n], names);
    }
  }

  /** While a link inside a tree is followed, every intermediate position stays inside the tree. */
  lemma RelativeLinkStaysInside(root: Path, a: Path, b: Path, k: nat)
    requires IsPath(root + a) && IsPath(root + b)
    requires k <= |Rel(root + a, root + b)|
    ensures root <= Follow(true, root + a, Rel(root + a, root + b)[..k])
  {
    CommonOfExtension(root, a, b);
    LinkPosition(root + a, root + b, k);
    assert root <= (root + a)[..|root| + Common(a, b)];
  }

  /** The manager's escape test: a relative path starts with ".." exactly when the target is not below the base. */
  lemma EscapeTest(base: Path, target: Path)
    requires IsPath(target)
    ensures base <= target <==> !(Rel(base, target) != [] && Rel(base, target)[0] == UP)
  {
    var n := Common(base, target);
    if n < |base| {
      UpsAt(|base| - n, 0);
    } else if Rel(base, target) != [] {
      assert Rel(base, target)[0] == target[n] && target[n] in target;
    }
  }

  // ------------------------------------------------------------------ paths as text

  function Split(s: string): (parts: seq<string>)
    ensures |parts| >= 1
    ensures forall c :: c in parts ==> '/' !in c
  {
    if s == "" then [""]
    else if s[0] == '/' then [""] + Split(s[1..])
    else
      var rest := Split(s[1..]);
      [[s[0]] + rest[0]] + rest[1..]
  }

  function Join(parts: seq<string>): string {
    if parts == [] then "" else if |parts| == 1 then parts[0] else parts[0] + "/" + Join(parts[1..])
  }

  /** filepath.Clean. */
  function CleanText(s: string): string {
    var rooted := s != "" && s[0] == '/';
    var parts := Follow(rooted, [], Split(s));
    if rooted then "/" + Join(parts) else if parts == [] then "." else Join(parts)
  }

  const GGUF := "gguf"

  /** validMaterializationTarget. */
  predicate ValidTarget(target: string) {
    target != "" && target[0] != '/' && CleanText(target) == target && target != GGUF && GGUF + "/" <= target
  }

  lemma {:induction false} JoinOfSplit(s: string)
    ensures Join(Split(s)) == s
    decreases |s|
  {
    if s == "" {
    } else {
      JoinOfSplit(s[1..]);
      var rest := Split(s[1..]);
      assert s == [s[0]] + s[1..];
      if s[0] == '/' {
        assert Split(s)[1..] == rest;
      } else if |rest| > 1 {
        assert Split(s)[1..] == rest[1..];
        assert [s[0]] + (rest[0] + "/" + Join(rest[1..])) == [s[0]] + rest[0] + "/" + Join(rest[1..]);
      }
    }
  }

  /** Splitting before a slash-free component and its separator. */
  lemma {:induction false} SplitFirst(c: string, rest: string)
    requires '/' !in c
    ensures Split(c) == [c]
    ensures Split(c + "/" + rest) == [c] + Split(rest)
    decreases |c|
  {
    var s := c + "/" + rest;
    if c == "" {
      assert s == "/" + rest && s[1..] == rest;
    } else {
      SplitFirst(c[1..], rest);
      assert s[1..] == c[1..] + "/" + rest;
      assert c == [c[0]] + c[1..];
      assert ([c[1..]] + Split(rest))[1..] == Split(rest);
    }
  }

  lemma {:induction false} SplitOfJoin(parts: seq<string>)
    requires parts != [] && forall c :: c in parts ==> '/' !in c
    ensures Split(Join(parts)) == parts
    decreases |parts|
  {
    var c, rest := parts[0], parts[1..];
    assert c in parts && parts == [c] + rest;
    if rest == [] {
      SplitFirst(c, "");
    } else {
      SplitOfJoin(rest);
      SplitFirst(c, Join(rest));
    }
  }

  /** What reading a relative path leaves: climbs first, then names. */
  predicate ClimbsThenNames(stack: Path) {
    && (forall c :: c in stack ==> c == UP || Proper(c))
    && (stack != [] && stack[0] != UP ==> IsPath(stack))
  }

  lemma {:induction false} FollowShape(stack: Path, parts: seq<string>)
    requires ClimbsThenNames(stack) && forall c :: c in parts ==> '/' !in c
    ensures ClimbsThenNames(Follow(false, stack, parts))
    decreases |parts|
  {
    if parts == [] {
    } else {
      var c := parts[0];
      if c == "" || c == "." {
        FollowShape(stack, parts[1..]);
      } else if c != UP {
        assert stack + [c] != [] && (stack != [] ==> (stack + [c])[0] == stack[0]);
        FollowShape(stack + [c], parts[1..]);
      } else if stack != [] && stack[|stack| - 1] != UP {
        FollowShape(stack[..|stack| - 1], parts[1..]);
      } else {
        assert stack != [] ==> stack[|stack| - 1] in stack;
        FollowShape(stack + [UP], parts[1..]);
      }
    }
  }

  /** A target that names a place strictly below gguf, component by component. */
  predicate BelowGguf(parts: seq<string>) { |parts| >= 2 && parts[0] == GGUF && IsPath(parts) }

  lemma AcceptedIsBelow(target: string)
    requires ValidTarget(target)
    ensures BelowGguf(Split(target))
  {
    var parts := Follow(false, [], Split(target));
    FollowShape([], Split(target));
    assert target[0] == GGUF[0];
    assert parts != [];
    SplitOfJoin(parts);
    assert Split(target) == parts;
    var rest := target[|GGUF| + 1..];
    assert target == GGUF + "/" + rest;
    SplitFirst(GGUF, rest);
  }

  lemma BelowIsAccepted(target: string)
    requires BelowGguf(Split(target))
    ensures ValidTarget(target)
  {
    var parts := Split(target);
    JoinOfSplit(target);
    FollowNames(false, [], parts);
    assert [] + parts == parts;
    assert target == GGUF + "/" + Join(parts[1..]);
    assert |target| > |GGUF| && target[0] == 'g';
  }

  /** Exactly the targets strictly below gguf, without a parent component, are accepted. */
  lemma TargetsAccepted(target: string)
    ensures ValidTarget(target) <==> BelowGguf(Split(target))
  {
    if ValidTarget(target) {
      AcceptedIsBelow(target);
    }
    if BelowGguf(Split(target)) {
      BelowIsAccepted(target);
    }
  }

  const BLOBS := ".blobs"

  /** The shared blob store is itself an accepted target: acceptance alone does not keep artifacts off it. */
  lemma BlobStoreIsAccepted()
    ensures ValidTarget(GGUF + "/" + BLOBS)
  {
    SplitFirst(GGUF, BLOBS);
    SplitFirst(BLOBS, "");
    assert Split(GGUF + "/" + BLOBS) == [GGUF, BLOBS];
    assert |GGUF| == 4 && |BLOBS| == 6 && Proper(GGUF) && Proper(BLOBS);
    BelowIsAccepted(GGUF + "/" + BLOBS);
  }
}
