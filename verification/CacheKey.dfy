/**
 * cacheKey (cmd/llm-proxy/cache_manager.go): the name of an artifact's marker and of its cold copy.
 * The key is not injective in general; the last lemma says for which artifacts it is.
 */
module CacheKeys {
  const HUB := "huggingface-hub"
  const FILES := "huggingface-files"

  function ReplaceChar(c: char): string {
    if c == '/' then "--" else if c == '@' then "-" else [c]
  }

  function Replace(s: string): string {
    if s == "" then "" else ReplaceChar(s[0]) + Replace(s[1..])
  }

  function Key(kind: string, repo: string, revision: string): string {
    Replace(kind + "-" + repo + "-" + revision)
  }

  /** Two different repositories can share a key. */
  lemma KeysCollide(kind: string, revision: string)
    ensures Key(kind, "a/b", revision) == Key(kind, "a--b", revision)
  {
    Spread(kind, "a/b", revision);
    Spread(kind, "a--b", revision);
    assert Replace("a/b") == "a--b" by {
      assert "a/b"[1..] == "/b" && "/b"[1..] == "b" && Replace("b") == "b" && Replace("/b") == "--b";
    }
    assert Replace("a--b") == "a--b" by {
      assert '/' !in "a--b" && '@' !in "a--b";
      Untouched("a--b");
    }
  }

  lemma {:induction false} ReplaceConcat(s: string, t: string)
    ensures Replace(s + t) == Replace(s) + Replace(t)
    decreases |s|
  {
    if s == "" {
      assert s + t == t;
    } else {
      ReplaceConcat(s[1..], t);
      assert (s + t)[1..] == s[1..] + t;
    }
  }

  lemma {:induction false} Untouched(s: string)
    requires '/' !in s && '@' !in s
    ensures Replace(s) == s
    decreases |s|
  {
    if s != "" {
      Untouched(s[1..]);
      assert s[0] in s && s == [s[0]] + s[1..];
    }
  }

  lemma ReplaceDashed(s: string, t: string)
    ensures Replace(s + "-" + t) == Replace(s) + "-" + Replace(t)
  {
    Untouched("-");
    ReplaceConcat(s, "-");
    ReplaceConcat(s + "-", t);
  }

  lemma Spread(kind: string, repo: string, revision: string)
    ensures Key(kind, repo, revision) == Replace(kind) + "-" + Replace(repo) + "-" + Replace(revision)
  {
    ReplaceDashed(kind, repo);
    ReplaceDashed(kind + "-" + repo, revision);
  }

  predicate Dashing(c: char) { c == '-' || c == '/' || c == '@' }

  /** Hugging Face naming: no '@', and no '-' or '/' next to another. */
  predicate Tidy(s: string) {
    && '@' !in s
    && forall i :: 0 <= i < |s| - 1 ==> !(Dashing(s[i]) && Dashing(s[i + 1]))
  }

  /** What follows a dash in a tidy name does not start with a dash once replaced. */
  lemma NoDashAfterDash(s: string)
    requires Tidy(s) && s != "" && Dashing(s[0])
    ensures Replace(s[1..]) == "" || Replace(s[1..])[0] != '-'
  {
    if |s| > 1 {
      assert !(Dashing(s[0]) && Dashing(s[0 + 1]));
      assert s[1..][0] == s[1];
    }
  }

  lemma TidyTail(s: string)
    requires Tidy(s) && s != ""
    ensures Tidy(s[1..])
  {
    var t := s[1..];
    forall i | 0 <= i < |t| - 1 ensures !(Dashing(t[i]) && Dashing(t[i + 1])) {
      assert t[i] == s[i + 1] && t[i + 1] == s[i + 1 + 1];
    }
  }

  /** Distinct first characters of tidy names lead to distinct replaced names. */
  lemma FirstsAgree(s: string, t: string)
    requires Tidy(s) && Tidy(t) && s != "" && t != "" && Replace(s) == Replace(t)
    ensures s[0] == t[0]
  {
    assert s[0] in s && t[0] in t;
    assert Replace(s)[0] == ReplaceChar(s[0])[0] && Replace(t)[0] == ReplaceChar(t[0])[0];
    assert Replace(s)[|ReplaceChar(s[0])|..] == Replace(s[1..]);
    assert Replace(t)[|ReplaceChar(t[0])|..] == Replace(t[1..]);
    if s[0] == '-' && t[0] == '/' {
      NoDashAfterDash(s);
    } else if s[0] == '/' && t[0] == '-' {
      NoDashAfterDash(t);
    }
  }

  lemma {:induction false} TidyInjective(s: string, t: string)
    requires Tidy(s) && Tidy(t) && Replace(s) == Replace(t)
    ensures s == t
    decreases |s|
  {
    if s == "" || t == "" {
    } else {
      FirstsAgree(s, t);
      TidyTail(s);
      TidyTail(t);
      var n := |ReplaceChar(s[0])|;
      assert Replace(s)[n..] == Replace(s[1..]) && Replace(t)[n..] == Replace(t[1..]);
      TidyInjective(s[1..], t[1..]);
      assert s == [s[0]] + s[1..] && t == [t[0]] + t[1..];
    }
  }

  predicate Kind(k: string) { k == HUB || k == FILES }

  /** The kind can be read off the front of a key. */
  lemma KindRead(kind: string, kind': string, rest: string, rest': string)
    requires Kind(kind) && Kind(kind') && kind + rest == kind' + rest'
    ensures kind == kind' && rest == rest'
  {
    assert |HUB| == 15 && |FILES| == 17 && HUB[12] == 'h' && FILES[12] == 'f';
    assert (kind + rest)[12] == kind[12] && (kind' + rest')[12] == kind'[12];
    assert rest == (kind + rest)[|kind|..] && rest' == (kind' + rest')[|kind'|..];
  }

  /** A revision of known length can be read off the end of a key. */
  lemma RevisionRead(front: string, front': string, rev: string, rev': string)
    requires |rev| == |rev'| && front + rev == front' + rev'
    ensures front == front' && rev == rev'
  {
    assert front == (front + rev)[..|front|] && rev == (front + rev)[|front|..];
    assert front' == (front' + rev')[..|front|] && rev' == (front' + rev')[|front|..];
  }

  lemma Trim(s: string, t: string)
    requires "-" + s + "-" == "-" + t + "-"
    ensures s == t
  {
    assert s == ("-" + s + "-")[1..|s| + 1] && t == ("-" + t + "-")[1..|t| + 1];
  }

  /**
   * Among artifacts whose repositories follow the naming rule and whose revisions are all of one length and
   * free of separators (commit hashes are), equal keys mean the same kind, repository and revision.
   */
  lemma KeysIdentify(kind: string, repo: string, rev: string, kind': string, repo': string, rev': string)
    requires Kind(kind) && Kind(kind') && Tidy(repo) && Tidy(repo') && |rev| == |rev'|
    requires '/' !in rev && '@' !in rev && '/' !in rev' && '@' !in rev'
    ensures Key(kind, repo, rev) == Key(kind', repo', rev') <==> (kind, repo, rev) == (kind', repo', rev')
  {
    if Key(kind, repo, rev) == Key(kind', repo', rev') {
      KeyForm(kind, repo, rev);
      KeyForm(kind', repo', rev');
      var a, b := "-" + Replace(repo) + "-", "-" + Replace(repo') + "-";
      KindRead(kind, kind', a + rev, b + rev');
      RevisionRead(a, b, rev, rev');
      Trim(Replace(repo), Replace(repo'));
      TidyInjective(repo, repo');
    }
  }

  lemma KindUntouched(kind: string)
    requires Kind(kind)
    ensures Replace(kind) == kind
  {
    assert '/' !in HUB && '@' !in HUB && '/' !in FILES && '@' !in FILES;
    Untouched(kind);
  }

  lemma KeyForm(kind: string, repo: string, rev: string)
    requires Kind(kind) && '/' !in rev && '@' !in rev
    ensures Key(kind, repo, rev) == kind + ("-" + Replace(repo) + "-" + rev)
  {
    Spread(kind, repo, rev);
    Untouched(rev);
    KindUntouched(kind);
    Regroup(kind, Replace(repo), rev);
  }

  lemma Regroup(a: string, b: string, c: string)
    ensures a + "-" + b + "-" + c == a + ("-" + b + "-" + c)
  {
  }
}
