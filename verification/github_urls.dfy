/** Recognising and taking apart GitHub URLs: the repository-URL search, the
    fork lookup path, `owner/repo` extraction, the pull-request URL search and
    the split of a pull-request URL into repository and number.

    The two regular expressions of the source are written as scanners: a
    candidate match is tried at every index from the left and the first index
    that matches wins, as `re.search` does. */
module GithubUrls {
  import opened Wrappers
  import opened Strings

  const GithubPrefix := "https://github.com/"
  const SshPrefix := "git@github.com:"

  // ---------------------------------------------------------------------
  // find_github_repo_url: r"https://github.com/[^\s]+"
  // ---------------------------------------------------------------------

  /** The pattern matches at `i`. The unescaped `.` of "github.com" matches
      any character except a newline, so "https://githubXcom/a" matches too. */
  predicate RepoUrlAt(text: string, i: int) {
    && 0 <= i && i + 20 <= |text|
    && text[i..i + 14] == "https://github"
    && text[i + 14] != '\n'
    && text[i + 15..i + 19] == "com/"
    && !IsSpace(text[i + 19])
  }

  /** End of the maximal run of non-whitespace characters starting at `k`. */
  function RunEnd(text: string, k: nat): (e: nat)
    requires k <= |text|
    ensures k <= e <= |text|
    ensures NoSpace(text[k..e])
    ensures e == |text| || IsSpace(text[e])
    decreases |text| - k
  {
    if k == |text| || IsSpace(text[k]) then k
    else
      var e := RunEnd(text, k + 1);
      assert text[k..e] == [text[k]] + text[k + 1..e];
      e
  }

  /** Leftmost index at or after `from` where the repository URL matches. */
  function FirstRepoUrlAt(text: string, from: nat): (r: Option<nat>)
    ensures r.Some? ==> from <= r.value && RepoUrlAt(text, r.value)
    ensures r.Some? ==> forall j :: from <= j < r.value ==> !RepoUrlAt(text, j)
    ensures r.None? ==> forall j :: from <= j ==> !RepoUrlAt(text, j)
    decreases |text| - from
  {
    if from + 20 > |text| then None
    else if RepoUrlAt(text, from) then Some(from)
    else FirstRepoUrlAt(text, from + 1)
  }

  /** The pattern matches at `i` and at no earlier index. */
  predicate LeftmostRepoUrl(text: string, i: int) {
    RepoUrlAt(text, i) && forall j :: 0 <= j < i ==> !RepoUrlAt(text, j)
  }

  lemma RepoUrlHead(text: string, i: int)
    ensures RepoUrlAt(text, i) ==> text[i] == 'h'
  {
    if RepoUrlAt(text, i) {
      assert text[i..i + 14][0] == text[i];
    }
  }

  /** `find_github_repo_url`: the leftmost match, extended over the whole
      run of non-whitespace characters that follows "https://github.com/". */
  function FindGithubRepoUrl(text: string): (r: Option<string>)
    ensures r.None? <==> forall i :: !RepoUrlAt(text, i)
    ensures r.Some? ==>
      exists i :: LeftmostRepoUrl(text, i) && r.value == text[i..RunEnd(text, i + 19)]
    ensures r.Some? ==> |r.value| >= 20 && NoSpace(r.value[19..])
    ensures r.Some? ==> IsPrefix("https://github", r.value)
  {
    match FirstRepoUrlAt(text, 0)
    case None => None
    case Some(i) =>
      RepoUrlFound(text, i);
      Some(text[i..RunEnd(text, i + 19)])
  }

  /** The URL found at the leftmost match `i` has the shape the search
      promises. */
  lemma RepoUrlFound(text: string, i: nat)
    requires FirstRepoUrlAt(text, 0) == Some(i)
    ensures i + 19 <= |text|
    ensures LeftmostRepoUrl(text, i)
    ensures var u := text[i..RunEnd(text, i + 19)];
      |u| >= 20 && NoSpace(u[19..]) && IsPrefix("https://github", u)
  {
    var e := RunEnd(text, i + 19);
    var u := text[i..e];
    assert u[..14] == text[i..i + 14];
    assert u[19..] == text[i + 19..e];
  }

  /** With several repository URLs, the first one is returned (the unit test's
      second example). */
  lemma FindGithubRepoUrlFirst(a: string, b: string)
    requires NoSpace(a) && |a| > 0 && NoSpace(b) && |b| > 0
    ensures FindGithubRepoUrl("URLs: " + GithubPrefix + a + " and " + GithubPrefix + b)
         == Some(GithubPrefix + a)
  {
    var text := "URLs: " + GithubPrefix + a + " and " + GithubPrefix + b;
    RepoUrlAtPrefix("URLs: ", a, " and " + GithubPrefix + b);
    assert "URLs: " + GithubPrefix + a + (" and " + GithubPrefix + b) == text;
    forall j | 0 <= j < 6 ensures !RepoUrlAt(text, j) {
      assert text[j] == "URLs: "[j];
      RepoUrlHead(text, j);
    }
    var e := RunEnd(text, 25);
    RunEndAt(text, 25, 25 + |a|);
    assert text[6..25 + |a|] == GithubPrefix + a;
  }

  /** A repository URL with a non-empty path starts right after any text. */
  lemma RepoUrlAtPrefix(pre: string, a: string, post: string)
    requires |a| > 0 && !IsSpace(a[0])
    ensures RepoUrlAt(pre + GithubPrefix + a + post, |pre|)
  {
    var text := pre + GithubPrefix + a + post;
    var i := |pre|;
    assert text[i..i + 19] == GithubPrefix;
    assert text[i + 19] == a[0];
    assert text[i..i + 14] == text[i..i + 19][..14];
    assert text[i + 15..i + 19] == text[i..i + 19][15..];
  }

  /** The run of non-whitespace from `k` ends at `e` when `text[k..e]` has no
      whitespace and `text[e]` is whitespace. */
  lemma {:induction false} RunEndAt(text: string, k: nat, e: nat)
    requires k <= e < |text|
    requires NoSpace(text[k..e]) && IsSpace(text[e])
    ensures RunEnd(text, k) == e
    decreases e - k
  {
    if k < e {
      assert text[k] == text[k..e][0];
      assert text[k + 1..e] == text[k..e][1..];
      RunEndAt(text, k + 1, e);
    }
  }

  // ---------------------------------------------------------------------
  // fork_repo: the lookup path
  // ---------------------------------------------------------------------

  /** `github_url.replace("https://github.com/", "").removesuffix(".git")`. */
  function ForkPath(url: string): (r: string)
  {
    RemoveSuffix(ReplaceAll(url, GithubPrefix, ""), ".git")
  }

  /** For a URL made of the prefix and a path that does not repeat the
      prefix, the fork lookup path is that path without one ".git". */
  lemma ForkPathOfRepoUrl(path: string)
    requires !Contains(path, GithubPrefix)
    ensures ForkPath(GithubPrefix + path) == RemoveSuffix(path, ".git")
  {
    var u := GithubPrefix + path;
    assert ReplaceAll(u, GithubPrefix, "") == path by {
      assert IsPrefix(GithubPrefix, u);
      assert u[|GithubPrefix|..] == path;
    }
  }

  /** The unit test's example: "https://github.com/original/repo" is looked
      up as "original/repo". */
  lemma ForkPathExample()
    ensures ForkPath(GithubPrefix + "original/repo") == "original/repo"
  {
    var p := "original/repo";
    assert !Contains(p, GithubPrefix) by {
      assert |p| < |GithubPrefix|;
    }
    assert !IsSuffix(".git", p) by {
      assert p[|p| - 4] == 'r';
    }
    ForkPathOfRepoUrl(p);
  }

  // ---------------------------------------------------------------------
  // extract_repo_name_from_url
  // ---------------------------------------------------------------------

  /** The URL with trailing slashes and one ".git" removed. */
  function TrimRepoUrl(url: string): string {
    RemoveSuffix(RStripChar(url, '/'), ".git")
  }

  /** The candidate "owner/repo" text: what follows "git@github.com:" for an
      SSH URL, otherwise what follows the last "github.com/". */
  function RepoNamePart(url: string): (name: string)
    ensures IsSuffix(name, TrimRepoUrl(url))
  {
    var u := TrimRepoUrl(url);
    LastPieceShape(u, SshPrefix);
    LastPieceShape(u, "github.com/");
    if IsPrefix(SshPrefix, u) then LastPiece(u, SshPrefix)
    else LastPiece(u, "github.com/")
  }

  /** The text is a non-empty owner, a '/', and a non-empty rest: the shape
      `split("/", 1)` accepts. The rest may hold further slashes. */
  predicate OwnerSlashRepo(name: string) {
    exists i | 0 < i < |name| - 1 ::
      name[i] == '/' && forall k | 0 <= k < i :: name[k] != '/'
  }

  /** `OwnerSlashRepo` holds exactly when the first '/' is neither the first
      nor the last character. */
  lemma OwnerSlashRepoFirstSlash(name: string)
    ensures OwnerSlashRepo(name) <==>
      var fi := FirstIndex(name, "/");
      fi.Some? && 0 < fi.value < |name| - 1
  {
    var fi := FirstIndex(name, "/");
    if OwnerSlashRepo(name) {
      var i :| 0 < i < |name| - 1 && name[i] == '/' && forall k | 0 <= k < i :: name[k] != '/';
      OccursAtChar(name, '/', i);
      assert Contains(name, "/");
      OccursAtChar(name, '/', fi.value);
      assert fi.value == i;
    }
    if fi.Some? && 0 < fi.value < |name| - 1 {
      var i := fi.value;
      OccursAtChar(name, '/', i);
      forall k | 0 <= k < i ensures name[k] != '/' {
        OccursAtChar(name, '/', k);
      }
    }
  }

  /** `extract_repo_name_from_url`: accepts exactly the URLs whose candidate
      part has the owner/repo shape, and then returns that part unchanged. */
  function ExtractRepoName(url: string): (r: Result<string>)
    ensures r.Ok? <==> OwnerSlashRepo(RepoNamePart(url))
    ensures r.Ok? ==> r.value == RepoNamePart(url)
    ensures r.Err? ==> r.error.ValueError?
  {
    SplitOwnerRepo(RepoNamePart(url), TrimRepoUrl(url))
  }

  /** The `split("/", 1)` step of `extract_repo_name_from_url` on the
      candidate `name` of the trimmed URL `trimmed`. */
  function SplitOwnerRepo(name: string, trimmed: string): (r: Result<string>)
    ensures r.Ok? <==> OwnerSlashRepo(name)
    ensures r.Ok? ==> r.value == name
    ensures r.Err? ==> r.error.ValueError?
  {
    OwnerSlashRepoFirstSlash(name);
    if |name| == 0 || !Contains(name, "/") then
      Err(ValueError("Invalid repository URL format: " + trimmed))
    else
      var i := FirstIndex(name, "/").value;
      var owner := name[..i];
      var repo := name[i + 1..];
      if |owner| == 0 || |repo| == 0 then
        Err(ValueError("Invalid repository name format: " + name))
      else
        OccursAtChar(name, '/', i);
        JoinAtSlash(name, i);
        Ok(owner + "/" + repo)
  }

  /** A text is what precedes a '/' in it, the '/', and what follows. */
  lemma JoinAtSlash(name: string, i: nat)
    requires i < |name| && name[i] == '/'
    ensures name[..i] + "/" + name[i + 1..] == name
  {
    assert name[i..i + 1] == "/";
    assert name == name[..i] + name[i..i + 1] + name[i + 1..];
  }

  /** A name ending in `"/" + repo` ends in ".git" only if `repo` does. */
  lemma NotGitSuffix(pre: string, repo: string)
    requires !IsSuffix(".git", repo)
    ensures !IsSuffix(".git", pre + "/" + repo)
  {
    var s := pre + "/" + repo;
    if |repo| >= 4 {
      SuffixOfConcat(".git", pre + "/", repo);
    } else if |s| >= 4 {
      var j := |s| - |repo| - 1;
      assert s[j] == '/';
      var w := s[|s| - 4..];
      assert w[j - (|s| - 4)] == '/';
      assert '/' !in ".git";
    }
  }

  /** The separator "github.com/" does not start again inside itself. */
  lemma GithubSepHead()
    ensures "github.com/"[0] !in "github.com/"[1..]
  {
    assert "github.com/"[1..] == "ithub.com/";
  }

  /** Trimming undoes one optional ".git" or "/" ending. */
  lemma TrimRepoUrlOf(base: string, tail: string)
    requires |base| > 0 && base[|base| - 1] != '/' && !IsSuffix(".git", base)
    requires tail == ".git" || tail == "/" || tail == ""
    ensures TrimRepoUrl(base + tail) == base
  {
    var url := base + tail;
    assert RStripChar(base, '/') == base;
    if tail == "/" {
      assert url[..|url| - 1] == base;
    } else if tail == ".git" {
      assert url[..|base|] == base;
    }
  }

  /** The last piece after "github.com/" of an HTTPS URL is its path when
      the path does not repeat the separator. */
  lemma HttpsLastPiece(name: string)
    requires !Contains(name, "github.com/")
    ensures LastPiece(GithubPrefix + name, "github.com/") == name
  {
    assert GithubPrefix + name == "https://" + "github.com/" + name;
    GithubSepHead();
    LastPieceIsTail("https://", "github.com/", name);
  }

  /** The candidate part of an HTTPS URL is what follows its only
      "github.com/". */
  lemma RepoNamePartHttps(name: string, tail: string)
    requires |name| > 0 && name[|name| - 1] != '/' && !IsSuffix(".git", name)
    requires tail == ".git" || tail == "/" || tail == ""
    requires !Contains(name, "github.com/")
    ensures RepoNamePart(GithubPrefix + name + tail) == name
  {
    var base := GithubPrefix + name;
    assert base == "https://github.com" + "/" + name;
    NotGitSuffix("https://github.com", name);
    TrimRepoUrlOf(base, tail);
    assert !IsPrefix(SshPrefix, base) by {
      assert base[0] == 'h';
    }
    HttpsLastPiece(name);
  }

  /** An HTTPS repository URL, optionally ending in ".git" or "/", gives back
      its "owner/repo" (the unit test's first two examples). */
  lemma ExtractRepoNameHttps(owner: string, repo: string, tail: string)
    requires |owner| > 0 && '/' !in owner && |repo| > 0
    requires tail == ".git" || tail == "/" || tail == ""
    requires repo[|repo| - 1] != '/' && !IsSuffix(".git", repo)
    requires !Contains(owner + "/" + repo, "github.com/")
    ensures ExtractRepoName(GithubPrefix + owner + "/" + repo + tail) == Ok(owner + "/" + repo)
  {
    var name := owner + "/" + repo;
    assert GithubPrefix + owner + "/" + repo + tail == GithubPrefix + name + tail;
    NotGitSuffix(owner, repo);
    assert name[|name| - 1] == repo[|repo| - 1];
    RepoNamePartHttps(name, tail);
    NameHasOwnerSlashRepo(owner, repo);
  }

  /** An SSH repository URL ending in ".git" gives back its "owner/repo". */
  lemma ExtractRepoNameSsh(owner: string, repo: string)
    requires |owner| > 0 && '/' !in owner && |repo| > 0
    requires !Contains(owner + "/" + repo, SshPrefix)
    ensures ExtractRepoName(SshPrefix + owner + "/" + repo + ".git") == Ok(owner + "/" + repo)
  {
    var name := owner + "/" + repo;
    assert SshPrefix + owner + "/" + repo + ".git" == SshPrefix + name + ".git";
    RepoNamePartSsh(name);
    NameHasOwnerSlashRepo(owner, repo);
  }

  /** The candidate part of an SSH URL ending in ".git" is what lies between
      "git@github.com:" and ".git". */
  lemma RepoNamePartSsh(name: string)
    requires !Contains(name, SshPrefix)
    ensures RepoNamePart(SshPrefix + name + ".git") == name
  {
    var base := SshPrefix + name;
    var url := base + ".git";
    assert url[|url| - 1] == 't';
    assert RStripChar(url, '/') == url;
    assert url[..|base|] == base;
    assert url[|base|..] == ".git";
    assert TrimRepoUrl(url) == base;
    assert base[..|SshPrefix|] == SshPrefix;
    LastPieceAfterLeadingSep(SshPrefix, name);
  }

  /** Text that starts with the separator and holds no other occurrence of it
      splits into an empty first piece and the rest. */
  lemma LastPieceAfterLeadingSep(sep: string, x: string)
    requires |sep| > 0 && !Contains(x, sep)
    ensures LastPiece(sep + x, sep) == x
  {
    var s := sep + x;
    assert s[..|sep|] == sep;
    FirstIndexIs(s, sep, 0);
    assert s[|sep|..] == x;
    assert Split(x, sep) == [x];
    assert Split(s, sep) == [s[..0]] + [x];
  }

  /** "owner/repo" with a slash-free, non-empty owner has the accepted shape. */
  lemma NameHasOwnerSlashRepo(owner: string, repo: string)
    requires |owner| > 0 && '/' !in owner && |repo| > 0
    ensures OwnerSlashRepo(owner + "/" + repo)
  {
    var name := owner + "/" + repo;
    assert name[|owner|] == '/';
    forall k | 0 <= k < |owner| ensures name[k] != '/' {
      assert name[k] == owner[k];
    }
  }

  /** A URL naming only an owner is rejected (the unit test's
      "https://github.com/invalid"). */
  lemma ExtractRepoNameRejectsOwnerOnly(owner: string)
    requires |owner| > 0 && '/' !in owner && !IsSuffix(".git", owner)
    requires !Contains(owner, "github.com/")
    ensures ExtractRepoName(GithubPrefix + owner).Err?
  {
    assert owner[|owner| - 1] in owner;
    RepoNamePartHttps(owner, "");
    assert GithubPrefix + owner + "" == GithubPrefix + owner;
  }

  /** Text without any '/' is rejected (the unit test's "not_a_url"). */
  lemma ExtractRepoNameRejectsNoSlash(url: string)
    requires '/' !in url
    ensures ExtractRepoName(url).Err?
  {
    var t := TrimRepoUrl(url);
    var name := RepoNamePart(url);
    assert '/' !in RStripChar(url, '/');
    assert '/' !in t;
    assert '/' !in name by {
      assert name == t[|t| - |name|..];
    }
  }

  // ---------------------------------------------------------------------
  // get_pr_url: r"https://github\.com/[^/]+/[^/]+/pull/\d+"
  // ---------------------------------------------------------------------

  /** Index of the first '/' at or after `k`, or the length of the text. */
  function SlashEnd(text: string, k: nat): (e: nat)
    requires k <= |text|
    ensures k <= e <= |text|
    ensures '/' !in text[k..e]
    ensures e == |text| || text[e] == '/'
    decreases |text| - k
  {
    if k == |text| || text[k] == '/' then k
    else
      var e := SlashEnd(text, k + 1);
      assert text[k..e] == [text[k]] + text[k + 1..e];
      e
  }

  /** End of the run of decimal digits starting at `k`. */
  function DigitEnd(text: string, k: nat): (e: nat)
    requires k <= |text|
    ensures k <= e <= |text|
    ensures AllDigits(text[k..e])
    ensures e == |text| || !IsDigit(text[e])
    decreases |text| - k
  {
    if k == |text| || !IsDigit(text[k]) then k
    else
      var e := DigitEnd(text, k + 1);
      assert text[k..e] == [text[k]] + text[k + 1..e];
      e
  }

  /** The boundaries of a pull-request URL match: the owner runs up to
      `ownerEnd`, the repository up to `repoEnd`, and the number up to `end`. */
  datatype PrMatch = PrMatch(ownerEnd: nat, repoEnd: nat, end: nat)

  /** The pattern matches at `i` with the given owner, repository and
      number; `num` need not be the whole run of digits. */
  ghost predicate PrShapeAt(text: string, i: nat, owner: string, repo: string, num: string) {
    && i <= |text|
    && |owner| > 0 && '/' !in owner
    && |repo| > 0 && '/' !in repo
    && |num| > 0 && AllDigits(num)
    && IsPrefix(PrUrlText(owner, repo, num), text[i..])
  }

  /** The text of the pull-request URL with the given parts. */
  function PrUrlText(owner: string, repo: string, num: string): (u: string)
    ensures |u| == 26 + |owner| + |repo| + |num|
  {
    GithubPrefix + owner + "/" + repo + "/pull/" + num
  }

  /** Where each part sits inside `PrUrlText`. */
  lemma PrUrlTextParts(owner: string, repo: string, num: string)
    ensures var u := PrUrlText(owner, repo, num);
      && u[..19] == GithubPrefix
      && u[19..19 + |owner|] == owner
      && u[19 + |owner|] == '/'
      && u[20 + |owner|..20 + |owner| + |repo|] == repo
      && u[20 + |owner| + |repo|..26 + |owner| + |repo|] == "/pull/"
      && u[26 + |owner| + |repo|..] == num
      && u[19..20 + |owner| + |repo|] == owner + "/" + repo
  {
    var a := GithubPrefix + owner;
    var b := a + "/";
    var c := b + repo;
    var d := c + "/pull/";
    var u := d + num;
    assert u == PrUrlText(owner, repo, num);
    assert u[..|d|] == d && d[..|c|] == c && c[..|b|] == b && b[..|a|] == a;
    assert u[..19] == a[..19];
    assert u[19..19 + |owner|] == a[19..];
    assert u[20 + |owner|..20 + |owner| + |repo|] == c[|b|..];
    assert u[20 + |owner| + |repo|..26 + |owner| + |repo|] == d[|c|..];
    assert u[19..20 + |owner| + |repo|] == c[19..] == owner + "/" + repo;
  }

  /** A slice splits at any inner index. */
  lemma SliceSplit(t: string, a: nat, b: nat, c: nat)
    requires a <= b <= c <= |t|
    ensures t[a..c] == t[a..b] + t[b..c]
  {
  }

  /** The match of the pull-request pattern at `i`, if any. Each `[^/]+` can
      only stop right before a '/', so no backtracking is needed, and `\d+`
      takes the whole run of digits. */
  function PrUrlMatch(text: string, i: nat): (r: Option<PrMatch>)
    ensures r.Some? ==> OccursAt(text, GithubPrefix, i)
    ensures r.Some? ==> i + 19 < r.value.ownerEnd && r.value.ownerEnd + 1 < r.value.repoEnd
    ensures r.Some? ==> r.value.repoEnd + 6 < r.value.end <= |text|
    ensures r.Some? ==> '/' !in text[i + 19..r.value.ownerEnd] && text[r.value.ownerEnd] == '/'
    ensures r.Some? ==> '/' !in text[r.value.ownerEnd + 1..r.value.repoEnd]
    ensures r.Some? ==> OccursAt(text, "/pull/", r.value.repoEnd)
    ensures r.Some? ==> AllDigits(text[r.value.repoEnd + 6..r.value.end])
    ensures r.Some? ==> r.value.end == |text| || !IsDigit(text[r.value.end])
  {
    if !OccursAt(text, GithubPrefix, i) then None
    else
      var e1 := SlashEnd(text, i + 19);
      if e1 == i + 19 || e1 == |text| then None
      else
        var e2 := SlashEnd(text, e1 + 1);
        if e2 == e1 + 1 || !OccursAt(text, "/pull/", e2) then None
        else
          var e3 := DigitEnd(text, e2 + 6);
          if e3 == e2 + 6 then None else Some(PrMatch(e1, e2, e3))
  }

  /** The slash-free run from `k` ends at the '/' at `e`. */
  lemma {:induction false} SlashEndAt(text: string, k: nat, e: nat)
    requires k <= e < |text|
    requires '/' !in text[k..e] && text[e] == '/'
    ensures SlashEnd(text, k) == e
    decreases e - k
  {
    if k < e {
      assert text[k] == text[k..e][0];
      assert text[k + 1..e] == text[k..e][1..];
      SlashEndAt(text, k + 1, e);
    }
  }

  /** A run of digits starting at `k` lies inside the digit run `DigitEnd`
      finds. */
  lemma {:induction false} DigitEndCovers(text: string, k: nat, n: nat)
    requires k + n <= |text| && AllDigits(text[k..k + n])
    ensures DigitEnd(text, k) >= k + n
    decreases n
  {
    if n > 0 {
      assert IsDigit(text[k..k + n][0]);
      assert text[k + 1..k + n] == text[k..k + n][1..];
      DigitEndCovers(text, k + 1, n - 1);
    }
  }

  /** Where each part of a shape matched at `i` sits in the text. */
  lemma PrShapeSlices(text: string, i: nat, owner: string, repo: string, num: string)
    requires PrShapeAt(text, i, owner, repo, num)
    ensures var e1 := i + 19 + |owner|;
      var e2 := e1 + 1 + |repo|;
      && e2 + 6 + |num| <= |text|
      && text[i..i + 19] == GithubPrefix
      && text[i + 19..e1] == owner
      && text[e1] == '/'
      && text[e1 + 1..e2] == repo
      && text[e2..e2 + 6] == "/pull/"
      && text[e2 + 6..e2 + 6 + |num|] == num
  {
    var u := PrUrlText(owner, repo, num);
    PrUrlTextParts(owner, repo, num);
    assert text[i..i + |u|] == u by {
      assert text[i..][..|u|] == text[i..i + |u|];
    }
    var e1 := i + 19 + |owner|;
    var e2 := e1 + 1 + |repo|;
    SubSlice(text, i, u, 0, 19);
    SubSlice(text, i, u, 19, 19 + |owner|);
    SubSlice(text, i, u, 19 + |owner|, 20 + |owner|);
    assert text[e1] == text[e1..e1 + 1][0];
    SubSlice(text, i, u, 20 + |owner|, 20 + |owner| + |repo|);
    SubSlice(text, i, u, 20 + |owner| + |repo|, 26 + |owner| + |repo|);
    SubSlice(text, i, u, 26 + |owner| + |repo|, |u|);
  }

  /** A slice of a text that equals `w` at `i` reads as the same slice of
      `w`. */
  lemma SubSlice(text: string, i: nat, w: string, a: nat, b: nat)
    requires i + |w| <= |text| && text[i..i + |w|] == w
    requires a <= b <= |w|
    ensures text[i + a..i + b] == w[a..b]
  {
    forall k | 0 <= k < b - a
      ensures text[i + a..i + b][k] == w[a..b][k]
    {
      assert w[a + k] == text[i..i + |w|][a + k];
    }
  }

  /** A slice made of three known pieces with unknown pieces between and
      after them. */
  lemma Assemble(t: string, a: nat, b: nat, c: nat, d: nat, e: nat, f: nat, g: nat,
                 x: string, y: string, z: string)
    requires a <= b <= c <= d <= e <= f <= g <= |t|
    requires t[a..b] == x && t[c..d] == y && t[e..f] == z
    ensures t[a..g] == x + t[b..c] + y + t[d..e] + z + t[f..g]
  {
    SliceSixWays(t, a, b, c, d, e, f, g);
  }

  /** A slice is the concatenation of its pieces at five inner indices. */
  lemma SliceSixWays(t: string, a: nat, b: nat, c: nat, d: nat, e: nat, f: nat, g: nat)
    requires a <= b <= c <= d <= e <= f <= g <= |t|
    ensures t[a..g] == t[a..b] + t[b..c] + t[c..d] + t[d..e] + t[e..f] + t[f..g]
  {
    SliceSplit(t, a, f, g);
    SliceSplit(t, a, e, f);
    SliceSplit(t, a, d, e);
    SliceSplit(t, a, c, d);
    SliceSplit(t, a, b, c);
  }

  /** Completeness: wherever the pattern can match, `PrUrlMatch` finds the
      match, with the owner and repository boundaries where they must be and
      the number extended over every following digit. */
  lemma PrUrlMatchComplete(text: string, i: nat, owner: string, repo: string, num: string)
    requires PrShapeAt(text, i, owner, repo, num)
    ensures PrUrlMatch(text, i).Some?
    ensures PrUrlMatch(text, i).value.ownerEnd == i + 19 + |owner|
    ensures PrUrlMatch(text, i).value.repoEnd == i + 20 + |owner| + |repo|
    ensures PrUrlMatch(text, i).value.end >= i + 26 + |owner| + |repo| + |num|
  {
    var e1 := i + 19 + |owner|;
    var e2 := e1 + 1 + |repo|;
    PrShapeSlices(text, i, owner, repo, num);
    assert OccursAt(text, GithubPrefix, i);
    SlashEndAt(text, i + 19, e1);
    SlashEndAt(text, e1 + 1, e2);
    assert OccursAt(text, "/pull/", e2);
    DigitEndCovers(text, e2 + 6, |num|);
    PrUrlMatchAt(text, i, e1, e2);
  }

  /** The match at `i` once its owner and repository boundaries are known. */
  lemma PrUrlMatchAt(text: string, i: nat, e1: nat, e2: nat)
    requires i + 19 < e1 < e1 + 1 < e2 && e2 + 6 <= |text|
    requires OccursAt(text, GithubPrefix, i)
    requires SlashEnd(text, i + 19) == e1 && SlashEnd(text, e1 + 1) == e2
    requires OccursAt(text, "/pull/", e2) && DigitEnd(text, e2 + 6) > e2 + 6
    ensures PrUrlMatch(text, i) == Some(PrMatch(e1, e2, DigitEnd(text, e2 + 6)))
  {
    assert e1 != i + 19 && e1 != |text|;
    assert e2 != e1 + 1;
  }

  /** Soundness: a match found by `PrUrlMatch` has the pattern's shape, with
      the owner, repository and number read off its boundaries. */
  lemma PrUrlMatchSound(text: string, i: nat)
    requires PrUrlMatch(text, i).Some?
    ensures var m := PrUrlMatch(text, i).value;
      var owner, repo, num := text[i + 19..m.ownerEnd], text[m.ownerEnd + 1..m.repoEnd],
                              text[m.repoEnd + 6..m.end];
      && PrShapeAt(text, i, owner, repo, num)
      && text[i..m.end] == PrUrlText(owner, repo, num)
  {
    var m := PrUrlMatch(text, i).value;
    ShapeFromBounds(text, i, m.ownerEnd, m.repoEnd, m.end);
  }

  /** Text cut at boundaries that delimit the pattern's pieces has the
      pattern's shape. */
  lemma ShapeFromBounds(text: string, i: nat, e1: nat, e2: nat, e3: nat)
    requires i + 19 < e1 && e1 + 1 < e2 && e2 + 6 < e3 <= |text|
    requires OccursAt(text, GithubPrefix, i)
    requires '/' !in text[i + 19..e1] && text[e1] == '/'
    requires '/' !in text[e1 + 1..e2]
    requires OccursAt(text, "/pull/", e2)
    requires AllDigits(text[e2 + 6..e3])
    ensures var owner, repo, num := text[i + 19..e1], text[e1 + 1..e2], text[e2 + 6..e3];
      && PrShapeAt(text, i, owner, repo, num)
      && text[i..e3] == PrUrlText(owner, repo, num)
  {
    assert text[e1..e1 + 1] == "/";
    Assemble(text, i, i + 19, e1, e1 + 1, e2, e2 + 6, e3, GithubPrefix, "/", "/pull/");
    assert text[i..][..e3 - i] == text[i..e3];
  }

  /** The shape of every pull-request URL the search returns. */
  ghost predicate IsPrUrl(u: string) {
    exists owner, repo, num ::
      && |owner| > 0 && '/' !in owner
      && |repo| > 0 && '/' !in repo
      && |num| > 0 && AllDigits(num)
      && u == PrUrlText(owner, repo, num)
  }

  /** Leftmost index at or after `from` where the pattern matches. */
  function FirstPrUrlAt(text: string, from: nat): (r: Option<nat>)
    ensures r.Some? ==> from <= r.value && PrUrlMatch(text, r.value).Some?
    ensures r.Some? ==> forall j: nat :: from <= j < r.value ==> PrUrlMatch(text, j).None?
    ensures r.None? ==> forall j: nat :: from <= j ==> PrUrlMatch(text, j).None?
    decreases |text| - from
  {
    if from >= |text| then None
    else if PrUrlMatch(text, from).Some? then Some(from)
    else FirstPrUrlAt(text, from + 1)
  }

  /** `get_pr_url`: the leftmost pull-request URL in a chat message, or
      `None`. */
  function GetPrUrl(text: string): (r: Option<string>)
    ensures r.Some? ==> IsPrUrl(r.value)
  {
    match FirstPrUrlAt(text, 0)
    case None => None
    case Some(i) =>
      var m := PrUrlMatch(text, i).value;
      PrUrlMatchSound(text, i);
      Some(text[i..m.end])
  }

  /** `GetPrUrl` finds nothing exactly when the pattern matches nowhere. */
  lemma GetPrUrlNoneIff(text: string)
    ensures GetPrUrl(text).None? <==>
      forall i: nat, owner, repo, num :: !PrShapeAt(text, i, owner, repo, num)
  {
    if GetPrUrl(text).None? {
      forall i: nat, owner, repo, num | PrShapeAt(text, i, owner, repo, num)
        ensures false
      {
        PrUrlMatchComplete(text, i, owner, repo, num);
      }
    } else {
      var i := FirstPrUrlAt(text, 0).value;
      PrUrlMatchSound(text, i);
    }
  }

  /** What `GetPrUrl` returns is the match at the leftmost index where the
      pattern can match at all. */
  lemma GetPrUrlLeftmost(text: string)
    requires GetPrUrl(text).Some?
    ensures exists i: nat :: && PrUrlMatch(text, i).Some?
                             && GetPrUrl(text).value == text[i..PrUrlMatch(text, i).value.end]
                             && forall j: nat, o, rp, n :: j < i ==> !PrShapeAt(text, j, o, rp, n)
  {
    var i := FirstPrUrlAt(text, 0).value;
    forall j: nat, o, rp, n | j < i ensures !PrShapeAt(text, j, o, rp, n) {
      if PrShapeAt(text, j, o, rp, n) {
        PrUrlMatchComplete(text, j, o, rp, n);
      }
    }
  }

  // ---------------------------------------------------------------------
  // The split of a pull-request URL into "owner/repo" and number
  // ---------------------------------------------------------------------

  /** As written: `owner_repo, pr_number = pr_url.split("github.com/")[-1]
      .split("/pull/")` followed by `int(pr_number)`. Unpacking fails unless
      there are exactly two pieces. */
  function PrUrlPartsAsWritten(url: string): (r: Result<(string, int)>)
    ensures r.Ok? ==>
      exists num :: && LastPiece(url, "github.com/") == r.value.0 + "/pull/" + num
                    && ParseInt(num) == Some(r.value.1)
    ensures r.Ok? ==> !Contains(r.value.0, "/pull/")
  {
    var path := LastPiece(url, "github.com/");
    var parts := Split(path, "/pull/");
    if |parts| != 2 then Err(ValueError("cannot unpack the pull request path"))
    else
      match ParseInt(parts[1])
      case None => Err(ValueError("invalid literal for int()"))
      case Some(n) =>
        SplitJoin(path, "/pull/");
        SplitPiecesFree(path, "/pull/");
        assert Join(parts, "/pull/") == parts[0] + "/pull/" + parts[1];
        Ok((parts[0], n))
  }

  /** Counterexample: the pull-request URL of a repository whose name ends in
      "github.com" (such as an old "user.github.com" pages repository) is
      found by `GetPrUrl` but cannot be taken apart; for instance
      "https://github.com/alice/alice.github.com/pull/3". */
  lemma PrUrlPartsAsWrittenRejectsPagesRepo(owner: string, base: string, num: string)
    requires |owner| > 0 && '/' !in owner && '/' !in base
    requires |num| == 1 && AllDigits(num)
    ensures IsPrUrl(PrUrlText(owner, base + "github.com", num))
    ensures PrUrlPartsAsWritten(PrUrlText(owner, base + "github.com", num)).Err?
  {
    PagesRepoIsPrUrl(owner, base, num);
    var pre := GithubPrefix + owner + "/" + base;
    var tail := "pull/" + num;
    PagesUrlSplit(owner, base, num);
    assert !Contains(tail, "github.com/") by { assert |tail| < 11; }
    GithubSepHead();
    LastPieceIsTail(pre, "github.com/", tail);
    PagesRepoTailSplit(tail);
  }

  lemma PagesRepoIsPrUrl(owner: string, base: string, num: string)
    requires |owner| > 0 && '/' !in owner && '/' !in base
    requires |num| > 0 && AllDigits(num)
    ensures IsPrUrl(PrUrlText(owner, base + "github.com", num))
  {
    var repo := base + "github.com";
    assert '/' !in repo by {
      assert '/' !in "github.com";
      assert forall k :: 0 <= k < |repo| ==> repo[k] == (if k < |base| then base[k] else "github.com"[k - |base|]);
    }
  }

  /** A repository name ending in "github.com" puts a "github.com/" right
      before the "pull/" of its pull-request URL. */
  lemma PagesUrlSplit(owner: string, base: string, num: string)
    ensures PrUrlText(owner, base + "github.com", num)
         == (GithubPrefix + owner + "/" + base) + "github.com/" + ("pull/" + num)
  {
    assert "github.com" + "/pull/" == "github.com/" + "pull/";
  }

  lemma PagesRepoTailSplit(tail: string)
    requires |tail| == 6 && tail[0] == 'p'
    ensures Split(tail, "/pull/") == [tail]
  {
    assert !Contains(tail, "/pull/") by {
      NotOccursAtHead(tail, "/pull/", 0);
    }
  }

  /** Outside the two cases that break it, the split as written agrees with
      the corrected one: on every URL `GetPrUrl` can return whose owner and
      repository do not end in "github.com" and whose repository is not named
      "pull", both give the same "owner/repo" and number. */
  lemma PrUrlPartsAgree(owner: string, repo: string, num: string)
    requires |owner| > 0 && '/' !in owner && |repo| > 0 && '/' !in repo
    requires |num| > 0 && AllDigits(num)
    requires !IsSuffix("github.com", owner) && !IsSuffix("github.com", repo) && repo != "pull"
    ensures PrUrlPartsAsWritten(PrUrlText(owner, repo, num)) == PrUrlParts(PrUrlText(owner, repo, num))
    ensures PrUrlParts(PrUrlText(owner, repo, num)) == Ok((owner + "/" + repo, DigitsValue(num)))
  {
    PrUrlPartsAsWrittenOnPrUrl(owner, repo, num);
    PrUrlPartsRoundTrip(owner, repo, num);
  }

  /** The split as written on a well-formed pull request URL. */
  lemma PrUrlPartsAsWrittenOnPrUrl(owner: string, repo: string, num: string)
    requires '/' !in owner && '/' !in repo && |num| > 0 && AllDigits(num)
    requires !IsSuffix("github.com", owner) && !IsSuffix("github.com", repo) && repo != "pull"
    ensures PrUrlPartsAsWritten(PrUrlText(owner, repo, num)) == Ok((owner + "/" + repo, DigitsValue(num)))
  {
    var x := owner + "/" + repo;
    var url := PrUrlText(owner, repo, num);
    assert LastPiece(url, "github.com/") == x + "/pull/" + num by {
      PrPathNoGithubSep(owner, repo, num);
      PrUrlTextPath(owner, repo, num);
      HttpsLastPiece(x + "/pull/" + num);
    }
    assert Split(x + "/pull/" + num, "/pull/") == [x, num] by {
      OwnerRepoNoPullSep(owner, repo, num);
      PullSplit(x, num);
    }
    PrUrlPartsAsWrittenFrom(url, x, num);
  }

  /** A pull request URL is the GitHub prefix followed by its path. */
  lemma PrUrlTextPath(owner: string, repo: string, num: string)
    ensures PrUrlText(owner, repo, num) == GithubPrefix + (owner + "/" + repo + "/pull/" + num)
  {
  }

  /** The split as written, once the last piece after "github.com/" is known
      to split into the path and a number. */
  lemma PrUrlPartsAsWrittenFrom(url: string, x: string, num: string)
    requires LastPiece(url, "github.com/") == x + "/pull/" + num
    requires Split(x + "/pull/" + num, "/pull/") == [x, num]
    requires |num| > 0 && AllDigits(num)
    ensures PrUrlPartsAsWritten(url) == Ok((x, DigitsValue(num)))
  {
  }

  /** Counterexample: an owner whose name ends in "github.com" moves the last
      "github.com/" to just before the repository, so the split as written
      succeeds with the repository alone as the path, and the lookup goes to
      a repository other than the one the URL names. */
  lemma PrUrlPartsAsWrittenDropsPagesOwner(base: string, repo: string, num: string)
    requires '/' !in base && |repo| > 0 && '/' !in repo && !IsSuffix("github.com", repo)
    requires |num| > 0 && AllDigits(num)
    ensures IsPrUrl(PrUrlText(base + "github.com", repo, num))
    ensures PrUrlPartsAsWritten(PrUrlText(base + "github.com", repo, num)) == Ok((repo, DigitsValue(num)))
    ensures PrUrlParts(PrUrlText(base + "github.com", repo, num))
         == Ok((base + "github.com" + "/" + repo, DigitsValue(num)))
  {
    var owner := base + "github.com";
    PagesOwnerNoSlash(base);
    PrUrlPartsAsWrittenOnPagesOwner(base, repo, num);
    PrUrlPartsRoundTrip(owner, repo, num);
    PrUrlPartsOkIff(PrUrlText(owner, repo, num));
  }

  /** The split as written on the URL of an owner whose name ends in
      "github.com": the path it reads is the repository alone. */
  lemma PrUrlPartsAsWrittenOnPagesOwner(base: string, repo: string, num: string)
    requires '/' !in repo && !IsSuffix("github.com", repo) && |num| > 0 && AllDigits(num)
    ensures PrUrlPartsAsWritten(PrUrlText(base + "github.com", repo, num)) == Ok((repo, DigitsValue(num)))
  {
    var tail := repo + "/pull/" + num;
    var url := PrUrlText(base + "github.com", repo, num);
    assert LastPiece(url, "github.com/") == tail by {
      PagesOwnerUrl(base, repo, num);
      RepoTailNoGithubSep(repo, num);
      GithubSepHead();
      LastPieceIsTail(GithubPrefix + base, "github.com/", tail);
    }
    assert Split(tail, "/pull/") == [repo, num] by {
      forall j | 0 <= j < |repo| ensures !OccursAt(tail, "/pull/", j) {
        assert tail[j] == repo[j];
        NotOccursAtHead(tail, "/pull/", j);
      }
      PullSplit(repo, num);
    }
    PrUrlPartsAsWrittenFrom(url, repo, num);
  }

  /** An owner name ending in "github.com" holds no '/' when its start holds
      none. */
  lemma PagesOwnerNoSlash(base: string)
    requires '/' !in base
    ensures '/' !in base + "github.com"
  {
    var owner := base + "github.com";
    assert forall k :: 0 <= k < |owner| ==> owner[k] == (if k < |base| then base[k] else "github.com"[k - |base|]);
  }

  /** The URL of an owner whose name ends in "github.com", cut at the last
      "github.com/". */
  lemma PagesOwnerUrl(base: string, repo: string, num: string)
    ensures PrUrlText(base + "github.com", repo, num)
         == (GithubPrefix + base) + "github.com/" + (repo + "/pull/" + num)
  {
  }

  /** A "github.com/" in `x + "/" + y` lies inside `y` when `x` holds no
      '/' and does not end in "github.com". */
  lemma GithubSepAfterSlash(x: string, y: string)
    requires '/' !in x && !IsSuffix("github.com", x) && !Contains(y, "github.com/")
    ensures !Contains(x + "/" + y, "github.com/")
  {
    var s := x + "/" + y;
    var g := "github.com/";
    assert g[..10] == "github.com" && '/' !in "github.com";
    forall p | 0 <= p <= |s| - |g| ensures !OccursAt(s, g, p) {
      var w := s[p..p + 11];
      if p + 10 < |x| {
        assert w[10] == x[p + 10] && w[10] != g[10];
      } else if p + 10 == |x| {
        assert w[..10] == x[|x| - 10..] && w[..10] != g[..10];
      } else if p <= |x| {
        assert w[|x| - p] == '/' && g[|x| - p] != '/';
      } else {
        assert w == y[p - |x| - 1..p - |x| + 10];
        assert !OccursAt(y, g, p - |x| - 1);
      }
    }
  }

  /** Digit text holds no "github.com/". */
  lemma DigitsNoGithubSep(num: string)
    requires AllDigits(num)
    ensures !Contains(num, "github.com/")
  {
    forall p | 0 <= p <= |num| - 11 ensures !OccursAt(num, "github.com/", p) {
      NotOccursAtHead(num, "github.com/", p);
    }
  }

  /** "repo/pull/num" holds no "github.com/" when the repository does not end
      in "github.com". */
  lemma RepoTailNoGithubSep(repo: string, num: string)
    requires '/' !in repo && !IsSuffix("github.com", repo) && AllDigits(num)
    ensures !Contains(repo + "/pull/" + num, "github.com/")
  {
    DigitsNoGithubSep(num);
    assert '/' !in "pull" && !IsSuffix("github.com", "pull");
    GithubSepAfterSlash("pull", num);
    assert "pull" + "/" + num == "pull/" + num;
    GithubSepAfterSlash(repo, "pull/" + num);
    assert repo + "/" + ("pull/" + num) == repo + "/pull/" + num;
  }

  /** The path after the URL's only "github.com/". */
  lemma PrPathNoGithubSep(owner: string, repo: string, num: string)
    requires '/' !in owner && '/' !in repo && AllDigits(num)
    requires !IsSuffix("github.com", owner) && !IsSuffix("github.com", repo)
    ensures !Contains(owner + "/" + repo + "/pull/" + num, "github.com/")
  {
    RepoTailNoGithubSep(repo, num);
    GithubSepAfterSlash(owner, repo + "/pull/" + num);
    assert owner + "/" + (repo + "/pull/" + num) == owner + "/" + repo + "/pull/" + num;
  }

  /** "owner/repo" holds no "/pull/" that starts before the real one, unless
      the repository is named "pull". */
  lemma OwnerRepoNoPullSep(owner: string, repo: string, num: string)
    requires '/' !in owner && '/' !in repo && repo != "pull"
    ensures var x := owner + "/" + repo;
      forall j :: 0 <= j < |x| ==> !OccursAt(x + "/pull/" + num, "/pull/", j)
  {
    var x := owner + "/" + repo;
    var s := x + "/pull/" + num;
    forall j | 0 <= j < |x| ensures !OccursAt(s, "/pull/", j) {
      if j != |owner| {
        assert s[j] == (if j < |owner| then owner[j] else repo[j - |owner| - 1]);
        NotOccursAtHead(s, "/pull/", j);
      } else {
        var w := s[j..j + 6];
        if j + 5 < |x| {
          assert w[5] == repo[4] && w[5] != "/pull/"[5];
        } else if j + 5 == |x| {
          var k :| 0 <= k < 4 && repo[k] != "pull"[k];
          assert w[1 + k] == repo[k] && "/pull/"[1 + k] == "pull"[k];
        } else {
          assert w[|x| - j] == '/' && "/pull/"[|x| - j] != '/';
        }
      }
    }
  }

  /** `x + "/pull/" + num` with no earlier "/pull/" splits into `x` and the
      number. */
  lemma PullSplit(x: string, num: string)
    requires AllDigits(num)
    requires forall j :: 0 <= j < |x| ==> !OccursAt(x + "/pull/" + num, "/pull/", j)
    ensures Split(x + "/pull/" + num, "/pull/") == [x, num]
  {
    var s := x + "/pull/" + num;
    assert s[|x|..|x| + 6] == "/pull/";
    FirstIndexIs(s, "/pull/", |x|);
    assert s[..|x|] == x && s[|x| + 6..] == num;
    forall p | 0 <= p <= |num| - 6 ensures !OccursAt(num, "/pull/", p) {
      NotOccursAtHead(num, "/pull/", p);
    }
    assert FirstIndex(num, "/pull/").None?;
  }

  /** Corrected: the repository part and the number are read off the match
      boundaries, as the pattern's groups would give them, so no repository
      name (not one ending in "github.com", not one named "pull") breaks the
      split. A URL that is not exactly one match is rejected. */
  function PrUrlParts(url: string): (r: Result<(string, int)>)
    ensures r.Ok? <==> PrUrlMatch(url, 0).Some? && PrUrlMatch(url, 0).value.end == |url|
    ensures r.Ok? ==> r.value.1 >= 0 && IsPrefix(GithubPrefix + r.value.0 + "/pull/", url)
  {
    match PrUrlMatch(url, 0)
    case Some(m) =>
      if m.end != |url| then Err(ValueError("not a pull request URL: " + url))
      else
        var ownerRepo := url[19..m.repoEnd];
        assert url[..19] == GithubPrefix;
        assert url[..m.repoEnd + 6] == url[..19] + ownerRepo + "/pull/";
        Ok((ownerRepo, DigitsValue(url[m.repoEnd + 6..])))
    case None => Err(ValueError("not a pull request URL: " + url))
  }

  /** Every URL `GetPrUrl` can return splits back into its "owner/repo" and
      number. */
  lemma PrUrlPartsRoundTrip(owner: string, repo: string, num: string)
    requires |owner| > 0 && '/' !in owner && |repo| > 0 && '/' !in repo
    requires |num| > 0 && AllDigits(num)
    ensures PrUrlParts(PrUrlText(owner, repo, num)) == Ok((owner + "/" + repo, DigitsValue(num)))
  {
    var url := PrUrlText(owner, repo, num);
    assert PrShapeAt(url, 0, owner, repo, num) by {
      assert url[0..] == url;
    }
    PrUrlMatchComplete(url, 0, owner, repo, num);
    var m := PrUrlMatch(url, 0).value;
    PrUrlPartsOfMatch(url, m);
    PrUrlTextParts(owner, repo, num);
  }

  /** The parts of a URL that is exactly one match, read off its
      boundaries. */
  lemma PrUrlPartsOfMatch(url: string, m: PrMatch)
    requires PrUrlMatch(url, 0) == Some(m) && m.end == |url|
    ensures PrUrlParts(url) == Ok((url[19..m.repoEnd], DigitsValue(url[m.repoEnd + 6..])))
  {
  }

  /** The split succeeds exactly on the URLs `GetPrUrl` can return. */
  lemma PrUrlPartsOkIff(url: string)
    ensures PrUrlParts(url).Ok? <==> IsPrUrl(url)
  {
    if PrUrlParts(url).Ok? {
      PrUrlMatchSound(url, 0);
      var m := PrUrlMatch(url, 0).value;
      assert url[0..m.end] == url;
    }
    if IsPrUrl(url) {
      var owner, repo, num :| && |owner| > 0 && '/' !in owner
                              && |repo| > 0 && '/' !in repo
                              && |num| > 0 && AllDigits(num)
                              && url == PrUrlText(owner, repo, num);
      PrUrlPartsRoundTrip(owner, repo, num);
    }
  }

  /** Whatever `GetPrUrl` finds splits into its "owner/repo" and number. */
  lemma GetPrUrlParts(text: string)
    requires GetPrUrl(text).Some?
    ensures PrUrlParts(GetPrUrl(text).value).Ok?
  {
    PrUrlPartsOkIff(GetPrUrl(text).value);
  }
}
