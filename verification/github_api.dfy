/** `sync_fork_with_upstream`: bring a local clone of a fork up to date with
    the repository it was forked from.

    The GitHub API is a map from repository path to what the API knows of it
    (its parent when it is a fork); a path missing from the map is one
    `get_repo` raises for. The local clone is its origin URL and the URL of
    its "upstream" remote, if it has one. The git commands and API lookups
    are returned as a trace. */
module GithubApi {
  import opened Wrappers
  import opened Strings
  import opened GitEffects

  /** The repository a fork was made from. */
  datatype ParentRepo = ParentRepo(cloneUrl: string, defaultBranch: string)

  /** What the GitHub API reports for a repository. */
  datatype RemoteRepo = RemoteRepo(parent: Option<ParentRepo>)

  /** The local clone and the GitHub repositories it can see. */
  datatype SyncWorld = SyncWorld(
    originUrl: string,
    upstreamUrl: Option<string>,
    github: map<string, RemoteRepo>)

  /** The "owner/repo" path of a remote URL: after the last "github.com/"
      for https URLs, after the last ':' for "git@" URLs, without one
      ".git"; any other scheme has none. */
  function RemotePath(url: string): (r: Option<string>)
    ensures r.Some? <==> IsPrefix("https://", url) || IsPrefix("git@", url)
  {
    if IsPrefix("https://", url) then Some(RemoveSuffix(LastPiece(url, "github.com/"), ".git"))
    else if IsPrefix("git@", url) then Some(RemoveSuffix(LastPiece(url, ":"), ".git"))
    else None
  }

  /** The origin URL with the token as credentials:
      `f"https://{token}@{url.split('://')[-1]}"`. */
  function TokenUrl(token: string, url: string): (r: string)
    ensures IsPrefix("https://" + token + "@", r)
  {
    "https://" + token + "@" + LastPiece(url, "://")
  }

  /** Reuse the "upstream" remote, re-pointing it only when its URL
      differs, or create it. */
  function UpstreamOps(existing: Option<string>, url: string): seq<GitOp> {
    match existing
    case None => [CreateRemote("upstream", url)]
    case Some(u) => if u != url then [SetRemoteUrl("upstream", url)] else []
  }

  /** The merge and push of a fork onto its parent's default branch. */
  function MergeOps(w: SyncWorld, token: string, p: ParentRepo): seq<GitOp> {
    UpstreamOps(w.upstreamUrl, p.cloneUrl)
    + [Fetch("upstream"), Checkout(p.defaultBranch), Merge("upstream/" + p.defaultBranch)]
    + (if IsPrefix("https://", w.originUrl) then [SetRemoteUrl("origin", TokenUrl(token, w.originUrl))] else [])
    + [Push("origin", p.defaultBranch, false)]
  }

  /** `sync_fork_with_upstream`. */
  function SyncForkWithUpstream(w: SyncWorld, token: string): (t: Traced<()>)
    ensures RemotePath(w.originUrl).None? ==> t == Traced([], Err(ValueError("Unrecognized remote URL format")))
    ensures RemotePath(w.originUrl).Some? ==> |t.ops| > 0 && t.ops[0] == LookupRepo(RemotePath(w.originUrl).value)
    ensures t.result.Ok? <==> RemotePath(w.originUrl).Some? && RemotePath(w.originUrl).value in w.github
  {
    match RemotePath(w.originUrl)
    case None => Traced([], Err(ValueError("Unrecognized remote URL format")))
    case Some(path) =>
      if path !in w.github then Traced([LookupRepo(path)], Err(Raised("repository not found: " + path)))
      else match w.github[path].parent
        case None => Traced([LookupRepo(path)], Ok(()))
        case Some(p) => Traced([LookupRepo(path)] + MergeOps(w, token, p), Ok(()))
  }

  // ---------------------------------------------------------------------
  // The repository path of the origin
  // ---------------------------------------------------------------------

  lemma GithubSepFirst()
    ensures 'g' !in "github.com/"[1..]
  {
  }

  /** An https origin is looked up by the path after "github.com/", less
      one ".git". */
  lemma RemotePathHttps(tail: string)
    requires !Contains(tail, "github.com/")
    ensures RemotePath("https://github.com/" + tail) == Some(RemoveSuffix(tail, ".git"))
  {
    var u := "https://github.com/" + tail;
    assert u == "https://" + "github.com/" + tail;
    assert u[..8] == "https://";
    GithubSepFirst();
    LastPieceIsTail("https://", "github.com/", tail);
  }

  /** A "git@" origin is looked up by the path after the last ':', less one
      ".git". */
  lemma RemotePathSsh(tail: string)
    requires ':' !in tail
    ensures RemotePath("git@github.com:" + tail) == Some(RemoveSuffix(tail, ".git"))
  {
    var u := "git@github.com:" + tail;
    assert u == "git@github.com" + ":" + tail;
    assert u[..8] != "https://" by {
      assert u[0] == 'g';
    }
    assert u[..4] == "git@";
    CharWitness(tail, ":", ':');
    LastPieceIsTail("git@github.com", ":", tail);
  }

  /** An origin with any other scheme raises before anything is looked up. */
  lemma SyncRejectsOtherScheme(w: SyncWorld, token: string)
    requires !IsPrefix("https://", w.originUrl) && !IsPrefix("git@", w.originUrl)
    ensures SyncForkWithUpstream(w, token).ops == []
    ensures SyncForkWithUpstream(w, token).result == Err(ValueError("Unrecognized remote URL format"))
  {
  }

  // ---------------------------------------------------------------------
  // What happens to a fork and to a non-fork
  // ---------------------------------------------------------------------

  /** A repository that is not a fork is only looked up: no checkout, merge
      or push. */
  lemma SyncNonFork(w: SyncWorld, token: string, path: string)
    requires RemotePath(w.originUrl) == Some(path)
    requires path in w.github && w.github[path].parent.None?
    ensures var t := SyncForkWithUpstream(w, token);
      && t.result.Ok?
      && !Pushes(t.ops)
      && forall k :: 0 <= k < |t.ops| ==> !t.ops[k].Checkout? && !t.ops[k].Merge?
  {
  }

  /** The merge steps sit right after the upstream remote set-up, and the
      one push comes last. */
  lemma MergeOpsShape(w: SyncWorld, token: string, p: ParentRepo)
    ensures var m := MergeOps(w, token, p);
      var j := |UpstreamOps(w.upstreamUrl, p.cloneUrl)|;
      && j + 4 <= |m|
      && m[j] == Fetch("upstream")
      && m[j + 1] == Checkout(p.defaultBranch)
      && m[j + 2] == Merge("upstream/" + p.defaultBranch)
      && m[|m| - 1] == Push("origin", p.defaultBranch, false)
      && CountPushes(m) == 1
  {
    var up := UpstreamOps(w.upstreamUrl, p.cloneUrl);
    var mid := [Fetch("upstream"), Checkout(p.defaultBranch), Merge("upstream/" + p.defaultBranch)];
    var org := if IsPrefix("https://", w.originUrl) then [SetRemoteUrl("origin", TokenUrl(token, w.originUrl))] else [];
    var push := [Push("origin", p.defaultBranch, false)];
    var front := up + mid + org;
    assert MergeOps(w, token, p) == front + push;
    assert !Pushes(front) by {
      forall k | 0 <= k < |front| ensures !front[k].Push? {
        if k < |up| {
          assert front[k] == up[k];
        } else if k < |up| + 3 {
          assert front[k] == mid[k - |up|];
        } else {
          assert front[k] == org[k - |up| - 3];
        }
      }
    }
    assert CountPushes(push) == 1 by {
      assert push[1..] == [];
    }
    CountPushesAppend(front, push);
  }

  /** A fork checks out its parent's default branch, merges the upstream
      copy of it, and ends by pushing that branch to origin, the only push. */
  lemma SyncFork(w: SyncWorld, token: string, path: string, p: ParentRepo)
    requires RemotePath(w.originUrl) == Some(path)
    requires path in w.github && w.github[path].parent == Some(p)
    ensures var t := SyncForkWithUpstream(w, token);
      && t.result.Ok?
      && (exists i :: 0 <= i < |t.ops| - 3
            && t.ops[i] == Fetch("upstream")
            && t.ops[i + 1] == Checkout(p.defaultBranch)
            && t.ops[i + 2] == Merge("upstream/" + p.defaultBranch))
      && t.ops[|t.ops| - 1] == Push("origin", p.defaultBranch, false)
      && CountPushes(t.ops) == 1
  {
    var t := SyncForkWithUpstream(w, token);
    var m := MergeOps(w, token, p);
    MergeOpsShape(w, token, p);
    assert t.ops == [LookupRepo(path)] + m;
    var i := 1 + |UpstreamOps(w.upstreamUrl, p.cloneUrl)|;
    assert t.ops[i] == Fetch("upstream");
    assert t.ops[i + 1] == Checkout(p.defaultBranch);
    assert t.ops[i + 2] == Merge("upstream/" + p.defaultBranch);
    assert CountPushes([LookupRepo(path)]) == 0 by {
      assert [LookupRepo(path)][1..] == [];
    }
    CountPushesAppend([LookupRepo(path)], m);
  }

  /** The "upstream" remote is created exactly when the clone has none, and
      re-pointed exactly when it has one with another URL. */
  lemma SyncUpstreamRemote(w: SyncWorld, token: string, path: string, p: ParentRepo)
    requires RemotePath(w.originUrl) == Some(path)
    requires path in w.github && w.github[path].parent == Some(p)
    ensures var ops := SyncForkWithUpstream(w, token).ops;
      && (CreateRemote("upstream", p.cloneUrl) in ops <==> w.upstreamUrl.None?)
      && (SetRemoteUrl("upstream", p.cloneUrl) in ops <==>
            w.upstreamUrl.Some? && w.upstreamUrl.value != p.cloneUrl)
  {
    var ops := SyncForkWithUpstream(w, token).ops;
    var up := UpstreamOps(w.upstreamUrl, p.cloneUrl);
    var rest := [Fetch("upstream"), Checkout(p.defaultBranch), Merge("upstream/" + p.defaultBranch)]
      + (if IsPrefix("https://", w.originUrl) then [SetRemoteUrl("origin", TokenUrl(token, w.originUrl))] else [])
      + [Push("origin", p.defaultBranch, false)];
    assert ops == [LookupRepo(path)] + up + rest;
    assert CreateRemote("upstream", p.cloneUrl) !in rest;
    assert SetRemoteUrl("upstream", p.cloneUrl) !in rest;
  }

  /** The origin gets the token in its URL only when it is an https URL. */
  lemma SyncOriginToken(w: SyncWorld, token: string, path: string, p: ParentRepo)
    requires RemotePath(w.originUrl) == Some(path)
    requires path in w.github && w.github[path].parent == Some(p)
    ensures SetRemoteUrl("origin", TokenUrl(token, w.originUrl)) in SyncForkWithUpstream(w, token).ops
            <==> IsPrefix("https://", w.originUrl)
  {
    var ops := SyncForkWithUpstream(w, token).ops;
    var up := UpstreamOps(w.upstreamUrl, p.cloneUrl);
    var mid := [Fetch("upstream"), Checkout(p.defaultBranch), Merge("upstream/" + p.defaultBranch)];
    var org := if IsPrefix("https://", w.originUrl) then [SetRemoteUrl("origin", TokenUrl(token, w.originUrl))] else [];
    var push := [Push("origin", p.defaultBranch, false)];
    assert ops == [LookupRepo(path)] + up + mid + org + push;
    assert SetRemoteUrl("origin", TokenUrl(token, w.originUrl)) !in up;
  }
}
