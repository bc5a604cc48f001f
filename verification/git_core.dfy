/** The git helpers of `git_utils/core.py` over an abstract local clone:
    `add_and_commit`, `push_commits`, `set_git_config` and
    `create_and_push_branch`. Each returns the git commands it issues as a
    trace; the commands themselves are assumed to succeed. */
module GitCore {
  import opened Wrappers
  import opened Strings
  import opened GitEffects
  import opened GithubApi

  /** A local clone as the helpers see it. `originRefs` are origin's
      remote-tracking branches as a fetch leaves them, by branch name, with
      the commit each points at. */
  datatype LocalRepo = LocalRepo(
    bare: bool,
    detached: bool,
    activeBranch: string,
    dirty: bool,
    heads: set<string>,
    headCommit: string,
    originUrl: string,
    upstreamUrl: Option<string>,
    originRefs: map<string, string>)

  const FallbackCommitMessage := "agent bot commit"

  // ---------------------------------------------------------------------
  // add_and_commit
  // ---------------------------------------------------------------------

  /** `add_and_commit`; `generated` is what the commit-message generator
      returns (None when it fails). */
  function AddAndCommit(repo: LocalRepo, generated: Option<string>): (t: Traced<()>)
    ensures t.result.Ok?
    ensures StageAll in t.ops <==> repo.dirty
    ensures GenerateMessage in t.ops <==> repo.dirty
    ensures Commits(t.ops) <==> repo.dirty
    ensures forall k :: 0 <= k < |t.ops| && t.ops[k].Commit? ==>
              && k == |t.ops| - 1
              && StageAll in t.ops[..k]
              && t.ops[k].message == generated.GetOr(FallbackCommitMessage)
  {
    if repo.dirty then
      var ops := [StageAll, GenerateMessage, Commit(generated.GetOr(FallbackCommitMessage))];
      assert ops[2].Commit?;
      assert ops[..2] == [StageAll, GenerateMessage];
      Traced(ops, Ok(()))
    else Traced([], Ok(()))
  }

  // ---------------------------------------------------------------------
  // push_commits
  // ---------------------------------------------------------------------

  /** The origin URL with the token as credentials, when it names GitHub:
      trailing '/' dropped, and everything up to the last "github.com/"
      replaced by "https://{token}@github.com/". */
  function CredentialUrl(token: string, url: string): (r: Option<string>)
    ensures r.Some? <==> Contains(RStripChar(url, '/'), "github.com/")
    ensures r.Some? ==> IsPrefix("https://" + token + "@github.com/", r.value)
  {
    var u := RStripChar(url, '/');
    if Contains(u, "github.com/") then
      var r := "https://" + token + "@github.com/" + LastPiece(u, "github.com/");
      assert r[..|"https://" + token + "@github.com/"|] == "https://" + token + "@github.com/";
      Some(r)
    else None
  }

  /** HEAD differs from the origin copy of the current branch, which exists. */
  predicate Ahead(repo: LocalRepo) {
    repo.activeBranch in repo.originRefs && repo.headCommit != repo.originRefs[repo.activeBranch]
  }

  /** `push_commits`: re-point origin at the credential URL, fetch, and push
      when HEAD is ahead of its origin copy. */
  function PushCommits(repo: LocalRepo, token: string): (t: Traced<bool>)
    ensures t.result.Ok?
    ensures repo.detached ==> t.ops == [] && !t.result.value
    ensures Pushes(t.ops) <==> t.result.value
    ensures t.result.value <==> !repo.detached && Ahead(repo)
    ensures CountPushes(t.ops) <= 1
  {
    if repo.detached then Traced([], Ok(false))
    else
      var cred := CredentialUrl(token, repo.originUrl);
      var setup := (if cred.Some? then [SetRemoteUrl("origin", cred.value)] else []) + [Fetch("origin")];
      assert !Pushes(setup);
      if Ahead(repo) then
        var ops := setup + [Push("origin", "", false)];
        assert ops[|ops| - 1].Push?;
        CountPushesAppend(setup, [Push("origin", "", false)]);
        assert [Push("origin", "", false)][1..] == [];
        Traced(ops, Ok(true))
      else Traced(setup, Ok(false))
  }

  lemma RStripSlashOnce(x: string)
    requires |x| > 0 && x[|x| - 1] != '/'
    ensures RStripChar(x + "/", '/') == x
  {
    assert (x + "/")[..|x|] == x;
  }

  /** A GitHub URL with a trailing '/' becomes the credential URL of its
      path. */
  lemma CredentialUrlOfGithub(token: string, path: string)
    requires |path| > 0 && path[|path| - 1] != '/'
    requires !Contains(path, "github.com/")
    ensures CredentialUrl(token, "https://github.com/" + path + "/")
            == Some("https://" + token + "@github.com/" + path)
  {
    var u := "https://github.com/" + path;
    assert u[|u| - 1] == '/' ==> false by {
      assert u[|u| - 1] == path[|path| - 1];
    }
    RStripSlashOnce(u);
    assert u == "https://" + "github.com/" + path;
    GithubSepFirst();
    LastPieceIsTail("https://", "github.com/", path);
    assert OccursAt(u, "github.com/", 8) by {
      assert u[8..19] == "github.com/";
    }
  }

  /** A URL that does not name GitHub is left as it is. */
  lemma CredentialUrlOther(token: string, url: string)
    requires !Contains(url, "github.com/")
    ensures CredentialUrl(token, url).None?
  {
    var u := RStripChar(url, '/');
    if Contains(u, "github.com/") {
      var i :| 0 <= i <= |u| - 11 && OccursAt(u, "github.com/", i);
      assert u == url[..|u|];
      assert url[i..i + 11] == u[i..i + 11];
      assert OccursAt(url, "github.com/", i);
      assert false;
    }
  }

  // ---------------------------------------------------------------------
  // set_git_config
  // ---------------------------------------------------------------------

  /** `set_git_config`: the user name and e-mail of the clone, and nothing
      else. */
  function SetGitConfig(username: string, email: string): (t: Traced<()>)
    ensures t.result.Ok?
    ensures forall k :: 0 <= k < |t.ops| ==> t.ops[k].SetConfig? && t.ops[k].section == "user"
    ensures SetConfig("user", "name", username) in t.ops
    ensures SetConfig("user", "email", email) in t.ops
    ensures |t.ops| == 2
  {
    Traced([SetConfig("user", "name", username), SetConfig("user", "email", email)], Ok(()))
  }

  // ---------------------------------------------------------------------
  // create_and_push_branch
  // ---------------------------------------------------------------------

  /** The branch names `ref.name.split("/")[-1]` leaves of origin's
      remote-tracking refs ("origin/<branch>"). */
  function RemoteBranchNames(refs: map<string, string>): set<string> {
    set b | b in refs :: LastPiece("origin/" + b, "/")
  }

  lemma LastPieceNoSep(x: string)
    requires '/' !in x
    ensures LastPiece("origin/" + x, "/") == x
  {
    CharWitness(x, "/", '/');
    assert "origin/" + x == "origin" + "/" + x;
    LastPieceIsTail("origin", "/", x);
  }

  /** A branch without '/' is seen on the remote when origin has it; a
      branch with '/' is never seen there. */
  lemma RemoteBranchNamesOf(refs: map<string, string>, branch: string)
    ensures '/' !in branch && branch in refs ==> branch in RemoteBranchNames(refs)
    ensures '/' in branch ==> branch !in RemoteBranchNames(refs)
  {
    if '/' !in branch && branch in refs {
      LastPieceNoSep(branch);
    }
    if '/' in branch && branch in RemoteBranchNames(refs) {
      var b :| b in refs && LastPiece("origin/" + b, "/") == branch;
      var k :| 0 <= k < |branch| && branch[k] == '/';
      assert OccursAt(branch, "/", k);
      assert false;
    }
  }

  /** What follows the sync and fetch: reuse a local branch, track a
      remote-only one, or create it; check it out; pull it if origin has it;
      push it with upstream tracking if origin lacks it and the origin URL is
      recognised. */
  function BranchOps(branch: string, isLocal: bool, inRemote: bool, pathOk: bool): seq<GitOp> {
    (if isLocal then []
     else if inRemote then [CheckoutTracking("origin/" + branch, branch)]
     else [CreateHead(branch)])
    + [Checkout(branch)]
    + (if inRemote then [Pull("origin", branch)] else [])
    + (if !pathOk || inRemote then [] else [Push("origin", branch + ":" + branch, true)])
  }

  /** The world `sync_fork_with_upstream` sees for this clone. */
  function SyncWorldOf(repo: LocalRepo, github: map<string, RemoteRepo>): SyncWorld {
    SyncWorld(repo.originUrl, repo.upstreamUrl, github)
  }

  /** `create_and_push_branch`: sync the fork, fetch, then the branch steps.
      Every exception is logged and swallowed. */
  function CreateAndPushBranch(repo: LocalRepo, github: map<string, RemoteRepo>, branch: string,
                               token: string): (t: Traced<()>)
    ensures t.result.Ok?
    ensures var sync := SyncForkWithUpstream(SyncWorldOf(repo, github), token).ops;
      |sync| <= |t.ops| && t.ops[..|sync|] == sync
  {
    var sync := SyncForkWithUpstream(SyncWorldOf(repo, github), token);
    if sync.result.Err? then Traced(sync.ops, Ok(()))
    else
      var fetched := sync.ops + [Fetch("origin")];
      if repo.bare then Traced(fetched, Ok(()))
      else
        var inRemote := branch in RemoteBranchNames(repo.originRefs);
        var origin := RemoteUrlAfter(sync.ops, "origin", repo.originUrl);
        var ops := fetched + BranchOps(branch, branch in repo.heads, inRemote, RemotePath(origin).Some?);
        assert ops[..|sync.ops|] == sync.ops;
        Traced(ops, Ok(()))
  }

  /** Sync never checks out a tracking branch, creates a head, pulls, or
      pushes with upstream tracking. */
  lemma SyncOpsKinds(w: SyncWorld, token: string, branch: string)
    ensures var sync := SyncForkWithUpstream(w, token).ops;
      && CreateHead(branch) !in sync
      && CheckoutTracking("origin/" + branch, branch) !in sync
      && Pull("origin", branch) !in sync
      && Push("origin", branch + ":" + branch, true) !in sync
  {
    var sync := SyncForkWithUpstream(w, token).ops;
    forall k | 0 <= k < |sync|
      ensures !sync[k].CreateHead? && !sync[k].CheckoutTracking? && !sync[k].Pull?
      ensures !(sync[k].Push? && sync[k].setUpstream)
    {
    }
  }

  /** The branch steps in terms of the three facts they depend on. */
  lemma BranchOpsPolicy(branch: string, isLocal: bool, inRemote: bool, pathOk: bool)
    ensures var ops := BranchOps(branch, isLocal, inRemote, pathOk);
      && (CreateHead(branch) in ops <==> !isLocal && !inRemote)
      && (CheckoutTracking("origin/" + branch, branch) in ops <==> !isLocal && inRemote)
      && (Pull("origin", branch) in ops <==> inRemote)
      && (Push("origin", branch + ":" + branch, true) in ops <==> !inRemote && pathOk)
  {
  }

  /** Once the sync has gone through on a non-bare clone, the branch is
      reused if local, checked out from origin if only origin has it, and
      created otherwise; it is pulled exactly when origin has it, and pushed
      with upstream tracking exactly when origin lacks it and the origin URL
      is recognised. */
  lemma CreateAndPushBranchPolicy(repo: LocalRepo, github: map<string, RemoteRepo>, branch: string,
                                  token: string)
    requires SyncForkWithUpstream(SyncWorldOf(repo, github), token).result.Ok?
    requires !repo.bare
    ensures var ops := CreateAndPushBranch(repo, github, branch, token).ops;
      var inRemote := branch in RemoteBranchNames(repo.originRefs);
      var sync := SyncForkWithUpstream(SyncWorldOf(repo, github), token).ops;
      var origin := RemoteUrlAfter(sync, "origin", repo.originUrl);
      && (CreateHead(branch) in ops <==> branch !in repo.heads && !inRemote)
      && (CheckoutTracking("origin/" + branch, branch) in ops <==> branch !in repo.heads && inRemote)
      && (Pull("origin", branch) in ops <==> inRemote)
      && (Push("origin", branch + ":" + branch, true) in ops <==> !inRemote && RemotePath(origin).Some?)
  {
    var sync := SyncForkWithUpstream(SyncWorldOf(repo, github), token).ops;
    var inRemote := branch in RemoteBranchNames(repo.originRefs);
    var pathOk := RemotePath(RemoteUrlAfter(sync, "origin", repo.originUrl)).Some?;
    var tail := BranchOps(branch, branch in repo.heads, inRemote, pathOk);
    SyncOpsKinds(SyncWorldOf(repo, github), token, branch);
    BranchOpsPolicy(branch, branch in repo.heads, inRemote, pathOk);
    assert CreateAndPushBranch(repo, github, branch, token).ops == sync + [Fetch("origin")] + tail;
  }

  /** A new branch (neither local nor among origin's branch names) of a clone whose sync goes
      through is created, checked out and pushed with upstream tracking. */
  lemma CreateAndPushBranchPushesNew(repo: LocalRepo, github: map<string, RemoteRepo>, branch: string,
                                     token: string)
    requires SyncForkWithUpstream(SyncWorldOf(repo, github), token).result.Ok?
    requires !repo.bare && branch !in repo.heads && branch !in RemoteBranchNames(repo.originRefs)
    requires RemotePath(RemoteUrlAfter(SyncForkWithUpstream(SyncWorldOf(repo, github), token).ops,
                                       "origin", repo.originUrl)).Some?
    ensures var ops := CreateAndPushBranch(repo, github, branch, token).ops;
      CreateHead(branch) in ops && Push("origin", branch + ":" + branch, true) in ops
  {
    CreateAndPushBranchPolicy(repo, github, branch, token);
  }
}
