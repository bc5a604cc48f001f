/** The older helpers of `utils/git.py`, the ones the instance pipeline
    calls: `push_commits`, `create_and_push_branch`, `get_last_pr_comments`,
    `add_pr_comments_to_background` and `add_aider_logs_as_pr_comments`.
    Its `find_github_repo_url`, `fork_repo`, `extract_repo_name_from_url`,
    `get_pr_url`, `set_git_config` and `create_pull_request` are the same
    code as their `git_utils` counterparts and are modelled once, there. */
module GitLegacy {
  import opened Wrappers
  import opened Strings
  import opened GitEffects
  import opened GithubApi
  import opened GithubUrls
  import opened PrManagement
  import GitCore
  import CommandBuilder

  // ---------------------------------------------------------------------
  // push_commits
  // ---------------------------------------------------------------------

  /** The branch HEAD is compared against: "main" when the clone has a
      local "main", "master" otherwise. */
  function MainBranch(heads: set<string>): string {
    if "main" in heads then "main" else "master"
  }

  /** The origin URL with the token spliced in after "https://". */
  function LegacyCredentialUrl(token: string, url: string): string {
    ReplaceAll(url, GithubPrefix, "https://" + token + "@github.com/")
  }

  /** `push_commits` of `git.py`: push the current branch under its own name
      with upstream tracking when HEAD differs from origin's main branch.
      A missing origin main branch raises (re-raised). */
  function LegacyPushCommits(repo: GitCore.LocalRepo, token: string): (t: Traced<bool>)
    ensures repo.detached ==> t == Traced([], Ok(false))
    ensures t.result.Err? <==> !repo.detached && MainBranch(repo.heads) !in repo.originRefs
    ensures t.result.Err? ==> t.result.error == IndexError && t.ops == []
    ensures t.result == Ok(true) <==> Pushes(t.ops)
    ensures t.result == Ok(true) <==>
              && !repo.detached
              && MainBranch(repo.heads) in repo.originRefs
              && repo.headCommit != repo.originRefs[MainBranch(repo.heads)]
    ensures Pushes(t.ops) ==>
              && CountPushes(t.ops) == 1
              && t.ops[|t.ops| - 1] == Push("origin", repo.activeBranch + ":" + repo.activeBranch, true)
    ensures (exists k :: 0 <= k < |t.ops| && t.ops[k].SetRemoteUrl?) <==>
              Pushes(t.ops) && IsPrefix(GithubPrefix, repo.originUrl)
  {
    if repo.detached then Traced([], Ok(false))
    else
      var main := MainBranch(repo.heads);
      if main !in repo.originRefs then Traced([], Err(IndexError))
      else if repo.headCommit == repo.originRefs[main] then Traced([], Ok(false))
      else
        var cur := repo.activeBranch;
        var setUrl := if IsPrefix(GithubPrefix, repo.originUrl)
                      then [SetRemoteUrl("origin", LegacyCredentialUrl(token, repo.originUrl))]
                      else [];
        var push := [Push("origin", cur + ":" + cur, true)];
        assert !Pushes(setUrl);
        assert push[1..] == [];
        CountPushesAppend(setUrl, push);
        var ops := setUrl + push;
        assert ops[|ops| - 1] == push[0];
        Traced(ops, Ok(true))
  }

  /** A plain GitHub https URL gets the token as its credentials. */
  lemma LegacyCredentialUrlOfGithub(token: string, tail: string)
    requires !Contains(tail, GithubPrefix)
    ensures LegacyCredentialUrl(token, GithubPrefix + tail) == "https://" + token + "@github.com/" + tail
  {
    var s := GithubPrefix + tail;
    assert IsPrefix(GithubPrefix, s);
    assert s[|GithubPrefix|..] == tail;
  }

  /** The two versions agree on a plain GitHub https URL without a trailing
      '/': both put the token in as credentials. */
  lemma CredentialUrlsAgree(token: string, path: string)
    requires |path| > 0 && path[|path| - 1] != '/'
    requires !Contains(path, "github.com/")
    ensures GitCore.CredentialUrl(token, GithubPrefix + path)
            == Some(LegacyCredentialUrl(token, GithubPrefix + path))
  {
    assert !Contains(path, GithubPrefix) by {
      if Contains(path, GithubPrefix) {
        assert GithubPrefix == "https://" + "github.com/";
        ContainsTail(path, "https://", "github.com/");
      }
    }
    LegacyCredentialUrlOfGithub(token, path);
    GitCore.CredentialUrlOfGithub(token, path);
    var u := GithubPrefix + path;
    assert RStripChar(u + "/", '/') == u by {
      GitCore.RStripSlashOnce(u);
    }
    assert RStripChar(u, '/') == u;
  }

  /** A text that contains `x + y` contains `y`. */
  lemma ContainsTail(s: string, x: string, y: string)
    requires Contains(s, x + y)
    ensures Contains(s, y)
  {
    var i :| 0 <= i <= |s| - |x + y| && OccursAt(s, x + y, i);
    assert s[i + |x|..i + |x| + |y|] == (x + y)[|x|..];
    assert OccursAt(s, y, i + |x|);
  }

  /** Unlike `GitCore.PushCommits`, this version looks only at origin's main
      branch: HEAD is pushed even when origin's copy of the current branch
      already has it, and is not pushed when it equals origin's main. */
  lemma LegacyPushIgnoresCurrentBranchRef(repo: GitCore.LocalRepo, token: string)
    requires !repo.detached && repo.activeBranch != MainBranch(repo.heads)
    requires MainBranch(repo.heads) in repo.originRefs
    requires repo.headCommit == repo.originRefs[MainBranch(repo.heads)]
    requires repo.activeBranch in repo.originRefs && repo.originRefs[repo.activeBranch] != repo.headCommit
    ensures LegacyPushCommits(repo, token).result == Ok(false)
    ensures GitCore.PushCommits(repo, token).result == Ok(true)
  {
  }

  // ---------------------------------------------------------------------
  // create_and_push_branch
  // ---------------------------------------------------------------------

  const HeadsPrefix := "refs/heads/"

  /** `[ref.ref.replace("refs/heads/", "") for ref in refs]`. */
  function RemoteBranchList(refs: seq<string>): (r: seq<string>)
    ensures |r| == |refs|
  {
    seq(|refs|, k requires 0 <= k < |refs| => ReplaceAll(refs[k], HeadsPrefix, ""))
  }

  /** The checkout steps: create the branch unless local, then check it
      out. */
  function LocalCheckoutOps(repo: GitCore.LocalRepo, branch: string): seq<GitOp> {
    (if branch in repo.heads then [] else [CreateHead(branch)]) + [Checkout(branch)]
  }

  /** `create_and_push_branch` of `git.py`. It pulls the branch from origin
      before asking GitHub whether the branch exists there; pulling a branch
      origin lacks raises, and like every other exception that is logged and
      swallowed. The clone's remote-tracking refs stand for origin's
      branches. */
  function LegacyCreateAndPushBranch(repo: GitCore.LocalRepo, gh: Github, branch: string,
                                     token: string): (t: Traced<()>)
    ensures t.result.Ok?
    ensures repo.bare ==> t.ops == []
    ensures !repo.bare ==> var co := LocalCheckoutOps(repo, branch);
      |co| < |t.ops| && t.ops[..|co|] == co && t.ops[|co|] == Pull("origin", branch)
  {
    if repo.bare then Traced([], Ok(()))
    else
      var pulled := LocalCheckoutOps(repo, branch) + [Pull("origin", branch)];
      if branch !in repo.originRefs then Traced(pulled, Ok(()))
      else match RemotePath(repo.originUrl)
        case None => Traced(pulled, Ok(()))
        case Some(path) =>
          var looked := pulled + [LookupRepo(path)];
          assert looked[..|pulled|] == pulled;
          if path !in gh.repos || branch in RemoteBranchList(gh.repos[path].refs) then Traced(looked, Ok(()))
          else
            var ops := looked + [SetRemoteUrl("origin", TokenUrl(token, repo.originUrl)),
                                 Push("origin", branch + ":" + branch, true)];
            assert ops[..|pulled|] == pulled;
            Traced(ops, Ok(()))
  }

  /** A push happens only for a branch origin already has and yet GitHub
      does not list among the repository's branches. */
  lemma LegacyPushesOnlyUnlisted(repo: GitCore.LocalRepo, gh: Github, branch: string, token: string)
    ensures var ops := LegacyCreateAndPushBranch(repo, gh, branch, token).ops;
      Pushes(ops) ==>
        && branch in repo.originRefs
        && RemotePath(repo.originUrl).Some?
        && RemotePath(repo.originUrl).value in gh.repos
        && branch !in RemoteBranchList(gh.repos[RemotePath(repo.originUrl).value].refs)
  {
    var ops := LegacyCreateAndPushBranch(repo, gh, branch, token).ops;
    if !repo.bare && (branch !in repo.originRefs || RemotePath(repo.originUrl).None?
                      || RemotePath(repo.originUrl).value !in gh.repos
                      || branch in RemoteBranchList(gh.repos[RemotePath(repo.originUrl).value].refs)) {
      forall k | 0 <= k < |ops| ensures !ops[k].Push? {
      }
    }
  }

  /** Counterexample: a branch that is new both locally and on origin is
      created, checked out and pulled, the pull raises, and it is never
      pushed. */
  lemma LegacyNewBranchNeverPushed(repo: GitCore.LocalRepo, gh: Github, branch: string, token: string)
    requires !repo.bare && branch !in repo.heads && branch !in repo.originRefs
    ensures LegacyCreateAndPushBranch(repo, gh, branch, token).ops
            == [CreateHead(branch), Checkout(branch), Pull("origin", branch)]
    ensures !Pushes(LegacyCreateAndPushBranch(repo, gh, branch, token).ops)
  {
    var ops := LegacyCreateAndPushBranch(repo, gh, branch, token).ops;
    assert ops == [CreateHead(branch), Checkout(branch), Pull("origin", branch)];
    assert !ops[0].Push? && !ops[1].Push? && !ops[2].Push?;
  }

  // ---------------------------------------------------------------------
  // get_last_pr_comments
  // ---------------------------------------------------------------------

  /** The time of the latest comment as this version computes it: none
      without a conversation comment, whatever the review comments. */
  function LegacyLatestTime(pr: PullRequest): (r: Option<int>)
    ensures r.None? <==> |pr.issueComments| == 0
    ensures r.Some? ==> r.value >= pr.issueComments[|pr.issueComments| - 1].created
    ensures r.Some? && |pr.reviewComments| > 0 ==>
              r.value >= pr.reviewComments[|pr.reviewComments| - 1].created
    ensures r.Some? ==> r.value == pr.issueComments[|pr.issueComments| - 1].created
                        || (|pr.reviewComments| > 0 && r.value == pr.reviewComments[|pr.reviewComments| - 1].created)
  {
    if |pr.issueComments| == 0 then None
    else
      var t := pr.issueComments[|pr.issueComments| - 1].created;
      if |pr.reviewComments| > 0 && pr.reviewComments[|pr.reviewComments| - 1].created > t
      then Some(pr.reviewComments[|pr.reviewComments| - 1].created)
      else Some(t)
  }

  /** `get_last_pr_comments` of `git.py`: None (the source's False) without
      a conversation comment or when the latest commit is newer than the
      latest comment; otherwise the digest. The author of the latest
      comment is not looked at. */
  function LegacyGetLastPrComments(gh: Github, url: string): (r: Result<Option<string>>)
    ensures r.Err? <==> FindPull(gh, url).Err?
    ensures r.Ok? ==> var pr := FindPull(gh, url).value.2;
      (r.value.Some? <==>
         && |pr.issueComments| > 0
         && (|pr.commitDates| > 0 ==> pr.commitDates[|pr.commitDates| - 1] <= LegacyLatestTime(pr).value))
    ensures r.Ok? && r.value.Some? ==> r.value.value == Digest(FindPull(gh, url).value.2)
  {
    var (_, _, pr) :- FindPull(gh, url);
    match LegacyLatestTime(pr)
    case None => Ok(None)
    case Some(t) =>
      if |pr.commitDates| > 0 && pr.commitDates[|pr.commitDates| - 1] > t then Ok(None)
      else Ok(Some(Digest(pr)))
  }

  /** Both versions agree on the latest comment time whenever there is a
      conversation comment. */
  lemma LatestTimesAgree(pr: PullRequest)
    requires |pr.issueComments| > 0
    ensures LegacyLatestTime(pr) == Some(LatestComment(pr).value.Created())
  {
  }

  /** Review comments alone are ignored here, while the newer version
      reports them when someone else wrote the latest. */
  lemma LegacyIgnoresReviewOnly(gh: Github, url: string)
    requires FindPull(gh, url).Ok?
    requires var pr := FindPull(gh, url).value.2;
      |pr.issueComments| == 0 && |pr.reviewComments| > 0
      && pr.reviewComments[|pr.reviewComments| - 1].login != gh.me
    ensures LegacyGetLastPrComments(gh, url) == Ok(None)
    ensures GetLastPrComments(gh, url) == Ok(Some(Digest(FindPull(gh, url).value.2)))
  {
  }

  /** A commit newer than every comment means nothing is left to answer. */
  lemma LegacyStaleComments(gh: Github, url: string)
    requires FindPull(gh, url).Ok?
    requires var pr := FindPull(gh, url).value.2;
      && |pr.issueComments| > 0 && |pr.commitDates| > 0
      && pr.commitDates[|pr.commitDates| - 1] > pr.issueComments[|pr.issueComments| - 1].created
      && (|pr.reviewComments| > 0 ==>
            pr.commitDates[|pr.commitDates| - 1] > pr.reviewComments[|pr.reviewComments| - 1].created)
    ensures LegacyGetLastPrComments(gh, url) == Ok(None)
  {
  }

  // ---------------------------------------------------------------------
  // add_pr_comments_to_background
  // ---------------------------------------------------------------------

  const PrDetailsLabel := "PULL REQUEST DETAILS"

  const AssistantPieces: seq<string> := [
    "You are a helpful AI assistant ",
    "that implements code changes ",
    "based on pull request feedback."]
  const TaskPieces: seq<string> := [
    "Your task is to analyze the ",
    "issue description and ",
    "specifically address the ",
    "LAST comment in the pull ",
    "request."]
  const FocusPieces: seq<string> := [
    "Focus only on implementing ",
    "changes requested in the ",
    "most recent comment."]
  const ReviewPieces: seq<string> := [
    "1. Review the issue ",
    "description to understand ",
    "the context"]
  const AnalyzePieces: seq<string> := [
    "2. Analyze the pull request ",
    "diff and comments"]
  const ImplementPieces: seq<string> := [
    "3. Implement the necessary ",
    "code changes addressing the ",
    "feedback in the last comment"]
  const EnsurePieces: seq<string> := [
    "4. Ensure your changes ",
    "maintain code quality and ",
    "follow the project's standards"]

  /** The lines before the background, the label between background and
      pull-request details, and the lines after those. */
  datatype PrTemplate = PrTemplate(head: seq<string>, middle: string, tail: seq<string>)

  const SourceTemplate := PrTemplate(
    [CommandBuilder.InstructionsHeader,
     Concat(AssistantPieces),
     Concat(TaskPieces),
     Concat(FocusPieces),
     "",
     CommandBuilder.ContextHeader,
     CommandBuilder.IssueLabel],
    PrDetailsLabel,
    ["\n" + CommandBuilder.ActionsHeader,
     Concat(ReviewPieces),
     Concat(AnalyzePieces),
     Concat(ImplementPieces),
     Concat(EnsurePieces)])

  function TemplateLines(w: PrTemplate, background: string, prInfo: string): seq<string> {
    w.head + [background, w.middle, prInfo] + w.tail
  }

  /** `add_pr_comments_to_background`: the fixed lines with the background
      after "ISSUE DESCRIPTION" and the details after "PULL REQUEST
      DETAILS", joined by newlines. */
  function AddPrCommentsToBackground(background: string, prInfo: string): (r: string)
    ensures Contains(r, Join([CommandBuilder.IssueLabel, background, PrDetailsLabel, prInfo], "\n"))
  {
    var lines := TemplateLines(SourceTemplate, background, prInfo);
    assert lines[6..10] == [CommandBuilder.IssueLabel, background, PrDetailsLabel, prInfo];
    JoinContainsRun(lines, 6, 4, "\n");
    Join(lines, "\n")
  }

  /** The template lines hold no newline, except the first line after the
      details, which is a newline and a newline-free header. */
  predicate SingleLines(w: PrTemplate) {
    && |w.tail| > 0
    && (forall k :: 0 <= k < |w.head| ==> '\n' !in w.head[k])
    && '\n' !in w.middle
    && |w.tail[0]| > 0 && w.tail[0][0] == '\n' && '\n' !in w.tail[0][1..]
    && (forall k :: 1 <= k < |w.tail| ==> '\n' !in w.tail[k])
  }

  /** Splitting the text on newlines gives back the lines, the background
      and the details among them, with the header's leading newline as an
      empty line. */
  lemma TemplateSplit(w: PrTemplate, background: string, prInfo: string)
    requires SingleLines(w)
    requires '\n' !in background && '\n' !in prInfo
    ensures Split(Join(TemplateLines(w, background, prInfo), "\n"), "\n")
            == w.head + [background, w.middle, prInfo, "", w.tail[0][1..]] + w.tail[1..]
  {
    var a := w.head + [background, w.middle, prInfo];
    var h := w.tail[0][1..];
    assert w.tail[0] == "\n" + h;
    assert TemplateLines(w, background, prInfo) == a + ["\n" + h] + w.tail[1..];
    JoinLeadingSep(a, h, w.tail[1..], "\n");
    var lines := a + ["", h] + w.tail[1..];
    forall k | 0 <= k < |lines| ensures '\n' !in lines[k] {
      if k < |w.head| {
        assert lines[k] == w.head[k];
      } else if k >= |a| + 2 {
        assert lines[k] == w.tail[k - |a| - 1];
      }
    }
    assert lines == w.head + [background, w.middle, prInfo, "", h] + w.tail[1..];
    JoinSplitChar(lines, '\n');
  }

  lemma PiecesSingle(ps: seq<string>)
    requires forall k :: 0 <= k < |ps| ==> '\n' !in ps[k]
    ensures '\n' !in Concat(ps)
  {
    ConcatFree(ps, '\n');
  }

  lemma AssistantSingle()
    ensures '\n' !in Concat(AssistantPieces)
  {
    assert '\n' !in AssistantPieces[0];
    assert '\n' !in AssistantPieces[1];
    assert '\n' !in AssistantPieces[2];
    PiecesSingle(AssistantPieces);
  }

  lemma TaskSingle()
    ensures '\n' !in Concat(TaskPieces)
  {
    assert '\n' !in TaskPieces[0];
    assert '\n' !in TaskPieces[1];
    assert '\n' !in TaskPieces[2];
    assert '\n' !in TaskPieces[3];
    assert '\n' !in TaskPieces[4];
    PiecesSingle(TaskPieces);
  }

  lemma FocusSingle()
    ensures '\n' !in Concat(FocusPieces)
  {
    assert '\n' !in FocusPieces[0];
    assert '\n' !in FocusPieces[1];
    assert '\n' !in FocusPieces[2];
    PiecesSingle(FocusPieces);
  }

  lemma ReviewSingle()
    ensures '\n' !in Concat(ReviewPieces)
  {
    assert '\n' !in ReviewPieces[0];
    assert '\n' !in ReviewPieces[1];
    assert '\n' !in ReviewPieces[2];
    PiecesSingle(ReviewPieces);
  }

  lemma AnalyzeSingle()
    ensures '\n' !in Concat(AnalyzePieces)
  {
    assert '\n' !in AnalyzePieces[0];
    assert '\n' !in AnalyzePieces[1];
    PiecesSingle(AnalyzePieces);
  }

  lemma ImplementSingle()
    ensures '\n' !in Concat(ImplementPieces)
  {
    assert '\n' !in ImplementPieces[0];
    assert '\n' !in ImplementPieces[1];
    assert '\n' !in ImplementPieces[2];
    PiecesSingle(ImplementPieces);
  }

  lemma EnsureSingle()
    ensures '\n' !in Concat(EnsurePieces)
  {
    assert '\n' !in EnsurePieces[0];
    assert '\n' !in EnsurePieces[1];
    assert '\n' !in EnsurePieces[2];
    PiecesSingle(EnsurePieces);
  }

  /** The fixed lines of the source template, where they sit. */
  lemma SourceTemplateShape()
    ensures |SourceTemplate.head| == 7 && |SourceTemplate.tail| == 5
    ensures SourceTemplate.head[0] == CommandBuilder.InstructionsHeader
    ensures SourceTemplate.head[6] == CommandBuilder.IssueLabel
    ensures SourceTemplate.middle == PrDetailsLabel
    ensures |SourceTemplate.tail[0]| > 0 && SourceTemplate.tail[0][0] == '\n'
    ensures SourceTemplate.tail[0][1..] == CommandBuilder.ActionsHeader
  {
    var t := SourceTemplate.tail;
    assert t[0] == "\n" + CommandBuilder.ActionsHeader;
  }

  lemma SourceTemplateSingle()
    ensures SingleLines(SourceTemplate)
  {
    SourceHeadSingle();
    SourceTailSingle();
    SourceTemplateShape();
    HeadersSingle();
    assert '\n' !in PrDetailsLabel;
  }

  /** The fixed lines before the background hold no newline. */
  lemma SourceHeadSingle()
    ensures forall k :: 0 <= k < |SourceTemplate.head| ==> '\n' !in SourceTemplate.head[k]
  {
    HeadersSingle();
    AssistantSingle();
    TaskSingle();
    FocusSingle();
  }

  /** The lines after the header that follows the details hold no
      newline. */
  lemma SourceTailSingle()
    ensures forall k :: 1 <= k < |SourceTemplate.tail| ==> '\n' !in SourceTemplate.tail[k]
  {
    ReviewSingle();
    AnalyzeSingle();
    ImplementSingle();
    EnsureSingle();
  }

  lemma HeadersSingle()
    ensures '\n' !in CommandBuilder.InstructionsHeader
    ensures '\n' !in CommandBuilder.ContextHeader
    ensures '\n' !in CommandBuilder.IssueLabel
    ensures '\n' !in CommandBuilder.ActionsHeader
  {
  }

  /** For a one-line background and one-line details, the background is
      exactly the line after "ISSUE DESCRIPTION" and the details exactly
      the line after "PULL REQUEST DETAILS"; the text opens with the system
      instructions header and has 16 lines. */
  lemma AddPrCommentsToBackgroundLines(background: string, prInfo: string)
    requires '\n' !in background && '\n' !in prInfo
    ensures var ls := Split(AddPrCommentsToBackground(background, prInfo), "\n");
      && |ls| == 16
      && ls[0] == CommandBuilder.InstructionsHeader
      && ls[6] == CommandBuilder.IssueLabel && ls[7] == background
      && ls[8] == PrDetailsLabel && ls[9] == prInfo
      && ls[10] == "" && ls[11] == CommandBuilder.ActionsHeader
  {
    SourceTemplateSingle();
    SourceTemplateShape();
    TemplateSplitAt(SourceTemplate, background, prInfo);
  }

  /** Where the lines of a seven-line head and five-line tail template sit
      after the split. */
  lemma TemplateSplitAt(w: PrTemplate, background: string, prInfo: string)
    requires SingleLines(w) && |w.head| == 7 && |w.tail| == 5
    requires '\n' !in background && '\n' !in prInfo
    ensures var ls := Split(Join(TemplateLines(w, background, prInfo), "\n"), "\n");
      && |ls| == 16
      && ls[0] == w.head[0] && ls[6] == w.head[6]
      && ls[7] == background && ls[8] == w.middle && ls[9] == prInfo
      && ls[10] == "" && ls[11] == w.tail[0][1..]
  {
    TemplateSplit(w, background, prInfo);
    var ls := w.head + [background, w.middle, prInfo, "", w.tail[0][1..]] + w.tail[1..];
    assert ls[7] == background && ls[9] == prInfo && ls[11] == w.tail[0][1..];
  }

  // ---------------------------------------------------------------------
  // add_aider_logs_as_pr_comments
  // ---------------------------------------------------------------------

  const AiderHeading := "## Aider:\n"

  function AiderComment(logs: string): (body: string)
    ensures IsPrefix(AiderHeading, body)
    ensures |body| == |logs| + 11 && body[10..|body| - 1] == logs && body[|body| - 1] == '\n'
  {
    AiderHeading + logs + "\n"
  }

  /** `add_aider_logs_as_pr_comments`: the logs under an "## Aider:"
      heading, as one conversation comment on the pull request. */
  function AddAiderLogsAsPrComments(gh: Github, url: string, logs: string): (t: Traced<()>)
    ensures t.result.Ok? <==> FindPull(gh, url).Ok?
    ensures t.result.Err? ==> t.ops == []
    ensures t.result.Ok? ==>
      var (path, n, _) := FindPull(gh, url).value;
      t.ops == [CreateIssueComment(path, n, AiderComment(logs))]
  {
    match FindPull(gh, url)
    case Err(e) => Traced([], Err(e))
    case Ok((path, n, _)) => Traced([CreateIssueComment(path, n, AiderComment(logs))], Ok(()))
  }

  /** The heading is the only difference from the newer
      `add_logs_as_pr_comments`. */
  lemma AiderLogsVersusPlainLogs(gh: Github, url: string, logs: string)
    ensures AddAiderLogsAsPrComments(gh, url, logs).result == AddLogsAsPrComments(gh, url, logs).result
    ensures FindPull(gh, url).Ok? ==>
      var (path, n, _) := FindPull(gh, url).value;
      && AddLogsAsPrComments(gh, url, logs).ops == [CreateIssueComment(path, n, logs)]
      && AddAiderLogsAsPrComments(gh, url, logs).ops == [CreateIssueComment(path, n, AiderComment(logs))]
  {
  }
}
