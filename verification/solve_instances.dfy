/** `solve_instances.py`: pick the proposals awarded in the last day, decide
    for each whether its instance is to be solved (and whether that is a
    follow-up on an open pull request), solve it, publish the result, and
    report back on the market chat.

    The market, GitHub, the clone and the solver container are inputs; the
    effects are one trace of events. The helpers of `utils` are those of
    `utils/git.py`, except that the working branch is made by the corrected
    `create_and_push_branch` and pull-request URLs are split by the
    corrected `GithubUrls.PrUrlParts`. */
module SolveInstances {
  import opened Wrappers
  import opened Strings
  import opened GitEffects
  import opened GithubUrls
  import opened PrManagement
  import opened GitLegacy
  import GitCore
  import GithubApi
  import AgentMarket
  import Config

  /** The effects of the pipeline, in order. */
  datatype Event =
    | GetProposals
    | GetInstance(id: string)
    | GetChat(id: string)
    | ForkRepo(path: string)
    | CloneRepo(url: string)
    | Git(op: GitOp)
    | RunSolver(model: string, solverCommand: string, testCommand: Option<string>)
    | SendMessage(id: string, message: string)

  function Lift(ops: seq<GitOp>): (r: seq<Event>)
    ensures |r| == |ops| && forall k :: 0 <= k < |r| ==> r[k] == Git(ops[k])
  {
    seq(|ops|, k requires 0 <= k < |ops| => Git(ops[k]))
  }

  predicate IsPull(e: Event) {
    e.Git? && e.op.CreatePull?
  }

  predicate IsPush(e: Event) {
    e.Git? && e.op.Push?
  }

  /** Every event is a git operation. */
  predicate AllGit(ev: seq<Event>) {
    forall k :: 0 <= k < |ev| ==> ev[k].Git?
  }

  /** No chat message is sent. */
  predicate NoSend(ev: seq<Event>) {
    forall k :: 0 <= k < |ev| ==> !ev[k].SendMessage?
  }

  /** Nothing is commented on a pull request. */
  predicate NoComment(ev: seq<Event>) {
    forall k :: 0 <= k < |ev| ==> !(ev[k].Git? && ev[k].op.CreateIssueComment?)
  }

  /** Every chat message sent is non-empty. */
  predicate RepliesTruthy(ev: seq<Event>) {
    forall k :: 0 <= k < |ev| && ev[k].SendMessage? ==> ev[k].message != ""
  }

  lemma RepliesTruthyAppend(a: seq<Event>, b: seq<Event>)
    requires RepliesTruthy(a) && RepliesTruthy(b)
    ensures RepliesTruthy(a + b)
  {
  }

  lemma NoSendAppend(a: seq<Event>, b: seq<Event>)
    requires NoSend(a) && NoSend(b)
    ensures NoSend(a + b)
  {
  }

  predicate NoPull(ev: seq<Event>) {
    forall k :: 0 <= k < |ev| ==> !IsPull(ev[k])
  }

  /** Exactly one pull request is opened. */
  predicate OnePull(ev: seq<Event>) {
    exists k :: 0 <= k < |ev| && IsPull(ev[k]) && forall j :: 0 <= j < |ev| && IsPull(ev[j]) ==> j == k
  }

  // ---------------------------------------------------------------------
  // get_awarded_proposals
  // ---------------------------------------------------------------------

  /** A proposal as the market lists it; `created` is its creation time in
      seconds. */
  datatype Proposal = Proposal(instanceId: string, status: int, created: int)

  const OneDay := 86400

  predicate Awarded(p: Proposal, awardedCode: int, now: int) {
    p.status == awardedCode && p.created > now - OneDay
  }

  /** `get_awarded_proposals` past the request: the proposals, in order,
      with the awarded status created strictly after one day before `now`. */
  function AwardedProposals(ps: seq<Proposal>, awardedCode: int, now: int): (r: seq<Proposal>)
    ensures |r| <= |ps|
    ensures forall k :: 0 <= k < |r| ==> r[k] in ps && Awarded(r[k], awardedCode, now)
    decreases |ps|
  {
    if |ps| == 0 then []
    else
      var rest := AwardedProposals(ps[1..], awardedCode, now);
      if Awarded(ps[0], awardedCode, now) then [ps[0]] + rest else rest
  }

  /** Every awarded proposal of the last day is kept. */
  lemma {:induction false} AwardedProposalsComplete(ps: seq<Proposal>, awardedCode: int, now: int, p: Proposal)
    requires p in ps && Awarded(p, awardedCode, now)
    ensures p in AwardedProposals(ps, awardedCode, now)
    decreases |ps|
  {
    if ps[0] != p {
      assert p in ps[1..];
      AwardedProposalsComplete(ps[1..], awardedCode, now, p);
    }
  }

  /** The filter works proposal by proposal: filtering a concatenation
      concatenates the filtered parts. */
  lemma {:induction false} AwardedProposalsAppend(xs: seq<Proposal>, ys: seq<Proposal>, awardedCode: int, now: int)
    ensures AwardedProposals(xs + ys, awardedCode, now)
            == AwardedProposals(xs, awardedCode, now) + AwardedProposals(ys, awardedCode, now)
    decreases |xs|
  {
    if |xs| == 0 {
      assert xs + ys == ys;
    } else {
      assert (xs + ys)[1..] == xs[1..] + ys;
      AwardedProposalsAppend(xs[1..], ys, awardedCode, now);
    }
  }

  /** A proposal created exactly one day before `now` is too old. */
  lemma AwardedProposalsBoundary(p: Proposal, now: int)
    requires p.created == now - OneDay
    ensures AwardedProposals([p], p.status, now) == []
  {
  }

  // ---------------------------------------------------------------------
  // _get_instance_to_solve
  // ---------------------------------------------------------------------

  /** An instance as the market returns it. */
  datatype MarketInstance = MarketInstance(id: string, status: int, background: string)

  /** The instance with what the pipeline adds to it. */
  datatype ToSolve = ToSolve(
    id: string,
    background: string,
    repoUrl: string,
    prComments: Option<string>,
    prUrl: Option<string>)

  /** `_get_instance_to_solve`: the requests made and the instance to solve,
      if any. `chat` is the list of chat messages; an error reading the pull
      request's comments propagates. */
  function GetInstanceToSolve(id: string, resolvedCode: int, inst: MarketInstance, chat: seq<string>, gh: Github)
    : (r: (seq<Event>, Result<Option<ToSolve>>))
    ensures |r.0| > 0 && r.0[0] == GetInstance(id)
    ensures forall k :: 0 <= k < |r.0| ==> r.0[k] in {GetInstance(id), GetChat(id)}
    ensures inst.status != resolvedCode ==> r == ([GetInstance(id)], Ok(None))
    ensures FindGithubRepoUrl(inst.background).None? ==> r.1 == Ok(None) && r.0 == [GetInstance(id)]
    ensures GetChat(id) in r.0 <==> inst.status == resolvedCode && FindGithubRepoUrl(inst.background).Some?
    ensures r.1.Err? ==> |chat| > 0 && GetPrUrl(chat[|chat| - 1]).Some?
                         && LegacyGetLastPrComments(gh, GetPrUrl(chat[|chat| - 1]).value).Err?
    ensures r.1.Ok? && r.1.value.Some? ==>
      var t := r.1.value.value;
      && inst.status == resolvedCode
      && t.id == inst.id && t.background == inst.background
      && Some(t.repoUrl) == FindGithubRepoUrl(inst.background)
      && (t.prUrl.Some? <==> t.prComments.Some?)
      && (t.prComments.Some? ==> Truthy(t.prComments))
  {
    var looked := [GetInstance(id)];
    if inst.status != resolvedCode then (looked, Ok(None))
    else match FindGithubRepoUrl(inst.background)
      case None => (looked, Ok(None))
      case Some(repoUrl) =>
        var asked := looked + [GetChat(id)];
        if |chat| == 0 then (asked, Ok(Some(ToSolve(inst.id, inst.background, repoUrl, None, None))))
        else match GetPrUrl(chat[|chat| - 1])
          case None => (asked, Ok(None))
          case Some(prUrl) =>
            match LegacyGetLastPrComments(gh, prUrl)
            case Err(e) => (asked, Err(e))
            case Ok(comments) =>
              if !Truthy(comments) then (asked, Ok(None))
              else (asked, Ok(Some(ToSolve(inst.id, inst.background, repoUrl, comments, Some(prUrl)))))
  }

  /** With an empty chat a resolved instance with a repository URL is solved
      from scratch: it carries the URL and neither comments nor a pull
      request. */
  lemma EmptyChatSolvesFresh(id: string, resolvedCode: int, inst: MarketInstance, gh: Github)
    requires inst.status == resolvedCode && FindGithubRepoUrl(inst.background).Some?
    ensures GetInstanceToSolve(id, resolvedCode, inst, [], gh).1
            == Ok(Some(ToSolve(inst.id, inst.background, FindGithubRepoUrl(inst.background).value, None, None)))
  {
  }

  /** With a chat, the follow-up targets the pull request named in the last
      message, and carries that request's latest comments. */
  lemma FollowUpOnLastMessage(id: string, resolvedCode: int, inst: MarketInstance, chat: seq<string>, gh: Github)
    requires |chat| > 0
    ensures var r := GetInstanceToSolve(id, resolvedCode, inst, chat, gh).1;
      r.Ok? && r.value.Some? ==>
        var prUrl := GetPrUrl(chat[|chat| - 1]);
        && prUrl.Some?
        && r.value.value.prUrl == prUrl
        && LegacyGetLastPrComments(gh, prUrl.value) == Ok(r.value.value.prComments)
  {
  }

  /** Only the last chat message is searched: earlier messages do not
      change the outcome. */
  lemma OnlyLastMessageCounts(id: string, resolvedCode: int, inst: MarketInstance,
                              earlier1: seq<string>, earlier2: seq<string>, last: string, gh: Github)
    ensures GetInstanceToSolve(id, resolvedCode, inst, earlier1 + [last], gh)
            == GetInstanceToSolve(id, resolvedCode, inst, earlier2 + [last], gh)
  {
    assert (earlier1 + [last])[|earlier1 + [last]| - 1] == last;
    assert (earlier2 + [last])[|earlier2 + [last]| - 1] == last;
  }

  // ---------------------------------------------------------------------
  // _solve_instance
  // ---------------------------------------------------------------------

  /** What the world answers while an instance is solved: the URL of the
      fork, the fresh clone, what GitHub reports about the fork's
      repository when it is synchronised, the suggested test command, the
      solver's logs (or the error it raised), the clone after the solver
      ran, GitHub, the generated title and body, and what
      `create_pull_request` sees. */
  datatype SolveWorld = SolveWorld(
    forkedUrl: string,
    cloned: GitCore.LocalRepo,
    forks: map<string, GithubApi.RemoteRepo>,
    testCommand: Option<string>,
    logs: Result<string>,
    solved: GitCore.LocalRepo,
    gh: Github,
    title: string,
    body: string,
    pr: PrOracle)

  const AddedComments := "Added comments to PR"

  function SolvedMessage(id: string, prUrl: string): string {
    "Solved instance " + id + " with PR " + prUrl
  }

  /** The pull request opened for a first solution: from the fork onto the
      target's "main". */
  function FirstPullRequest(forkedName: string, targetName: string, w: SolveWorld): PrRequest {
    PrRequest(forkedName, targetName, Some(w.title), Some(w.body), "main")
  }

  lemma PushOpsNoPull(repo: GitCore.LocalRepo, token: string)
    ensures forall k :: 0 <= k < |LegacyPushCommits(repo, token).ops| ==> !LegacyPushCommits(repo, token).ops[k].CreatePull?
  {
  }

  lemma PushOpsNoComment(repo: GitCore.LocalRepo, token: string)
    ensures forall k :: 0 <= k < |LegacyPushCommits(repo, token).ops| ==>
              !LegacyPushCommits(repo, token).ops[k].CreateIssueComment?
  {
  }

  lemma PullOpsNoComment(gh: Github, req: PrRequest, o: PrOracle)
    ensures forall k :: 0 <= k < |CreatePullRequest(gh, req, o).ops| ==>
              !CreatePullRequest(gh, req, o).ops[k].CreateIssueComment?
  {
  }

  /** Lifted operations contain a pull request exactly where the operations
      do. */
  lemma LiftNoPull(ops: seq<GitOp>)
    requires forall k :: 0 <= k < |ops| ==> !ops[k].CreatePull?
    ensures NoPull(Lift(ops))
  {
  }

  /** The end of `_solve_instance` once the solver has run: push, then
      either stop (nothing pushed), report the comments, or open the pull
      request. */
  function Publish(settings: Config.Settings, id: string, target: Option<string>, forkedName: string,
                   prComments: Option<string>, logs: string, w: SolveWorld): (r: (seq<Event>, Result<string>))
    ensures var pushed := LegacyPushCommits(w.solved, settings.githubPat);
      && |Lift(pushed.ops)| <= |r.0| && r.0[..|pushed.ops|] == Lift(pushed.ops)
      && (pushed.result.Err? ==> r.1 == Err(pushed.result.error))
      && (pushed.result == Ok(false) ==> r.1 == Ok(logs) && NoPull(r.0))
      && (pushed.result == Ok(true) && Truthy(prComments) ==> r.1 == Ok(AddedComments) && NoPull(r.0))
      && (pushed.result == Ok(true) && !Truthy(prComments) && r.1.Ok? ==>
            exists url :: r.1 == Ok(SolvedMessage(id, url)))
    ensures AllGit(r.0)
    ensures OnePull(r.0) ==>
      && LegacyPushCommits(w.solved, settings.githubPat).result == Ok(true)
      && !Truthy(prComments)
      && target.Some? && ExtractRepoName(target.value).Ok?
      && (var made := CreatePullRequest(w.gh, FirstPullRequest(forkedName, ExtractRepoName(target.value).value, w), w.pr);
          r.1 == (if made.result.Ok? then Ok(SolvedMessage(id, made.result.value)) else Err(made.result.error)))
  {
    PushOpsNoPull(w.solved, settings.githubPat);
    PublishFrom(LegacyPushCommits(w.solved, settings.githubPat), id, target, forkedName, prComments, logs, w)
  }

  /** `Publish` once the push has been attempted with the outcome
      `pushed`. */
  function PublishFrom(pushed: Traced<bool>, id: string, target: Option<string>, forkedName: string,
                       prComments: Option<string>, logs: string, w: SolveWorld): (r: (seq<Event>, Result<string>))
    requires forall k :: 0 <= k < |pushed.ops| ==> !pushed.ops[k].CreatePull?
    ensures |Lift(pushed.ops)| <= |r.0| && r.0[..|pushed.ops|] == Lift(pushed.ops)
    ensures pushed.result.Err? ==> r.1 == Err(pushed.result.error)
    ensures pushed.result == Ok(false) ==> r.1 == Ok(logs) && NoPull(r.0)
    ensures pushed.result == Ok(true) && Truthy(prComments) ==> r.1 == Ok(AddedComments) && NoPull(r.0)
    ensures pushed.result == Ok(true) && !Truthy(prComments) && r.1.Ok? ==>
              exists url :: r.1 == Ok(SolvedMessage(id, url))
    ensures AllGit(r.0)
    ensures OnePull(r.0) ==>
      && pushed.result == Ok(true)
      && !Truthy(prComments)
      && target.Some? && ExtractRepoName(target.value).Ok?
      && (var made := CreatePullRequest(w.gh, FirstPullRequest(forkedName, ExtractRepoName(target.value).value, w), w.pr);
          r.1 == (if made.result.Ok? then Ok(SolvedMessage(id, made.result.value)) else Err(made.result.error)))
  {
    var pushes := Lift(pushed.ops);
    LiftNoPull(pushed.ops);
    NoPullNotOne(pushes);
    match pushed.result
    case Err(e) => (pushes, Err(e))
    case Ok(didPush) =>
      if !didPush then (pushes, Ok(logs))
      else if Truthy(prComments) then (pushes, Ok(AddedComments))
      else OpenPull(id, target, forkedName, pushes, w)
  }

  /** After the push: open the pull request from the fork against the
      target repository, whose name must parse. */
  function OpenPull(id: string, target: Option<string>, forkedName: string, pushes: seq<Event>, w: SolveWorld)
    : (r: (seq<Event>, Result<string>))
    ensures |pushes| <= |r.0| && r.0[..|pushes|] == pushes
    ensures AllGit(pushes) ==> AllGit(r.0)
    ensures r.1.Ok? ==> exists url :: r.1 == Ok(SolvedMessage(id, url))
    ensures NoPull(pushes) && OnePull(r.0) ==>
      && target.Some? && ExtractRepoName(target.value).Ok?
      && (var made := CreatePullRequest(w.gh, FirstPullRequest(forkedName, ExtractRepoName(target.value).value, w), w.pr);
          r.1 == (if made.result.Ok? then Ok(SolvedMessage(id, made.result.value)) else Err(made.result.error)))
  {
    NoPullNotOne(pushes);
    match target
    case None => (pushes, Err(Raised("no repository URL to open the pull request against")))
    case Some(url) =>
      match ExtractRepoName(url)
      case Err(e) => (pushes, Err(e))
      case Ok(targetName) =>
        var made := CreatePullRequest(w.gh, FirstPullRequest(forkedName, targetName, w), w.pr);
        var ev := pushes + Lift(made.ops);
        AppendEvents(pushes, Lift(made.ops));
        match made.result
        case Err(e) => (ev, Err(e))
        case Ok(prUrl) => (ev, Ok(SolvedMessage(id, prUrl)))
  }

  lemma NoPullNotOne(ev: seq<Event>)
    ensures NoPull(ev) ==> !OnePull(ev)
  {
  }

  lemma AppendEvents(a: seq<Event>, b: seq<Event>)
    ensures (a + b)[..|a|] == a
    ensures AllGit(a) && AllGit(b) ==> AllGit(a + b)
  {
    assert forall k :: |a| <= k < |a + b| ==> (a + b)[k] == b[k - |a|];
  }

  /** Publishing comments on no pull request. */
  lemma PublishNoComment(settings: Config.Settings, id: string, target: Option<string>, forkedName: string,
                         prComments: Option<string>, logs: string, w: SolveWorld)
    ensures NoComment(Publish(settings, id, target, forkedName, prComments, logs, w).0)
  {
    PushOpsNoPull(w.solved, settings.githubPat);
    PushOpsNoComment(w.solved, settings.githubPat);
    PublishFromNoComment(LegacyPushCommits(w.solved, settings.githubPat), id, target, forkedName, prComments, logs, w);
  }

  lemma PublishFromNoComment(pushed: Traced<bool>, id: string, target: Option<string>, forkedName: string,
                             prComments: Option<string>, logs: string, w: SolveWorld)
    requires forall k :: 0 <= k < |pushed.ops| ==> !pushed.ops[k].CreatePull?
    requires forall k :: 0 <= k < |pushed.ops| ==> !pushed.ops[k].CreateIssueComment?
    ensures NoComment(PublishFrom(pushed, id, target, forkedName, prComments, logs, w).0)
  {
    LiftNoComment(pushed.ops);
    if pushed.result == Ok(true) && !Truthy(prComments) {
      OpenPullNoComment(id, target, forkedName, Lift(pushed.ops), w);
    }
  }

  lemma OpenPullNoComment(id: string, target: Option<string>, forkedName: string, pushes: seq<Event>, w: SolveWorld)
    requires NoComment(pushes)
    ensures NoComment(OpenPull(id, target, forkedName, pushes, w).0)
  {
    if target.Some? && ExtractRepoName(target.value).Ok? {
      var made := CreatePullRequest(w.gh, FirstPullRequest(forkedName, ExtractRepoName(target.value).value, w), w.pr);
      PullOpsNoComment(w.gh, FirstPullRequest(forkedName, ExtractRepoName(target.value).value, w), w.pr);
      LiftNoComment(made.ops);
      NoCommentAppend(pushes, Lift(made.ops));
    }
  }

  lemma LiftNoComment(ops: seq<GitOp>)
    requires forall k :: 0 <= k < |ops| ==> !ops[k].CreateIssueComment?
    ensures NoComment(Lift(ops))
  {
  }

  lemma NoCommentAppend(a: seq<Event>, b: seq<Event>)
    requires NoComment(a) && NoComment(b)
    ensures NoComment(a + b)
  {
    assert forall k :: |a| <= k < |a + b| ==> (a + b)[k] == b[k - |a|];
  }

  /** The background the solver works from: the PR comments spliced in when
      there are any, then every URL removed. */
  function Brief(background: string, prComments: Option<string>): string {
    AgentMarket.RemoveAllUrls(
      if Truthy(prComments) then AddPrCommentsToBackground(background, prComments.value) else background)
  }

  /** The git work on the fresh clone: the working branch named after the
      instance, then the git identity. The branch is made by the corrected
      `create_and_push_branch`, which pushes a new branch; the version the
      source wires in never does (`GitLegacy.LegacyNewBranchNeverPushed`). */
  function Prepare(settings: Config.Settings, id: string, w: SolveWorld): (ops: seq<GitOp>)
    ensures |ops| >= 2
    ensures ops[|ops| - 2] == SetConfig("user", "name", settings.githubUsername)
    ensures ops[|ops| - 1] == SetConfig("user", "email", settings.githubEmail)
  {
    GitCore.CreateAndPushBranch(w.cloned, w.forks, id, settings.githubPat).ops
    + GitCore.SetGitConfig(settings.githubUsername, settings.githubEmail).ops
  }

  /** The events up to and including the solver run: fork, clone, the
      working branch, the git identity and the solver container. */
  function Setup(settings: Config.Settings, id: string, repoUrl: string, model: Config.ModelName,
                 solverCommand: string, w: SolveWorld): (ev: seq<Event>)
    ensures |ev| > 0 && ev[0] == ForkRepo(ForkPath(repoUrl))
    ensures ev[|ev| - 1] == RunSolver(Config.ModelNameValue(model), solverCommand, w.testCommand)
    ensures forall k :: 0 <= k < |ev| - 1 ==> !ev[k].RunSolver?
    ensures NoSend(ev)
  {
    var head := [ForkRepo(ForkPath(repoUrl)), CloneRepo(w.forkedUrl)];
    var prepared := Lift(Prepare(settings, id, w));
    var run := RunSolver(Config.ModelNameValue(model), solverCommand, w.testCommand);
    SolverLast(head, prepared, run);
    head + prepared + [run]
  }

  /** Fork and clone, then git operations, then the solver run: the run is
      last and only there, and no message is sent. */
  lemma SolverLast(head: seq<Event>, prepared: seq<Event>, run: Event)
    requires forall k :: 0 <= k < |head| ==> head[k].ForkRepo? || head[k].CloneRepo?
    requires AllGit(prepared) && run.RunSolver?
    ensures var ev := head + prepared + [run];
      && ev[|ev| - 1] == run
      && (forall k :: 0 <= k < |ev| - 1 ==> !ev[k].RunSolver?)
      && NoSend(ev)
  {
  }

  /** The solver's logs as a comment on the pull request being followed up,
      when there is one. */
  function PostLogs(gh: Github, prUrl: Option<string>, logs: string): (t: Traced<()>)
    ensures !Truthy(prUrl) ==> t.ops == [] && t.result.Ok?
    ensures Truthy(prUrl) ==> (t.result.Ok? <==> FindPull(gh, prUrl.value).Ok?)
    ensures t.result.Err? ==> t.ops == []
    ensures Truthy(prUrl) && t.result.Ok? ==>
      t.ops == [CreateIssueComment(FindPull(gh, prUrl.value).value.0, FindPull(gh, prUrl.value).value.1,
                                   AiderComment(logs))]
  {
    if Truthy(prUrl) then AddAiderLogsAsPrComments(gh, prUrl.value, logs) else Traced([], Ok(()))
  }

  /** The solver runs once, at the end of `pre`, when only git operations
      follow. */
  lemma SolverRunOnce(pre: seq<Event>, tail: seq<Event>)
    requires |pre| > 0 && pre[|pre| - 1].RunSolver?
    requires forall k :: 0 <= k < |pre| - 1 ==> !pre[k].RunSolver?
    requires AllGit(tail)
    ensures (pre + tail)[|pre| - 1] == pre[|pre| - 1]
    ensures forall k :: 0 <= k < |pre + tail| && (pre + tail)[k].RunSolver? ==> k == |pre| - 1
  {
  }

  /** No solver run in the preparation before it. */
  lemma NoSolverRun(head: seq<Event>, tail: seq<Event>)
    requires forall k :: 0 <= k < |head| ==> head[k].ForkRepo? || head[k].CloneRepo?
    requires AllGit(tail)
    ensures forall k :: 0 <= k < |head + tail| ==> !(head + tail)[k].RunSolver?
  {
  }

  /** What follows the solver run: its logs posted to the pull request
      being followed up, then the push and the pull request. */
  function AfterSolver(settings: Config.Settings, id: string, target: Option<string>, forkedName: string,
                       prComments: Option<string>, prUrl: Option<string>, w: SolveWorld)
    : (r: (seq<Event>, Result<string>))
    ensures AllGit(r.0)
    ensures !Truthy(prUrl) ==> NoComment(r.0)
    ensures w.logs.Err? ==> r == ([], Err(w.logs.error))
  {
    match w.logs
    case Err(e) => ([], Err(e))
    case Ok(logs) =>
      var posted := PostLogs(w.gh, prUrl, logs);
      if posted.result.Err? then (Lift(posted.ops), Err(posted.result.error))
      else
        var (published, result) := Publish(settings, id, target, forkedName, prComments, logs, w);
        PublishNoComment(settings, id, target, forkedName, prComments, logs, w);
        (Lift(posted.ops) + published, result)
  }

  /** Fork, clone and the git preparation, when no solver model is set and
      the solver is never run. */
  function Unrun(settings: Config.Settings, id: string, repoUrl: string, w: SolveWorld): (ev: seq<Event>)
    ensures |ev| > 1 && ev[0] == ForkRepo(ForkPath(repoUrl))
    ensures NoSend(ev)
    ensures forall k :: 0 <= k < |ev| ==> !ev[k].RunSolver?
  {
    var head := [ForkRepo(ForkPath(repoUrl)), CloneRepo(w.forkedUrl)];
    var gitOps := Lift(Prepare(settings, id, w));
    NoSolverRun(head, gitOps);
    NoSendAppend(head, gitOps);
    head + gitOps
  }

  /** `_solve_instance` once the fork's name is known. */
  function SolveFork(settings: Config.Settings, id: string, background: string, repoUrl: string,
                     prComments: Option<string>, prUrl: Option<string>, forkedName: string, w: SolveWorld)
    : (r: (seq<Event>, Result<string>))
    ensures |r.0| > 1 && r.0[0] == ForkRepo(ForkPath(repoUrl))
    ensures NoSend(r.0)
    ensures settings.foundationModelName.None? ==> r.1.Err?
    ensures w.logs.Err? ==> r.1.Err?
    ensures (exists k :: 0 <= k < |r.0| && r.0[k].RunSolver?) <==> settings.foundationModelName.Some?
    ensures forall k :: 0 <= k < |r.0| && r.0[k].RunSolver? ==>
              r.0[k] == RunSolver(Config.ModelNameValue(settings.foundationModelName.value),
                                  AgentMarket.GetSolverCommand(Brief(background, prComments), prComments),
                                  w.testCommand)
    ensures settings.foundationModelName.Some? && w.logs.Err? ==>
              r.1 == Err(w.logs.error) && r.0[|r.0| - 1].RunSolver?
  {
    match settings.foundationModelName
    case None => (Unrun(settings, id, repoUrl, w), Err(Raised("'NoneType' object has no attribute 'value'")))
    case Some(model) =>
      var solverCommand := AgentMarket.GetSolverCommand(Brief(background, prComments), prComments);
      var ran := Setup(settings, id, repoUrl, model, solverCommand, w);
      var (after, result) := AfterSolver(settings, id, FindGithubRepoUrl(background), forkedName,
                                         prComments, prUrl, w);
      RunThenGit(ran, after, RunSolver(Config.ModelNameValue(model), solverCommand, w.testCommand));
      (ran + after, result)
  }

  /** The setup events, whose last is the solver run, then git operations:
      the run happens, and only as itself. */
  lemma RunThenGit(ran: seq<Event>, after: seq<Event>, run: Event)
    requires |ran| > 0 && ran[0].ForkRepo? && ran[|ran| - 1] == run && run.RunSolver?
    requires forall k :: 0 <= k < |ran| - 1 ==> !ran[k].RunSolver?
    requires NoSend(ran) && AllGit(after)
    ensures |ran + after| > 1 && (ran + after)[0] == ran[0]
    ensures NoSend(ran + after)
    ensures (ran + after)[|ran| - 1] == run
    ensures forall k :: 0 <= k < |ran + after| && (ran + after)[k].RunSolver? ==> (ran + after)[k] == run
  {
    SolverRunOnce(ran, after);
    NoSendAppend(ran, after);
  }

  /** `_solve_instance`: the events and the message to send back (or the
      error raised). */
  function SolveInstance(settings: Config.Settings, id: string, background: string, repoUrl: string,
                         prComments: Option<string>, prUrl: Option<string>, w: SolveWorld)
    : (r: (seq<Event>, Result<string>))
    ensures |r.0| > 0 && r.0[0] == ForkRepo(ForkPath(repoUrl))
    ensures NoSend(r.0)
    ensures ExtractRepoName(w.forkedUrl).Err? ==> r == ([ForkRepo(ForkPath(repoUrl))], Err(ExtractRepoName(w.forkedUrl).error))
    ensures ExtractRepoName(w.forkedUrl).Ok? ==>
              r == SolveFork(settings, id, background, repoUrl, prComments, prUrl, ExtractRepoName(w.forkedUrl).value, w)
  {
    match ExtractRepoName(w.forkedUrl)
    case Err(e) => ([ForkRepo(ForkPath(repoUrl))], Err(e))
    case Ok(forkedName) => SolveFork(settings, id, background, repoUrl, prComments, prUrl, forkedName, w)
  }

  /** The solver's logs reach the pull request right after the solver ran,
      before anything else happens. */
  lemma AfterSolverLogsFirst(settings: Config.Settings, id: string, target: Option<string>, forkedName: string,
                             prComments: Option<string>, prUrl: Option<string>, w: SolveWorld)
    requires Truthy(prUrl)
    ensures var after := AfterSolver(settings, id, target, forkedName, prComments, prUrl, w).0;
      |after| > 0 ==>
        && w.logs.Ok? && FindPull(w.gh, prUrl.value).Ok?
        && after[0] == Git(CreateIssueComment(FindPull(w.gh, prUrl.value).value.0,
                                              FindPull(w.gh, prUrl.value).value.1,
                                              AiderComment(w.logs.value)))
  {
    if w.logs.Ok? {
      var posted := PostLogs(w.gh, prUrl, w.logs.value);
      if posted.result.Ok? {
        var (published, _) := Publish(settings, id, target, forkedName, prComments, w.logs.value, w);
        assert (Lift(posted.ops) + published)[0] == Lift(posted.ops)[0];
      }
    }
  }

  /** When a pull request is being followed up, the solver's logs are
      posted to it after the solver ran and before any push that follows the
      run. */
  lemma LogsPostedBeforePush(settings: Config.Settings, id: string, background: string, repoUrl: string,
                             prComments: Option<string>, prUrl: Option<string>, forkedName: string, w: SolveWorld)
    requires Truthy(prUrl)
    ensures var ev := SolveFork(settings, id, background, repoUrl, prComments, prUrl, forkedName, w).0;
      forall s, j :: 0 <= s < j < |ev| && ev[s].RunSolver? && IsPush(ev[j]) ==>
        && w.logs.Ok? && FindPull(w.gh, prUrl.value).Ok?
        && ev[s + 1] == Git(CreateIssueComment(FindPull(w.gh, prUrl.value).value.0,
                                               FindPull(w.gh, prUrl.value).value.1,
                                               AiderComment(w.logs.value)))
        && s + 1 < j
  {
    var ev := SolveFork(settings, id, background, repoUrl, prComments, prUrl, forkedName, w).0;
    match settings.foundationModelName
    case None =>
      assert forall s :: 0 <= s < |ev| ==> !ev[s].RunSolver?;
    case Some(model) =>
      var solverCommand := AgentMarket.GetSolverCommand(Brief(background, prComments), prComments);
      var ran := Setup(settings, id, repoUrl, model, solverCommand, w);
      var after := AfterSolver(settings, id, FindGithubRepoUrl(background), forkedName, prComments, prUrl, w).0;
      assert ev == ran + after;
      AfterSolverLogsFirst(settings, id, FindGithubRepoUrl(background), forkedName, prComments, prUrl, w);
      if |after| > 0 {
        CommentFollowsRun(ran, after, after[0]);
      } else {
        CommentFollowsRun(ran, after, ran[0]);
      }
  }

  /** After a run that ends `ran`, the first of the git operations that
      follow sits between the run and any later push. */
  lemma CommentFollowsRun(ran: seq<Event>, after: seq<Event>, c: Event)
    requires |ran| > 0 && ran[|ran| - 1].RunSolver?
    requires forall k :: 0 <= k < |ran| - 1 ==> !ran[k].RunSolver?
    requires AllGit(after)
    requires |after| > 0 ==> after[0] == c && !IsPush(c)
    ensures var ev := ran + after;
      forall s, j :: 0 <= s < j < |ev| && ev[s].RunSolver? && IsPush(ev[j]) ==>
        s == |ran| - 1 && |after| > 0 && ev[s + 1] == c && s + 1 < j
  {
    var ev := ran + after;
    SolverRunOnce(ran, after);
    forall s, j | 0 <= s < j < |ev| && ev[s].RunSolver? && IsPush(ev[j])
      ensures s == |ran| - 1 && |after| > 0 && ev[s + 1] == c && s + 1 < j
    {
      assert ev[s + 1] == after[0];
    }
  }

  // ---------------------------------------------------------------------
  // solve_instances_handler
  // ---------------------------------------------------------------------

  /** What the market and the world answer for one awarded proposal. */
  datatype Attempt = Attempt(instance: MarketInstance, chat: seq<string>, world: SolveWorld)

  function Lookup(settings: Config.Settings, p: Proposal, a: Attempt): Result<Option<ToSolve>> {
    GetInstanceToSolve(p.instanceId, settings.marketResolvedInstanceCode, a.instance, a.chat, a.world.gh).1
  }

  function Outcome(settings: Config.Settings, t: ToSolve, w: SolveWorld): Result<string> {
    SolveInstance(settings, t.id, t.background, t.repoUrl, t.prComments, t.prUrl, w).1
  }

  /** The chat message sent back for an outcome: the message itself when
      the solve returned a non-empty one. */
  function Reply(t: ToSolve, outcome: Result<string>): (ev: seq<Event>)
    ensures |ev| <= 1
    ensures forall k :: 0 <= k < |ev| ==> ev[k].SendMessage? && ev[k].message != ""
  {
    if outcome.Ok? && outcome.value != "" then [SendMessage(t.id, outcome.value)] else []
  }

  /** One iteration given what the look-up and the solve did. */
  function StepFrom(looked: seq<Event>, found: Result<Option<ToSolve>>, solved: (seq<Event>, Result<string>))
    : (r: (seq<Event>, Result<()>))
    requires NoSend(looked) && NoSend(solved.0)
    ensures r.1.Err? <==> found.Err?
    ensures forall k :: 0 <= k < |r.0| && r.0[k].SendMessage? ==>
      && k == |r.0| - 1
      && found.Ok? && found.value.Some?
      && solved.1.Ok? && solved.1.value != ""
      && r.0[k] == SendMessage(found.value.value.id, solved.1.value)
    ensures found.Ok? && found.value.Some? && solved.1.Ok? && solved.1.value != "" ==>
      |r.0| > 0 && r.0[|r.0| - 1].SendMessage?
  {
    match found
    case Err(e) => (looked, Err(e))
    case Ok(None) => (looked, Ok(()))
    case Ok(Some(t)) =>
      var reply := Reply(t, solved.1);
      NoSendAppend(looked, solved.0);
      var ev := (looked + solved.0) + reply;
      assert forall k :: 0 <= k < |looked + solved.0| ==> ev[k] == (looked + solved.0)[k];
      (ev, Ok(()))
  }

  /** What solving the instance the look-up found does, if it found one. */
  function SolveFound(settings: Config.Settings, found: Result<Option<ToSolve>>, w: SolveWorld)
    : (r: (seq<Event>, Result<string>))
    ensures NoSend(r.0)
    ensures found.Ok? && found.value.Some? ==> r.1 == Outcome(settings, found.value.value, w)
  {
    if found.Ok? && found.value.Some? then
      var t := found.value.value;
      SolveInstance(settings, t.id, t.background, t.repoUrl, t.prComments, t.prUrl, w)
    else ([], Ok(""))
  }

  /** One iteration of the handler's loop: look the instance up, solve it,
      and send the message back when there is a non-empty one. An error of
      the look-up ends the loop (it is outside the `try`); an error of the
      solver or of sending is logged and the loop goes on. */
  function Step(settings: Config.Settings, p: Proposal, a: Attempt): (r: (seq<Event>, Result<()>))
    ensures r.1.Err? <==> Lookup(settings, p, a).Err?
    ensures forall k :: 0 <= k < |r.0| && r.0[k].SendMessage? ==>
      && k == |r.0| - 1
      && Lookup(settings, p, a).Ok? && Lookup(settings, p, a).value.Some?
      && Outcome(settings, Lookup(settings, p, a).value.value, a.world).Ok?
      && r.0[k] == SendMessage(Lookup(settings, p, a).value.value.id,
                               Outcome(settings, Lookup(settings, p, a).value.value, a.world).value)
      && r.0[k].message != ""
    ensures (&& Lookup(settings, p, a).Ok? && Lookup(settings, p, a).value.Some?
             && Outcome(settings, Lookup(settings, p, a).value.value, a.world).Ok?
             && Outcome(settings, Lookup(settings, p, a).value.value, a.world).value != "")
            ==> |r.0| > 0 && r.0[|r.0| - 1].SendMessage?
    ensures RepliesTruthy(r.0)
  {
    var looked := GetInstanceToSolve(p.instanceId, settings.marketResolvedInstanceCode, a.instance, a.chat, a.world.gh).0;
    var found := Lookup(settings, p, a);
    StepFrom(looked, found, SolveFound(settings, found, a.world))
  }

  /** The loop over the awarded proposals from position `i` on; `answers(i)`
      is what the world answers for the `i`-th one. */
  function SolveEach(settings: Config.Settings, ps: seq<Proposal>, i: nat, answers: nat -> Attempt)
    : (r: (seq<Event>, Result<()>))
    decreases |ps| - i
  {
    if i >= |ps| then ([], Ok(()))
    else
      var (ev, res) := Step(settings, ps[i], answers(i));
      if res.Err? then (ev, res)
      else
        var (more, last) := SolveEach(settings, ps, i + 1, answers);
        (ev + more, last)
  }

  /** Every chat message the loop sends is non-empty. */
  lemma {:induction false} SolveEachSendsTruthy(settings: Config.Settings, ps: seq<Proposal>, i: nat,
                                                answers: nat -> Attempt)
    ensures RepliesTruthy(SolveEach(settings, ps, i, answers).0)
    decreases |ps| - i
  {
    if i < |ps| {
      var (ev, res) := Step(settings, ps[i], answers(i));
      if res.Ok? {
        SolveEachSendsTruthy(settings, ps, i + 1, answers);
        RepliesTruthyAppend(ev, SolveEach(settings, ps, i + 1, answers).0);
      }
    }
  }

  /** A failed solve is logged and the loop goes on with the next proposal,
      with nothing sent for the failed one. */
  lemma SolveFailureContinues(settings: Config.Settings, ps: seq<Proposal>, i: nat, answers: nat -> Attempt)
    requires i < |ps|
    requires var found := Lookup(settings, ps[i], answers(i));
      found.Ok? && found.value.Some? && Outcome(settings, found.value.value, answers(i).world).Err?
    ensures var step := Step(settings, ps[i], answers(i)).0;
      && NoSend(step)
      && SolveEach(settings, ps, i, answers).0 == step + SolveEach(settings, ps, i + 1, answers).0
      && SolveEach(settings, ps, i, answers).1 == SolveEach(settings, ps, i + 1, answers).1
  {
  }

  /** The loop fails exactly when the look-up of some remaining proposal
      raises. */
  lemma SolveEachErrIff(settings: Config.Settings, ps: seq<Proposal>, i: nat, answers: nat -> Attempt)
    ensures SolveEach(settings, ps, i, answers).1.Err? <==>
              exists k :: i <= k < |ps| && Lookup(settings, ps[k], answers(k)).Err?
  {
    if exists k :: i <= k < |ps| && Lookup(settings, ps[k], answers(k)).Err? {
      var k :| i <= k < |ps| && Lookup(settings, ps[k], answers(k)).Err?;
      SolveEachFailsAt(settings, ps, i, k, answers);
    } else if SolveEach(settings, ps, i, answers).1.Err? {
      SolveEachFirstError(settings, ps, i, answers);
    }
  }

  /** A look-up that raises at position `k` makes the loop from any earlier
      position fail. */
  lemma {:induction false} SolveEachFailsAt(settings: Config.Settings, ps: seq<Proposal>, i: nat, k: nat,
                                            answers: nat -> Attempt)
    requires i <= k < |ps| && Lookup(settings, ps[k], answers(k)).Err?
    ensures SolveEach(settings, ps, i, answers).1.Err?
    decreases k - i
  {
    SolveEachStep(settings, ps, i, answers);
    if i < k && Lookup(settings, ps[i], answers(i)).Ok? {
      SolveEachFailsAt(settings, ps, i + 1, k, answers);
    }
  }

  /** The loop's error is that of the first look-up that raises, and every
      proposal before it was handled. */
  lemma {:induction false} SolveEachFirstError(settings: Config.Settings, ps: seq<Proposal>, i: nat,
                                               answers: nat -> Attempt)
    requires SolveEach(settings, ps, i, answers).1.Err?
    ensures exists k :: && i <= k < |ps| && Lookup(settings, ps[k], answers(k)).Err?
                        && SolveEach(settings, ps, i, answers).1 == Err(Lookup(settings, ps[k], answers(k)).error)
                        && forall j :: i <= j < k ==> Lookup(settings, ps[j], answers(j)).Ok?
    decreases |ps| - i
  {
    SolveEachStep(settings, ps, i, answers);
    if Lookup(settings, ps[i], answers(i)).Ok? {
      SolveEachFirstError(settings, ps, i + 1, answers);
      var k :| && i + 1 <= k < |ps| && Lookup(settings, ps[k], answers(k)).Err?
               && SolveEach(settings, ps, i + 1, answers).1 == Err(Lookup(settings, ps[k], answers(k)).error)
               && forall j :: i + 1 <= j < k ==> Lookup(settings, ps[j], answers(j)).Ok?;
      assert forall j :: i <= j < k ==> Lookup(settings, ps[j], answers(j)).Ok?;
    }
  }

  /** One turn of the loop, in terms of the look-up alone. */
  lemma SolveEachStep(settings: Config.Settings, ps: seq<Proposal>, i: nat, answers: nat -> Attempt)
    requires i < |ps|
    ensures Lookup(settings, ps[i], answers(i)).Err? ==>
              SolveEach(settings, ps, i, answers).1 == Err(Lookup(settings, ps[i], answers(i)).error)
    ensures Lookup(settings, ps[i], answers(i)).Ok? ==>
              SolveEach(settings, ps, i, answers).1 == SolveEach(settings, ps, i + 1, answers).1
  {
  }

  /** A failing look-up ends the loop with its error. */
  lemma LookupErrorStops(settings: Config.Settings, ps: seq<Proposal>, i: nat, answers: nat -> Attempt)
    requires i < |ps| && Lookup(settings, ps[i], answers(i)).Err?
    ensures SolveEach(settings, ps, i, answers) == (Step(settings, ps[i], answers(i)).0,
                                                    Err(Lookup(settings, ps[i], answers(i)).error))
  {
  }

  /** `solve_instances_handler`: fetch the proposals (an error ends the run),
      keep the awarded ones of the last day, and work through them. */
  function SolveInstancesHandler(settings: Config.Settings, proposals: Result<seq<Proposal>>, now: int,
                                 answers: nat -> Attempt): (r: (seq<Event>, Result<()>))
    ensures |r.0| > 0 && r.0[0] == GetProposals
    ensures proposals.Err? ==> r == ([GetProposals], Err(proposals.error))
    ensures RepliesTruthy(r.0)
  {
    match proposals
    case Err(e) => ([GetProposals], Err(e))
    case Ok(all) =>
      var awarded := AwardedProposals(all, settings.marketAwardedProposalCode, now);
      var (ev, res) := SolveEach(settings, awarded, 0, answers);
      SolveEachSendsTruthy(settings, awarded, 0, answers);
      RepliesTruthyAppend([GetProposals], ev);
      ([GetProposals] + ev, res)
  }
}
