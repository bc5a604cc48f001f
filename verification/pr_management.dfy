/** The pull-request helpers of `git_utils/pr_management.py`:
    `create_pull_request`, `get_last_pr_comments`, `add_logs_as_pr_comments`
    (`get_pr_url` is `GithubUrls.GetPrUrl`).

    GitHub is a value: the authenticated user's login and the repositories
    the token can see, by "owner/repo" path, each with its owner, branches and
    pull requests. A missing path or pull request is one the API raises for.
    Timestamps are integers for ordering, with the text `str()` renders them
    as carried alongside. */
module PrManagement {
  import opened Wrappers
  import opened Strings
  import opened GitEffects
  import opened GithubUrls

  datatype Comment = Comment(login: string, created: int, createdText: string, body: string)

  datatype ReviewComment = ReviewComment(
    login: string, created: int, createdText: string,
    path: string, line: Option<int>, body: string)

  /** One file of a pull request's diff; `patch` is None for binary files. */
  datatype FileChange = FileChange(
    filename: string, status: string, additions: nat, deletions: nat, patch: Option<string>)

  /** A pull request: its conversation and review comments and the author
      dates of its commits, each oldest first, and its changed files. */
  datatype PullRequest = PullRequest(
    issueComments: seq<Comment>,
    reviewComments: seq<ReviewComment>,
    commitDates: seq<int>,
    files: seq<FileChange>)

  /** A repository as the API reports it; `refs` are the full names of its
      git refs ("refs/heads/main", "refs/tags/v1", ...). */
  datatype HostedRepo = HostedRepo(
    ownerLogin: string,
    branches: set<string>,
    pulls: map<int, PullRequest>,
    refs: seq<string>)

  datatype Github = Github(me: string, repos: map<string, HostedRepo>)

  // ---------------------------------------------------------------------
  // Looking a pull request up by its URL
  // ---------------------------------------------------------------------

  /** The pull request a URL names: its "owner/repo" path and number, then
      `get_repo` and `get_pull`. */
  function FindPull(gh: Github, url: string): (r: Result<(string, int, PullRequest)>)
    ensures r.Ok? ==> PrUrlParts(url) == Ok((r.value.0, r.value.1))
    ensures r.Ok? ==> r.value.0 in gh.repos && r.value.1 in gh.repos[r.value.0].pulls
                      && gh.repos[r.value.0].pulls[r.value.1] == r.value.2
    ensures r.Err? <==> PrUrlParts(url).Err?
                        || PrUrlParts(url).value.0 !in gh.repos
                        || PrUrlParts(url).value.1 !in gh.repos[PrUrlParts(url).value.0].pulls
  {
    match PrUrlParts(url)
    case Err(e) => Err(e)
    case Ok((path, n)) =>
      if path !in gh.repos then Err(Raised("repository not found: " + path))
      else if n !in gh.repos[path].pulls then Err(Raised("pull request not found"))
      else Ok((path, n, gh.repos[path].pulls[n]))
  }

  // ---------------------------------------------------------------------
  // The digest of a pull request
  // ---------------------------------------------------------------------

  const NoPatch := "No patch available"

  function PatchText(patch: Option<string>): string {
    if Truthy(patch) then patch.value else NoPatch
  }

  /** The four entries one file contributes to the diff. */
  function FileLines(f: FileChange): seq<string> {
    ["File: " + f.filename,
     "Status: " + f.status,
     "Changes: +" + NatToString(f.additions) + " -" + NatToString(f.deletions),
     "Patch:\n" + PatchText(f.patch) + "\n"]
  }

  function DiffLines(files: seq<FileChange>): seq<string> {
    Flatten(seq(|files|, k requires 0 <= k < |files| => FileLines(files[k])))
  }

  /** `str(comment.line)`: a review comment on an outdated diff has none. */
  function LineText(line: Option<int>): string {
    match line
    case None => "None"
    case Some(n) => IntToString(n)
  }

  function IssueCommentLines(c: Comment): seq<string> {
    ["Comment by " + c.login + " at " + c.createdText + ":", c.body, "---"]
  }

  function ReviewCommentLines(c: ReviewComment): seq<string> {
    ["Review comment by " + c.login + " at " + c.createdText + ":",
     "File: " + c.path + ", Line: " + LineText(c.line),
     c.body,
     "---"]
  }

  function IssueLines(cs: seq<Comment>): seq<string> {
    Flatten(seq(|cs|, k requires 0 <= k < |cs| => IssueCommentLines(cs[k])))
  }

  function ReviewLines(cs: seq<ReviewComment>): seq<string> {
    Flatten(seq(|cs|, k requires 0 <= k < |cs| => ReviewCommentLines(cs[k])))
  }

  /** The conversation comments, then the review comments. */
  function CommentLines(pr: PullRequest): seq<string> {
    IssueLines(pr.issueComments) + ReviewLines(pr.reviewComments)
  }

  /** `"\n".join(["DIFF", "\n".join(diff), "COMMENTS", "\n".join(comments)])`. */
  function Digest(pr: PullRequest): (d: string)
    ensures IsPrefix("DIFF\n", d)
    ensures Contains(d, "\nCOMMENTS\n")
  {
    var diff := Join(DiffLines(pr.files), "\n");
    var comments := Join(CommentLines(pr), "\n");
    JoinFour("DIFF", diff, "COMMENTS", comments);
    var d := "DIFF" + "\n" + diff + "\n" + "COMMENTS" + "\n" + comments;
    assert d[..5] == "DIFF\n";
    assert d[5 + |diff|..5 + |diff| + 10] == "\nCOMMENTS\n";
    assert OccursAt(d, "\nCOMMENTS\n", 5 + |diff|);
    Join(["DIFF", diff, "COMMENTS", comments], "\n")
  }

  /** File `i` of the diff contributes entries `4i` to `4i + 3`. */
  lemma DiffLinesAt(files: seq<FileChange>, i: nat)
    requires i < |files|
    ensures |DiffLines(files)| == 4 * |files|
    ensures DiffLines(files)[4 * i..4 * i + 4] == FileLines(files[i])
  {
    FlattenAt(seq(|files|, k requires 0 <= k < |files| => FileLines(files[k])), 4, i);
  }

  /** Conversation comment `i` contributes entries `3i` to `3i + 2`. */
  lemma IssueLinesAt(cs: seq<Comment>, i: nat)
    requires i < |cs|
    ensures |IssueLines(cs)| == 3 * |cs|
    ensures IssueLines(cs)[3 * i..3 * i + 3] == IssueCommentLines(cs[i])
  {
    FlattenAt(seq(|cs|, k requires 0 <= k < |cs| => IssueCommentLines(cs[k])), 3, i);
  }

  /** Review comment `i` contributes entries `4i` to `4i + 3`. */
  lemma ReviewLinesAt(cs: seq<ReviewComment>, i: nat)
    requires i < |cs|
    ensures |ReviewLines(cs)| == 4 * |cs|
    ensures ReviewLines(cs)[4 * i..4 * i + 4] == ReviewCommentLines(cs[i])
  {
    FlattenAt(seq(|cs|, k requires 0 <= k < |cs| => ReviewCommentLines(cs[k])), 4, i);
  }

  /** The digest is "DIFF", the diff, "COMMENTS" and the comments, one per
      line. */
  lemma DigestShape(pr: PullRequest)
    ensures Digest(pr) == "DIFF" + "\n" + Join(DiffLines(pr.files), "\n") + "\n" + "COMMENTS" + "\n"
                          + Join(CommentLines(pr), "\n")
  {
    JoinFour("DIFF", Join(DiffLines(pr.files), "\n"), "COMMENTS", Join(CommentLines(pr), "\n"));
  }

  lemma JoinFour(a: string, b: string, c: string, d: string)
    ensures Join([a, b, c, d], "\n") == a + "\n" + b + "\n" + c + "\n" + d
  {
    var xs := [a, b, c, d];
    assert xs[1..] == [b, c, d];
    assert xs[1..][1..] == [c, d];
    assert xs[1..][1..][1..] == [d];
    assert Join([c, d], "\n") == c + "\n" + d;
    assert Join([b, c, d], "\n") == b + "\n" + (c + "\n" + d);
  }

  /** Every file's four entries appear in the digest, one per line. */
  lemma DigestHasFile(pr: PullRequest, i: nat)
    requires i < |pr.files|
    ensures Contains(Digest(pr), Join(FileLines(pr.files[i]), "\n"))
  {
    var lines := DiffLines(pr.files);
    DiffLinesAt(pr.files, i);
    JoinContainsRun(lines, 4 * i, 4, "\n");
    DigestHead(pr, Join(FileLines(pr.files[i]), "\n"));
  }

  /** What the joined diff contains, the digest contains. */
  lemma DigestHead(pr: PullRequest, x: string)
    requires Contains(Join(DiffLines(pr.files), "\n"), x)
    ensures Contains(Digest(pr), x)
  {
    var d := Join(DiffLines(pr.files), "\n");
    var j := FirstIndex(d, x).value;
    var c := Join(CommentLines(pr), "\n");
    DigestShape(pr);
    Regroup("DIFF", "\n", d, "\n", "COMMENTS", "\n", c);
    InfixOf("DIFF" + "\n", d, "\n" + "COMMENTS" + "\n" + c, x, j);
  }

  lemma Regroup(a: string, s: string, d: string, t: string, c: string, u: string, e: string)
    ensures a + s + d + t + c + u + e == (a + s) + d + (t + c + u + e)
  {
  }

  /** Every conversation comment appears in the digest as its header line,
      its body and "---". */
  lemma DigestHasIssueComment(pr: PullRequest, i: nat)
    requires i < |pr.issueComments|
    ensures Contains(Digest(pr), Join(IssueCommentLines(pr.issueComments[i]), "\n"))
  {
    var lines := CommentLines(pr);
    var x := Join(IssueCommentLines(pr.issueComments[i]), "\n");
    IssueLinesAt(pr.issueComments, i);
    assert lines[3 * i..3 * i + 3] == IssueLines(pr.issueComments)[3 * i..3 * i + 3];
    JoinContainsRun(lines, 3 * i, 3, "\n");
    DigestTail(pr, x);
  }

  /** Every review comment appears in the digest as its header line, its
      file and line, its body and "---". */
  lemma DigestHasReviewComment(pr: PullRequest, i: nat)
    requires i < |pr.reviewComments|
    ensures Contains(Digest(pr), Join(ReviewCommentLines(pr.reviewComments[i]), "\n"))
  {
    var lines := CommentLines(pr);
    var k := 3 * |pr.issueComments|;
    var x := Join(ReviewCommentLines(pr.reviewComments[i]), "\n");
    IssueLinesAt2(pr.issueComments);
    ReviewLinesAt(pr.reviewComments, i);
    assert lines[k + 4 * i..k + 4 * i + 4] == ReviewLines(pr.reviewComments)[4 * i..4 * i + 4];
    JoinContainsRun(lines, k + 4 * i, 4, "\n");
    DigestTail(pr, x);
  }

  lemma IssueLinesAt2(cs: seq<Comment>)
    ensures |IssueLines(cs)| == 3 * |cs|
  {
    if |cs| > 0 {
      IssueLinesAt(cs, 0);
    }
  }

  /** What the joined comments contain, the digest contains. */
  lemma DigestTail(pr: PullRequest, x: string)
    requires Contains(Join(CommentLines(pr), "\n"), x)
    ensures Contains(Digest(pr), x)
  {
    var c := Join(CommentLines(pr), "\n");
    var j := FirstIndex(c, x).value;
    var pre := "DIFF" + "\n" + Join(DiffLines(pr.files), "\n") + "\n" + "COMMENTS" + "\n";
    DigestShape(pr);
    assert Digest(pr) == pre + c + "";
    InfixOf(pre, c, "", x, j);
  }

  /** An occurrence inside the middle of a text is an occurrence in it. */
  lemma InfixOf(a: string, m: string, b: string, x: string, j: nat)
    requires OccursAt(m, x, j)
    ensures Contains(a + m + b, x)
  {
    assert (a + m + b)[|a| + j..|a| + j + |x|] == m[j..j + |x|];
    assert OccursAt(a + m + b, x, |a| + j);
  }

  // ---------------------------------------------------------------------
  // get_last_pr_comments
  // ---------------------------------------------------------------------

  /** The most recent of the last conversation comment and the last review
      comment. */
  datatype Latest = FromIssue(issue: Comment) | FromReview(review: ReviewComment) {
    function Login(): string {
      match this
      case FromIssue(c) => c.login
      case FromReview(c) => c.login
    }
    function Created(): int {
      match this
      case FromIssue(c) => c.created
      case FromReview(c) => c.created
    }
  }

  /** The later of the two last comments; on a tie, the review comment. */
  function LatestComment(pr: PullRequest): (r: Option<Latest>)
    ensures r.None? <==> |pr.issueComments| == 0 && |pr.reviewComments| == 0
    ensures r.Some? && |pr.issueComments| > 0 ==>
              r.value.Created() >= pr.issueComments[|pr.issueComments| - 1].created
    ensures r.Some? && |pr.reviewComments| > 0 ==>
              r.value.Created() >= pr.reviewComments[|pr.reviewComments| - 1].created
    ensures r.Some? && r.value.FromIssue? <==>
              && |pr.issueComments| > 0
              && (|pr.reviewComments| > 0 ==>
                    pr.issueComments[|pr.issueComments| - 1].created
                    > pr.reviewComments[|pr.reviewComments| - 1].created)
    ensures r.Some? && r.value.FromIssue? ==> r.value.issue == pr.issueComments[|pr.issueComments| - 1]
    ensures r.Some? && r.value.FromReview? ==> r.value.review == pr.reviewComments[|pr.reviewComments| - 1]
  {
    var ni, nr := |pr.issueComments|, |pr.reviewComments|;
    if ni > 0 && nr > 0 then
      var i, v := pr.issueComments[ni - 1], pr.reviewComments[nr - 1];
      Some(if i.created > v.created then FromIssue(i) else FromReview(v))
    else if ni > 0 then Some(FromIssue(pr.issueComments[ni - 1]))
    else if nr > 0 then Some(FromReview(pr.reviewComments[nr - 1]))
    else None
  }

  /** `get_last_pr_comments`: the digest of the pull request, or None (the
      source's False) when it has no comments or the latest one is the
      authenticated user's own. */
  function GetLastPrComments(gh: Github, url: string): (r: Result<Option<string>>)
    ensures r.Err? <==> FindPull(gh, url).Err?
    ensures r.Ok? ==> var pr := FindPull(gh, url).value.2;
      (r.value.Some? <==> LatestComment(pr).Some? && LatestComment(pr).value.Login() != gh.me)
    ensures r.Ok? && r.value.Some? ==> r.value.value == Digest(FindPull(gh, url).value.2)
  {
    var (_, _, pr) :- FindPull(gh, url);
    match LatestComment(pr)
    case None => Ok(None)
    case Some(last) =>
      if last.Login() == gh.me then Ok(None) else Ok(Some(Digest(pr)))
  }

  /** A pull request without comments yields None. */
  lemma GetLastPrCommentsNoComments(gh: Github, url: string)
    requires FindPull(gh, url).Ok?
    requires var pr := FindPull(gh, url).value.2;
      |pr.issueComments| == 0 && |pr.reviewComments| == 0
    ensures GetLastPrComments(gh, url) == Ok(None)
  {
  }

  /** A review comment that ties with the last conversation comment counts
      as the latest, so its author decides. */
  lemma GetLastPrCommentsTie(gh: Github, url: string)
    requires FindPull(gh, url).Ok?
    requires var pr := FindPull(gh, url).value.2;
      && |pr.issueComments| > 0 && |pr.reviewComments| > 0
      && pr.issueComments[|pr.issueComments| - 1].created
         == pr.reviewComments[|pr.reviewComments| - 1].created
    ensures var pr := FindPull(gh, url).value.2;
      GetLastPrComments(gh, url)
      == Ok(if pr.reviewComments[|pr.reviewComments| - 1].login == gh.me then None else Some(Digest(pr)))
  {
    var pr := FindPull(gh, url).value.2;
    var last := LatestComment(pr);
    assert last.Some? && last.value.FromReview?;
    assert last.value.Login() == pr.reviewComments[|pr.reviewComments| - 1].login;
  }

  // ---------------------------------------------------------------------
  // add_logs_as_pr_comments
  // ---------------------------------------------------------------------

  /** `add_logs_as_pr_comments`: the logs, verbatim, as one conversation
      comment on the pull request the URL names. */
  function AddLogsAsPrComments(gh: Github, url: string, logs: string): (t: Traced<()>)
    ensures t.result.Ok? <==> FindPull(gh, url).Ok?
    ensures t.result.Err? ==> t.ops == []
    ensures t.result.Ok? ==> |t.ops| == 1 && t.ops[0].CreateIssueComment? && t.ops[0].body == logs
  {
    match FindPull(gh, url)
    case Err(e) => Traced([], Err(e))
    case Ok((path, n, _)) => Traced([CreateIssueComment(path, n, logs)], Ok(()))
  }

  /** The comment lands on the pull request the URL spells out. */
  lemma AddLogsAsPrCommentsTarget(gh: Github, owner: string, repo: string, num: string, logs: string)
    requires |owner| > 0 && '/' !in owner && |repo| > 0 && '/' !in repo
    requires |num| > 0 && AllDigits(num)
    requires owner + "/" + repo in gh.repos && DigitsValue(num) in gh.repos[owner + "/" + repo].pulls
    ensures AddLogsAsPrComments(gh, PrUrlText(owner, repo, num), logs).ops
            == [CreateIssueComment(owner + "/" + repo, DigitsValue(num), logs)]
  {
    PrUrlPartsRoundTrip(owner, repo, num);
  }

  // ---------------------------------------------------------------------
  // create_pull_request
  // ---------------------------------------------------------------------

  const DefaultTitlePrefix := "Automated changes from fork at "
  const DefaultBody := "This pull request contains automated " + "changes pushed to the forked repository."
  const NoChangesNeeded := "No changes needed"

  /** What the caller asks for. */
  datatype PrRequest = PrRequest(
    sourceName: string,
    targetName: string,
    title: Option<string>,
    body: Option<string>,
    baseBranch: string)

  /** What the clone, the clock and the API answer: the active branch, the
      formatted UTC time, the commit count of the comparison (or the error
      it raised), and the URL of the created pull request (or the error). */
  datatype PrOracle = PrOracle(
    currentBranch: string,
    now: string,
    comparison: Result<nat>,
    created: Result<string>)

  /** The requested base branch if the target has it, else "master" if it
      has that. */
  function BaseBranch(branches: set<string>, requested: string): (r: Option<string>)
    ensures r.Some? ==> r.value in branches
    ensures r.Some? ==> r.value == requested || (r.value == "master" && requested !in branches)
    ensures r.None? <==> requested !in branches && "master" !in branches
  {
    if requested in branches then Some(requested)
    else if "master" in branches then Some("master")
    else None
  }

  /** The title and body of the pull request, with the fixed defaults for
      falsy ones. */
  function TitleOf(req: PrRequest, o: PrOracle): string {
    if Truthy(req.title) then req.title.value else DefaultTitlePrefix + o.now
  }

  function BodyOf(req: PrRequest): string {
    if Truthy(req.body) then req.body.value else DefaultBody
  }

  /** `create_pull_request`. */
  function CreatePullRequest(gh: Github, req: PrRequest, o: PrOracle): (t: Traced<string>)
    ensures var target := RemoveSuffix(req.targetName, ".git");
      target !in gh.repos ==> t == Traced([], Err(ValueError("Target repository not found: " + target)))
    ensures var target := RemoveSuffix(req.targetName, ".git");
      var source := RemoveSuffix(req.sourceName, ".git");
      target in gh.repos && source !in gh.repos ==>
        t == Traced([], Err(ValueError("Source repository not found: " + source)))
    ensures (exists k :: 0 <= k < |t.ops| && t.ops[k].CreatePull?) ==> t.result == o.created
    ensures t.result == Ok(NoChangesNeeded) && o.created != Ok(NoChangesNeeded) ==> o.comparison == Ok(0)
  {
    var target := RemoveSuffix(req.targetName, ".git");
    var source := RemoveSuffix(req.sourceName, ".git");
    if target !in gh.repos then Traced([], Err(ValueError("Target repository not found: " + target)))
    else if source !in gh.repos then Traced([], Err(ValueError("Source repository not found: " + source)))
    else match BaseBranch(gh.repos[target].branches, req.baseBranch)
      case None => Traced([], Err(ValueError("Could not find a valid base branch")))
      case Some(base) =>
        var fetched := [Fetch("origin")];
        match o.comparison
        case Err(e) => Traced(fetched, Err(e))
        case Ok(n) =>
          if n == 0 then Traced(fetched, Ok(NoChangesNeeded))
          else
            var head := gh.repos[source].ownerLogin + ":" + o.currentBranch;
            Traced(fetched + [CreatePull(target, TitleOf(req, o), BodyOf(req), head, base)], o.created)
  }

  /** A pull request is opened exactly when both repositories exist, a base
      branch is found and the comparison counts a commit; then it is the
      only one, from "{source owner}:{branch}" onto the chosen base, with the
      given or default title and body, and its URL is the result. */
  lemma CreatePullRequestOpens(gh: Github, req: PrRequest, o: PrOracle)
    ensures var t := CreatePullRequest(gh, req, o);
      var target := RemoveSuffix(req.targetName, ".git");
      var source := RemoveSuffix(req.sourceName, ".git");
      var opens := target in gh.repos && source in gh.repos
                   && BaseBranch(gh.repos[target].branches, req.baseBranch).Some?
                   && o.comparison.Ok? && o.comparison.value > 0;
      && ((exists k :: 0 <= k < |t.ops| && t.ops[k].CreatePull?) <==> opens)
      && (opens ==> t.ops == [Fetch("origin"),
                              CreatePull(target, TitleOf(req, o), BodyOf(req),
                                         gh.repos[source].ownerLogin + ":" + o.currentBranch,
                                         BaseBranch(gh.repos[target].branches, req.baseBranch).value)]
                    && t.result == o.created)
  {
    var t := CreatePullRequest(gh, req, o);
    var target := RemoveSuffix(req.targetName, ".git");
    var source := RemoveSuffix(req.sourceName, ".git");
    if target in gh.repos && source in gh.repos
       && BaseBranch(gh.repos[target].branches, req.baseBranch).Some?
       && o.comparison.Ok? && o.comparison.value > 0 {
      assert t.ops[1].CreatePull?;
    } else {
      assert |t.ops| <= 1 && (|t.ops| == 1 ==> t.ops[0] == Fetch("origin"));
    }
  }

  /** Without a commit to propose, the result is "No changes needed" and no
      pull request is opened. */
  lemma CreatePullRequestNoChanges(gh: Github, req: PrRequest, o: PrOracle)
    requires RemoveSuffix(req.targetName, ".git") in gh.repos
    requires RemoveSuffix(req.sourceName, ".git") in gh.repos
    requires BaseBranch(gh.repos[RemoveSuffix(req.targetName, ".git")].branches, req.baseBranch).Some?
    requires o.comparison == Ok(0)
    ensures CreatePullRequest(gh, req, o) == Traced([Fetch("origin")], Ok(NoChangesNeeded))
  {
  }

  /** A target with neither the requested base branch nor "master" is
      refused before anything is fetched. */
  lemma CreatePullRequestNoBase(gh: Github, req: PrRequest, o: PrOracle)
    requires RemoveSuffix(req.targetName, ".git") in gh.repos
    requires RemoveSuffix(req.sourceName, ".git") in gh.repos
    requires var b := gh.repos[RemoveSuffix(req.targetName, ".git")].branches;
      req.baseBranch !in b && "master" !in b
    ensures CreatePullRequest(gh, req, o) == Traced([], Err(ValueError("Could not find a valid base branch")))
  {
  }
}
