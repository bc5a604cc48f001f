# minimal-provider-agent-market, modelled in Dafny

The system is a provider agent for an AI task market. It runs two periodic
jobs:

- **Market scan.** It lists the market's open instances (tasks) and
  bids on each one that names a GitHub repository and has no proposal
  yet. The bid comes from a small pricing strategy.
- **Solve instances.** It takes the proposals the market awarded in the
  last day and fetches each instance. An instance is solved when it is
  resolved and names a repository, and also when its chat points to a
  pull request with new review feedback. Solving means forking and
  cloning the repository, preparing a branch, and running an aider
  solver container on a prompt built from the background and the
  comments. The agent then posts the solver's logs on the pull request,
  pushes, opens a pull request when it is a first attempt, and sends
  the outcome back to the market chat.

The helpers behind these jobs are modelled too:

- the GitHub URL recognisers and splitters;
- the git and GitHub effects (push, branch creation, fork
  synchronisation, pull-request creation, PR comments);
- the prompt builders;
- the container arguments and shell quoting;
- the settings validation.

Every collaborator the code calls is a value passed in, and every effect
is an element of a returned trace. Collaborators here means the market's
HTTP API, GitHub, git, the LLM that writes titles and bodies, the solver
container and the clock. Traces are `GitOp` lists (module `GitEffects`),
market `Request`s and solve `Event`s. Python exceptions are the `Err`
case of `Result`. Python truthiness of an optional string is `Truthy`.

Modules follow the source files:

| module | source file |
|---|---|
| `Wrappers`, `Strings` | Python built-ins: `Option`/`Result`, `str.split`/`join`/`replace`/`strip`, `int()` |
| `GitEffects` | the git and GitHub operations as data |
| `GithubUrls` | `find_github_repo_url`, `fork_repo`'s path, `extract_repo_name_from_url`, `get_pr_url`, the PR-URL split |
| `GithubApi` | `src/utils/git_utils/github_api.py` (`sync_fork_with_upstream`) |
| `GitCore` | `src/utils/git_utils/core.py` |
| `PrManagement` | `src/utils/git_utils/pr_management.py` |
| `GitLegacy` | the versions in `src/utils/git.py` that differ from the `git_utils` package |
| `CommandBuilder` | `src/utils/git_utils/command_builder.py` |
| `AgentMarket` | `src/utils/agent_market.py` |
| `AiderAgent` | `src/agents/aider.py` |
| `ModifyRepo` | `src/aider_solver/modify_repo.py` |
| `Config` | `src/config.py` and `src/enums.py` |
| `Pricing` | `src/utils/pricing.py` |
| `MarketScan` | `src/market_scan.py` |
| `SolveInstances` | `src/solve_instances.py` |

`src/utils/__init__.py` re-exports the helpers of `src/utils/git.py`.
The solve job therefore runs the `git.py` versions of four functions:
`push_commits`, `create_and_push_branch`, `get_last_pr_comments` and
`add_aider_logs_as_pr_comments`. These are modelled in `GitLegacy`, and
the newer `git_utils` versions are modelled as well, with lemmas that
compare the two. `SolveInstances` uses the `git.py` versions, with two
exceptions, both listed under Findings:

- The working branch is made by the `git_utils` `create_and_push_branch`.
- Pull-request URLs are split by the corrected `GithubUrls.PrUrlParts`.

"## Left out" names every member these two choices affect, and says where
the model and the source part. The solver launcher that the source calls
always raises; the model also covers a launcher that returns logs, as
explained there.

## Model

| member | source | states |
|---|---|---|
| GithubUrls.FindGithubRepoUrl | src/utils/git.py:12-17 | None exactly when `https://github.com/[^\s]+` matches nowhere. Otherwise the leftmost match, extended over the whole non-whitespace run after the prefix. The `.` of "github.com" matches any non-newline character. |
| GithubUrls.FindGithubRepoUrlFirst | src/utils/git_utils/tests/test_github_api.py:24-25 | With two repository URLs in a text, the first is returned. |
| GithubUrls.ForkPathOfRepoUrl | src/utils/git.py:29-32 | The repository `fork_repo` looks up for "https://github.com/" + path is that path without one trailing ".git". |
| GithubUrls.ForkPathExample | src/utils/git_utils/tests/test_github_api.py:40-43 | "https://github.com/original/repo" is looked up as "original/repo". |
| GithubUrls.ExtractRepoName | src/utils/git.py:164-192 | Succeeds exactly when the candidate part has the owner/repo shape: after trimming, the text after "git@github.com:" or after the last "github.com/". It then returns that part; otherwise it raises ValueError. |
| GithubUrls.OwnerSlashRepoFirstSlash | src/utils/git.py:184-189 | The accepted shape is exactly: the first '/' is neither the first nor the last character. |
| GithubUrls.ExtractRepoNameHttps | src/utils/git_utils/tests/test_github_api.py:46-57 | An HTTPS URL, bare or ending in ".git" or "/", yields its "owner/repo". |
| GithubUrls.ExtractRepoNameSsh | src/utils/git_utils/tests/test_github_api.py:52-53 | An SSH URL "git@github.com:owner/repo.git" yields "owner/repo". |
| GithubUrls.ExtractRepoNameRejectsOwnerOnly | src/utils/git_utils/tests/test_github_api.py:60-61 | A URL naming only an owner raises. |
| GithubUrls.ExtractRepoNameRejectsNoSlash | src/utils/git_utils/tests/test_github_api.py:62-63 | Text without any '/' raises. |
| GithubUrls.PrUrlMatchComplete | src/utils/git.py:375-380 | Wherever the PR-URL pattern can match with some owner, repo and number, the matcher succeeds there with those boundaries. The number is extended over every following digit. |
| GithubUrls.PrUrlMatchSound | src/utils/git.py:375-380 | What the matcher finds has the pattern's shape and spells the URL of its parts. |
| GithubUrls.GetPrUrl | src/utils/git.py:375-380 | Whatever `get_pr_url` returns is a pull-request URL. |
| GithubUrls.GetPrUrlNoneIff | src/utils/git.py:375-380 | `get_pr_url` returns None exactly when the pattern matches nowhere in the message. |
| GithubUrls.GetPrUrlLeftmost | src/utils/git_utils/tests/test_pr_management.py:124-127 | The URL returned is the match at the leftmost index where the pattern can match. |
| GithubUrls.PrUrlPartsAsWritten | src/utils/git.py:267-269 | The split as written: it succeeds only when the text after the last "github.com/" is one "/pull/" between two pieces. The number is the second piece read as an int. |
| GithubUrls.PrUrlPartsAsWrittenRejectsPagesRepo | src/utils/git.py:267-269 | For any owner, any repository name ending in "github.com" and any one-digit number, the pull-request URL has the shape `get_pr_url` finds, yet the split as written raises. |
| GithubUrls.PrUrlParts | src/utils/git.py:267-269 | The corrected split succeeds exactly on a text that is one whole pull-request URL. The number is non-negative, and the URL starts with the prefix, the owner/repo and "/pull/". |
| GithubUrls.PrUrlPartsRoundTrip | src/utils/git.py:267-269 | Splitting the URL built from owner, repo and number gives back "owner/repo" and the number. |
| GithubUrls.PrUrlPartsOkIff | src/utils/git.py:267-269 | The corrected split accepts exactly the texts `get_pr_url` can return. |
| GithubUrls.GetPrUrlParts | src/utils/git.py:375-380 | The corrected split accepts every URL `get_pr_url` finds in a message. |
| GithubUrls.PrUrlPartsAgree | src/utils/git.py:264-269 | Take a URL `get_pr_url` finds whose owner and repository do not end in "github.com" and whose repository is not named "pull". On it, the split as written and the corrected split agree: both give "owner/repo" and the number. |
| GithubUrls.PrUrlPartsAsWrittenDropsPagesOwner | src/utils/git.py:267-269 | For an owner ending in "github.com", the split as written succeeds with the repository alone as the path. The corrected split gives "owner/repo". |
| GithubApi.RemotePath | src/utils/git_utils/github_api.py:64-70 | An origin has a repository path exactly when it is https:// or git@. |
| GithubApi.RemotePathHttps | src/utils/git_utils/github_api.py:65-66 | An https origin is looked up by the path after "github.com/", less one ".git". |
| GithubApi.RemotePathSsh | src/utils/git_utils/github_api.py:67-68 | A git@ origin is looked up by the path after the last ':', less one ".git". |
| GithubApi.TokenUrl | src/utils/git_utils/github_api.py:104-106 | The rewritten origin starts with "https://" + token + "@". |
| GithubApi.SyncForkWithUpstream | src/utils/git_utils/github_api.py:53-113 | Any other scheme raises "Unrecognized remote URL format" with no effect. Otherwise the first effect is the repository lookup. Success exactly when the repository is found. |
| GithubApi.SyncRejectsOtherScheme | src/utils/git_utils/github_api.py:69-70 | An origin that is neither https nor git@ raises before any lookup. |
| GithubApi.SyncNonFork | src/utils/git_utils/github_api.py:77-80 | A repository that is not a fork is only looked up: no checkout, merge or push. |
| GithubApi.MergeOpsShape | src/utils/git_utils/github_api.py:91-108 | After the remote set-up come: fetch upstream, check out the default branch, merge its upstream copy. The steps end with the single push of that branch. |
| GithubApi.SyncFork | src/utils/git_utils/github_api.py:82-108 | A fork is fetched, checked out and merged from upstream. It ends with pushing its default branch to origin, the only push. |
| GithubApi.SyncUpstreamRemote | src/utils/git_utils/github_api.py:84-89 | The "upstream" remote is created exactly when absent. It is re-pointed exactly when it exists with another URL. |
| GithubApi.SyncOriginToken | src/utils/git_utils/github_api.py:104-106 | The origin gets the token in its URL exactly when it is an https URL. |
| GitCore.AddAndCommit | src/utils/git_utils/core.py:17-38 | A clean clone has no effect. A dirty one is staged, then committed last. The message is the generated one, or "agent bot commit" when generation fails. |
| GitCore.CredentialUrl | src/utils/git_utils/core.py:50-54 | The origin is re-pointed exactly when its URL, less trailing '/', contains "github.com/". The new URL starts with "https://" + token + "@github.com/". |
| GitCore.CredentialUrlOfGithub | src/utils/git_utils/core.py:50-54 | "https://github.com/path/" becomes "https://token@github.com/path". |
| GitCore.CredentialUrlOther | src/utils/git_utils/core.py:51 | A URL that does not name GitHub is left alone. |
| GitCore.PushCommits | src/utils/git_utils/core.py:40-71 | A detached HEAD does nothing and returns False. Otherwise it pushes, at most once, exactly when HEAD differs from an existing origin copy of the current branch. The result says whether it pushed. |
| GitCore.SetGitConfig | src/utils/git_utils/core.py:73-84 | Exactly two settings, both in section "user": the name and the e-mail. |
| GitCore.RemoteBranchNamesOf | src/utils/git_utils/core.py:109 | A slash-free branch that origin has is seen as remote. A branch containing '/' never is, because only the last path piece is kept. |
| GitCore.CreateAndPushBranch | src/utils/git_utils/core.py:86-150 | Never raises, since every exception is logged. Its effects start with the fork synchronisation. |
| GitCore.SyncOpsKinds | src/utils/git_utils/github_api.py:53-113 | Synchronisation never creates a head, checks out a tracking branch, pulls or pushes with upstream tracking. |
| GitCore.BranchOpsPolicy | src/utils/git_utils/core.py:114-147 | Create when neither local nor remote. Check out the tracking branch when only remote. Pull exactly when remote. Push with upstream exactly when not remote and the origin path is recognised. |
| GitCore.CreateAndPushBranchPolicy | src/utils/git_utils/core.py:94-147 | The same four if-and-only-ifs for the whole function, after a successful synchronisation of a non-bare clone. |
| GitCore.CreateAndPushBranchPushesNew | src/utils/git_utils/core.py:119-147 | A new branch is created and pushed with upstream tracking. |
| GitEffects.CountPushes | src/utils/git_utils/core.py:66 | The push count is zero exactly when the trace has no push. |
| GitEffects.CountPushesAppend | src/utils/git_utils/github_api.py:108 | Push counts add over concatenated traces. |
| GitEffects.RemoteUrlAfter | src/utils/git_utils/core.py:132-133 | A remote never re-pointed keeps its URL. The last re-pointing wins. |
| GitLegacy.LegacyPushCommits | src/utils/git.py:39-71 | A detached HEAD does nothing and returns False. A missing origin main/master raises (IndexError) with no effect. It pushes exactly when HEAD differs from origin's main/master; the push is the current branch with upstream tracking, pushed once, last. The origin is re-pointed exactly when it pushes from a plain github.com https URL. |
| GitLegacy.LegacyCredentialUrlOfGithub | src/utils/git.py:59-63 | A plain GitHub https URL gets the token as credentials. |
| GitLegacy.CredentialUrlsAgree | src/utils/git.py:58-63 | Both versions give the same credential URL for a plain GitHub https URL. |
| GitLegacy.LegacyPushIgnoresCurrentBranchRef | src/utils/git.py:52-56 | With HEAD equal to origin's main but ahead of origin's copy of a feature branch, this version does not push. The newer one does. |
| GitLegacy.RemoteBranchList | src/utils/git.py:250 | One branch name per ref. |
| GitLegacy.LegacyCreateAndPushBranch | src/utils/git.py:209-262 | Never raises. A bare clone does nothing. Otherwise: create the branch unless it is local, check it out, then pull it from origin. |
| GitLegacy.LegacyPushesOnlyUnlisted | src/utils/git.py:230-258 | It pushes only a branch origin already has (else the pull raised) that GitHub does not list for the repository. |
| GitLegacy.LegacyNewBranchNeverPushed | src/utils/git.py:218-230 | A branch new to both the clone and origin is created, checked out and pulled. The pull raises, so it is never pushed. |
| GitLegacy.LegacyLatestTime | src/utils/git.py:274-293 | No time without a conversation comment. Otherwise the later of the last conversation and last review comment times. |
| GitLegacy.LegacyGetLastPrComments | src/utils/git.py:264-333 | Fails exactly when the URL's pull request cannot be found. Returns the digest exactly when there is a conversation comment and no commit newer than the latest comment. |
| GitLegacy.LatestTimesAgree | src/utils/git.py:274-293 | With a conversation comment, both versions pick the same latest time. |
| GitLegacy.LegacyIgnoresReviewOnly | src/utils/git.py:279-285 | Review comments alone give nothing here. The newer version reports them. |
| GitLegacy.LegacyStaleComments | src/utils/git.py:295-299 | A commit newer than every comment gives nothing. |
| GitLegacy.TemplateSplit | src/utils/git.py:336-356 | Split back on newlines, the prompt gives the template lines around the background and the details. The "\n" before the actions header becomes an empty line. |
| GitLegacy.AddPrCommentsToBackgroundLines | src/utils/git.py:336-356 | For single-line inputs: 16 lines, starting with the instructions header. The background, "PULL REQUEST DETAILS" and the details sit at lines 7-9, and the actions header at line 11. |
| GitLegacy.AddPrCommentsToBackground | src/utils/git.py:336-356 | For any background and details, the prompt holds "ISSUE DESCRIPTION", the background, "PULL REQUEST DETAILS" and the details, one per line, in that order. |
| GitLegacy.AiderComment | src/utils/git.py:369 | The comment is "## Aider:\n", the logs verbatim, then "\n". |
| GitLegacy.AddAiderLogsAsPrComments | src/utils/git.py:359-372 | Fails, with no effect, exactly when the pull request cannot be found. Otherwise one conversation comment holding the headed logs. |
| GitLegacy.AiderLogsVersusPlainLogs | src/utils/git_utils/pr_management.py:164-172 | Same outcome as `add_logs_as_pr_comments`; only the heading differs. |
| PrManagement.FindPull | src/utils/git_utils/pr_management.py:97-105 | Finds the pull request exactly when the URL splits and the repository and number exist. The repository path and number are those of the split. |
| PrManagement.DiffLinesAt | src/utils/git_utils/pr_management.py:130-136 | File i contributes entries 4i..4i+3 of the diff. |
| PrManagement.IssueLinesAt | src/utils/git_utils/pr_management.py:140-144 | Conversation comment i contributes entries 3i..3i+2. |
| PrManagement.ReviewLinesAt | src/utils/git_utils/pr_management.py:146-151 | Review comment i contributes entries 4i..4i+3. |
| PrManagement.DigestShape | src/utils/git_utils/pr_management.py:153-160 | The digest is "DIFF", the joined diff, "COMMENTS", the joined comments. |
| PrManagement.Digest | src/utils/git_utils/pr_management.py:153-160 | The digest starts with a "DIFF" line and holds a "COMMENTS" line. |
| PrManagement.DigestHasFile | src/utils/git_utils/pr_management.py:130-160 | Every file's four entries appear in the digest. |
| PrManagement.DigestHasIssueComment | src/utils/git_utils/pr_management.py:140-160 | Every conversation comment appears with its header, body and "---". |
| PrManagement.DigestHasReviewComment | src/utils/git_utils/pr_management.py:146-160 | Every review comment appears with its header, file and line, body and "---". |
| PrManagement.LatestComment | src/utils/git_utils/pr_management.py:110-125 | None exactly when there are no comments. Otherwise the later of the two last comments, with a tie going to the review comment. |
| PrManagement.GetLastPrComments | src/utils/git_utils/pr_management.py:97-162 | Fails exactly when the pull request cannot be found. Returns the digest exactly when the latest comment is someone else's. |
| PrManagement.GetLastPrCommentsNoComments | src/utils/git_utils/tests/test_pr_management.py:181-198 | No comments gives nothing. |
| PrManagement.GetLastPrCommentsTie | src/utils/git_utils/pr_management.py:114-119 | On a tie the review comment's author decides. |
| PrManagement.AddLogsAsPrComments | src/utils/git_utils/pr_management.py:164-172 | Fails, with no effect, exactly when the pull request cannot be found. Otherwise one comment holding the logs verbatim. |
| PrManagement.AddLogsAsPrCommentsTarget | src/utils/git_utils/pr_management.py:166-172 | The comment lands on the repository and number the URL spells. |
| PrManagement.BaseBranch | src/utils/git.py:104-113 | The requested branch if the target has it, else "master" if it has that. None exactly when it has neither. |
| PrManagement.CreatePullRequest | src/utils/git.py:74-161 | An unknown target, then an unknown source, raise "... repository not found" with no effect. A pull request is opened only with the oracle's URL as the result. "No changes needed" comes only from a zero-commit comparison. |
| PrManagement.CreatePullRequestOpens | src/utils/git.py:104-153 | It opens exactly when both repositories, a base branch and a positive comparison exist. It then fetches and opens one pull request with the given or default title and body, head "owner:branch" and the chosen base. |
| PrManagement.CreatePullRequestNoChanges | src/utils/git.py:118-126 | A zero-commit comparison fetches only and returns "No changes needed". |
| PrManagement.CreatePullRequestNoBase | src/utils/git.py:104-113 | With neither the requested base nor "master", it raises "Could not find a valid base branch" with no effect. |
| CommandBuilder.TemplateLinesJoin | src/utils/git_utils/command_builder.py:3-15 | Each of the four templates is its line list joined by newlines, chosen by which texts are truthy. |
| CommandBuilder.TemplateLinesShape | src/utils/git_utils/command_builder.py:17-104 | The headers and the background sit at fixed lines. The PR section, then the user section, follow the background when present. The requirements come last. |
| CommandBuilder.BuildWithContents | src/utils/git_utils/command_builder.py:17-104 | Every prompt holds the instruction, context, actions and requirements headers and the background on its own line. Each truthy optional text sits on its own line under its header. |
| CommandBuilder.PrAndChatOrder | src/utils/git_utils/command_builder.py:42-52 | With both texts the order is: background, PR comments, user messages, actions. Each is closed by a blank line. |
| CommandBuilder.PrSectionIff | src/utils/git_utils/command_builder.py:6-15 | The PR header appears exactly when the PR comments are truthy, unless the caller's texts contain it. |
| CommandBuilder.UserSectionIff | src/utils/git_utils/command_builder.py:6-15 | The user header appears exactly when the user messages are truthy, unless the caller's texts contain it. |
| CommandBuilder.BuildSolverCommand | src/utils/git_utils/command_builder.py:17-104 | The source's prompt holds the background on its own line under the issue label. Each truthy optional text sits on its own line under its header. |
| SourcePrompt.BuildSolverCommandContents | src/utils/git_utils/tests/test_command_builder.py:122-134 | The source's prompt always carries the system requirements. |
| SourcePrompt.BuildSolverCommandSections | src/utils/git_utils/command_builder.py:3-104 | For the source's wording, each optional section is present exactly when its text is truthy. |
| AgentMarket.UrlMatch | src/utils/agent_market.py:61 | A URL starts here exactly when `https?://` does. The match runs to the next whitespace or the end. |
| AgentMarket.RemoveUrls | src/utils/agent_market.py:61 | The output is never longer than the input. |
| AgentMarket.RemoveAllUrls | src/utils/agent_market.py:58-61 | The output is never longer than the input. |
| AgentMarket.RemoveUrlsUnchanged | src/utils/agent_market.py:61 | Text without "http://" and "https://" is unchanged. |
| AgentMarket.RemoveAllUrlsUnchanged | src/utils/agent_market.py:58-61 | Text with neither label nor scheme is unchanged. |
| AgentMarket.RemoveUrlsKeepsSpace | src/utils/agent_market.py:61 | Whitespace is always kept. |
| AgentMarket.RemoveUrlsWordPrefix | src/utils/agent_market.py:61 | Up to its first whitespace, the output equals the input. |
| AgentMarket.RemoveUrlsNoUrl | src/utils/agent_market.py:61 | No URL starts anywhere in the output. |
| AgentMarket.RemoveUrlsIdempotent | src/utils/agent_market.py:61 | Removing URLs twice removes nothing more. |
| AgentMarket.NoUrlFixed | src/utils/agent_market.py:61 | Text in which no URL starts is left unchanged. |
| AgentMarket.RemoveAllUrlsNoUrl | src/utils/agent_market.py:58-61 | In the output, every "http://" or "https://" is followed by whitespace or the end. |
| AgentMarket.GetSolverCommand | src/utils/agent_market.py:64-67 | The prompt is the background whatever the PR comments are. |
| AiderAgent.EscapeSolverCommand | src/agents/aider.py:12 | A command without `'` is unchanged. |
| AiderAgent.EscapeStep | src/agents/aider.py:12 | Each `'` becomes `'"'"'`; every other character is kept. |
| AiderAgent.EscapeReadsBack | src/agents/aider.py:12-22 | Inside single quotes, the escaped text reads back in the shell as the original. |
| AiderAgent.SolverWordReadsBack | src/agents/aider.py:12-22 | `'` + escape(cmd) + `'` is one shell word whose value is cmd. |
| AiderAgent.Script | src/agents/aider.py:15-24 | The `bash -c` script starts with the activation and `python modify_repo.py --model-name`. The test-command arguments follow the front exactly when a test command is given. |
| AiderAgent.ScriptCarriesCommands | src/agents/aider.py:12-24 | The script holds the quoted solver word at a fixed place, reading back as the solver command. Nothing follows it exactly when there is no test command. |
| AiderAgent.StripAfterFront | src/agents/aider.py:24 | `.strip()` only trims the end of the arguments. |
| AiderAgent.GetContainerKwargs | src/agents/aider.py:6-39 | The image, the `/bin/bash -c` entrypoint with the script, the environment as given, and exactly two rw mounts (the repo at /app, the aider cache at /home/ubuntu). |
| AiderAgent.UserNamesIds | src/agents/aider.py:31 | The user splits on ':' into the uid and the gid. |
| ModifyRepo.VerifyTests | src/aider_solver/modify_repo.py:8-20 | No message and False without a truthy test command. Otherwise one "/test" message, and True exactly when the output has no "FAIL" or "ERROR". |
| ModifyRepo.VerifyTestsFailsOnMarker | src/aider_solver/modify_repo.py:17-18 | Output containing "FAIL" or "ERROR" anywhere fails. |
| ModifyRepo.VerifyTestsPassesClean | src/aider_solver/modify_repo.py:17-20 | Output without 'F' or 'E' passes. |
| ModifyRepo.ModifyRepoWithAider | src/aider_solver/modify_repo.py:23-31 | The solver command is sent first, then the test messages. It raises "Tests did not pass or were not found." exactly when a truthy test command reports a failure. |
| ModifyRepo.SolverRunsOnceFirst | src/aider_solver/modify_repo.py:27-30 | The solver command is sent once, first. Every later message is a test run, and there is one exactly when a test command is given. |
| ModifyRepo.NoTestCommandNeverRaises | src/aider_solver/modify_repo.py:29 | Without a test command it never raises. |
| Config.ParseModelName | src/enums.py:4-9 | A parsed model name has the parsed text as its value. |
| Config.EnumValuesRoundTrip | src/enums.py:4-20 | Every member of the three enumerations is recovered from its value. |
| Config.NoErrorsIff | src/config.py:13-63 | Field validation reports nothing exactly when every field is valid: the required secrets, the bid bounds and the enumerations. |
| Config.ValidateModel | src/config.py:68-86 | Succeeds, returning the settings unchanged, exactly when the settings are consistent. Otherwise it gives the ValueError of the first failing check, in source order. |
| Config.Build | src/config.py:12-86 | Succeeds exactly when the fields are valid and the assembled settings are consistent. Field errors are reported together. |
| Config.BuildBounds | src/config.py:42-49 | Built settings satisfy max_bid > 0, min_bid >= 0, 0 < backoff < 1 and increase > 1. |
| Config.BuildDefaults | src/config.py:16-63 | Absent fields take their documented defaults. |
| Config.NonRaaidNeedsFoundationModel | src/config.py:70-72 | A non-raaid agent without a foundation model is refused. |
| Config.LitellmBaseNeeded | src/config.py:74-84 | A raaid agent or the litellm provider without the Docker-internal base is refused. |
| Config.MinAboveMaxAccepted | src/config.py:42-43 | A minimum bid above the maximum is accepted. |
| Config.Str | src/config.py:101-103 | A GitHub token, market key, OpenRouter key, OpenAI key or AWS secret key appears in the text only if it is made of the characters of "Settings(***)". |
| Config.Repr | src/config.py:105-107 | The same holds for `repr`. |
| Config.StrRevealsNothing | src/config.py:101-107 | `str` and `repr` are the same constant, so they reveal no secret. |
| Pricing.CalculateNextBid | src/utils/pricing.py:50-61 | With no outcome: the current bid and no change. With an outcome: the outcome is recorded, the bid is kept after a profit or backed off (not below the minimum) after a loss, and the returned value is the rounded minimum. Nothing else changes. |
| Pricing.Run | src/utils/pricing.py:50-61 | Only the bid and the outcome flag change. A sequence without outcomes changes nothing, and the flag holds the last outcome when there is one. |
| Pricing.ResetStrategy | src/utils/pricing.py:63-66 | The bid becomes 1, not the initial 0.03. The outcome flag is cleared and everything else kept. |
| Pricing.RunAppend | src/utils/pricing.py:50-61 | Running two outcome sequences equals running their concatenation. |
| Pricing.RunBounds | src/utils/pricing.py:50-61 | Any outcome sequence keeps the bid between the minimum and where it started, with the factors and prices unchanged. |
| Pricing.BidNonIncreasing | src/utils/pricing.py:55-58 | Along any outcome sequence the bid never rises. |
| Pricing.InitialBidFixed | src/utils/pricing.py:22-26 | From a new strategy the bid stays 0.03 forever. |
| Pricing.UpdateModelPrices | src/utils/pricing.py:29-37 | Succeeds exactly when every entry has an id; otherwise KeyError "id". Only the table changes, and every priced model is named by an entry. |
| Pricing.TableKeys | src/utils/pricing.py:32-36 | A model is priced exactly when an entry names it. |
| Pricing.UpdateModelPricesComplete | src/utils/pricing.py:32-36 | Every model is priced as its last entry says. |
| Pricing.EstimateCost | src/utils/pricing.py:39-48 | Known models use their prices, unknown ones the default model's. KeyError when the default is unknown too. |
| Pricing.EstimateCostAdditive | src/utils/pricing.py:46-48 | Estimates add over token counts. |
| Pricing.EstimateCostFallback | src/utils/pricing.py:41-43 | An unknown model costs what the default model costs. |
| MarketScan.CreateProposal | src/market_scan.py:14-37 | No request without a repository URL. Otherwise one POST to the instance's proposal URL with the current bid as "max_bid". It raises exactly when that POST is rejected. The strategy is unchanged. |
| MarketScan.Unfilled | src/market_scan.py:66-71 | Only instances without a proposal are selected, in order. |
| MarketScan.UnfilledComplete | src/market_scan.py:66-71 | Every instance without a proposal is selected. |
| MarketScan.ProposeAll | src/market_scan.py:67-72 | Fails exactly when some instance with a repository URL is rejected. |
| MarketScan.ProposeAllSends | src/market_scan.py:67-72 | A request is sent for exactly the instances with a repository URL, at the current bid. |
| MarketScan.ScanHandler | src/market_scan.py:40-72 | It first GETs the open instances. It stops after that on failure or on an empty list. Otherwise the second request lists the proposals, and a failure there stops with two requests. |
| MarketScan.NoOpenInstancesNoProposals | src/market_scan.py:54-56 | With no open instances, one request and no proposal. |
| MarketScan.ScanPostsExactly | src/market_scan.py:59-72 | A POST is sent exactly for the open instances that have no proposal and do have a repository URL. |
| MarketScan.ScanFailsIff | src/market_scan.py:36-72 | After both listings succeed, the scan fails exactly when a proposal that was sent is rejected. |
| SolveInstances.AwardedProposals | src/solve_instances.py:141-149 | Only proposals of the source list with the awarded status, created within the last day, are kept. |
| SolveInstances.AwardedProposalsComplete | src/solve_instances.py:144-149 | Every such proposal is kept. |
| SolveInstances.AwardedProposalsAppend | src/solve_instances.py:144-149 | The filter distributes over concatenation, so order is kept. |
| SolveInstances.AwardedProposalsBoundary | src/solve_instances.py:148 | A proposal created exactly one day ago is dropped. |
| SolveInstances.GetInstanceToSolve | src/solve_instances.py:16-51 | Any status but resolved gives nothing after one request, and so does a missing repository URL. The chat is read exactly when both hold. A solvable instance keeps its id and background, carries its repository URL, and has a PR URL exactly when it has truthy PR comments. Errors come only from the comment lookup of the last message's PR. |
| SolveInstances.EmptyChatSolvesFresh | src/solve_instances.py:51 | A resolved instance with a repository URL and no chat is solved from scratch. |
| SolveInstances.FollowUpOnLastMessage | src/solve_instances.py:40-49 | A follow-up uses the PR URL of the last chat message and that PR's latest comments. |
| SolveInstances.OnlyLastMessageCounts | src/solve_instances.py:38-40 | Earlier chat messages never change the outcome. |
| SolveInstances.Publish | src/solve_instances.py:98-124 | The push comes first and a failure there propagates. Nothing pushed returns the logs; a follow-up returns "Added comments to PR". Neither opens a pull request. A first solve returns "Solved instance ... with PR url". A pull request is opened only for a pushed first solve with a valid target, with the LLM title and body against "main". |
| SolveInstances.PublishNoComment | src/solve_instances.py:98-124 | Publishing posts no PR comment. |
| SolveInstances.Prepare | src/solve_instances.py:76-79 | The git identity, name then e-mail, is set last, after the branch work. |
| SolveInstances.Setup | src/solve_instances.py:68-93 | Fork first and the solver run, with the model's name, the prompt and the test command, last. There is no earlier solver run and no chat message. |
| SolveInstances.AfterSolver | src/solve_instances.py:95-124 | Only git effects. No comment without a PR URL. Failed solver logs stop everything. |
| SolveInstances.PostLogs | src/solve_instances.py:95-96 | Without a PR URL nothing happens. With one, it succeeds exactly when the pull request is found and then makes one comment on it, the headed logs. A failure has no effect. |
| SolveInstances.Unrun | src/solve_instances.py:68-93 | Without a foundation model: fork first, then clone and git work. The solver never runs and no message is sent. |
| SolveInstances.SolveFork | src/solve_instances.py:62-128 | Fork first and never a chat message. A missing foundation model or failed logs raise. The solver runs exactly when a foundation model is set, with that model's name, the prompt from the trimmed background, and the suggested test command. With a model set and a failing launcher, the trace ends at the solver run and the launcher's error is raised. |
| SolveInstances.SolveInstance | src/solve_instances.py:54-128 | An unparsable fork URL raises right after the fork. Otherwise the solve continues with the fork's name. |
| SolveInstances.AfterSolverLogsFirst | src/solve_instances.py:95-96 | With a PR URL, the first thing after the solver run is the headed logs comment on that pull request. |
| SolveInstances.LogsPostedBeforePush | src/solve_instances.py:88-98 | With a PR URL, any push is preceded by the logs comment, which comes right after the solver run. |
| SolveInstances.Reply | src/solve_instances.py:185-197 | At most one message, never empty. |
| SolveInstances.Step | src/solve_instances.py:170-197 | Fails exactly when the instance lookup raises. At most one message is sent, last: the non-empty outcome of solving the found instance, to that instance. A successful non-empty outcome is always sent. |
| SolveInstances.SolveEachSendsTruthy | src/solve_instances.py:170-197 | No empty message is ever sent. |
| SolveInstances.SolveEachErrIff | src/solve_instances.py:164-197 | The loop fails exactly when the instance lookup of some proposal raises. |
| SolveInstances.SolveEachFirstError | src/solve_instances.py:170-173 | The loop's error is that of the first lookup that raises. Every earlier lookup succeeded. |
| SolveInstances.SolveEachFailsAt | src/solve_instances.py:170-173 | A lookup that raises makes the loop fail from any earlier position. |
| SolveInstances.SolveFailureContinues | src/solve_instances.py:187-188 | A failed solve sends nothing and the loop goes on. |
| SolveInstances.LookupErrorStops | src/solve_instances.py:171 | An exception from the instance lookup ends the handler. |
| SolveInstances.SolveInstancesHandler | src/solve_instances.py:164-197 | It first fetches the proposals, and a failure there ends the handler. No empty message is sent. |

## Left out

- **Network and environment.** HTTP, GitHub, git, the LLM, the container runtime, the filesystem, the clock and `os.environ` are inputs (oracle values) or traces. Response JSON is already parsed, and a missing JSON key is not modelled except the "id" of a pricing entry.
- `get_pr_title` and `get_pr_body` call an LLM. Their results are fields of the solve's world (`SolveWorld.title`, `SolveWorld.body`).
- `clone_repository`, `fork_repo`'s API calls, `copy_file_to_directory` and `change_directory_ownership_recursive` are effects assumed to succeed. The `file_utils` module is not part of this model.
- `aider_solver.suggest_test_command` is an oracle: the suggested test command.
- **The launcher as written always raises.** `src/aider_solver/__init__.py:2` exports `launch_container_with_repo_mounted` from `src/aider_solver/launch_container.py:11-13`. That function takes three parameters and returns None. `src/solve_instances.py:88-93` calls it with four arguments, so the call raises `TypeError` every time, before any container starts. Nothing after line 88 runs: no logs comment, no push, no pull request and no reply. In the model the launcher is the world's `logs: Result<string>`. `Err` is the source as written: the trace ends at the `RunSolver` event, which stands for the attempted call, and the error is raised (`SolveInstances.SolveFork`). `Ok(logs)` models a launcher that takes the four arguments and returns the solver's logs. That is what the code after line 93 expects, but the source does not have it. The following members state only that intended behaviour: SolveInstances.AfterSolver, SolveInstances.Publish, SolveInstances.PostLogs, SolveInstances.AfterSolverLogsFirst and SolveInstances.LogsPostedBeforePush.
- **Wiring.** `src/utils/__init__.py` imports names that `src/utils/git.py` does not define (`build_solver_command`, `add_logs_as_pr_comments`, `add_and_commit`), plus `format_messages`. It also does not export `get_solver_command`, `add_pr_comments_to_background` or `add_aider_logs_as_pr_comments`, which `src/solve_instances.py` uses. As written, the package fails to import. The model assumes every name `solve_instances.py` uses resolves to the function of that name in `src/utils/git.py` or `src/utils/agent_market.py`.
- The helpers that `src/utils/git.py` duplicates from `git_utils` with the same body are modelled once: `find_github_repo_url`, `clone_repository`, `fork_repo`, `create_pull_request`, `extract_repo_name_from_url`, `set_git_config`.
- `asyncio.gather` runs the proposal posts concurrently. The model sends them in list order. With `gather`'s default, the first failure propagates; the scan's `Result` says only whether any post failed.
- `round(x, 2)` on floats is the parameter `round2`. Money is `real`, so float rounding is not modelled.
- `shlex.quote` is the parameter `quote`. Only the solver command's own escaping is modelled and proved.
- Proposal creation dates are integer seconds. ISO parsing, time zones and microseconds are not modelled.
- `\d` is taken as ASCII digits; Python's `re` also accepts other Unicode decimal digits.
- Pydantic's exact error text is left out. Field errors are a list of field names in one `ValueError`. Case-insensitive environment names and `load_settings`' AWS secret fetch are left out too.
- `_send_message` raising is logged and the loop continues. A `SendMessage` event is recorded whether or not the market accepts it.
- The market scan's module-level `pricing_strategy` is the parameter `s`, which the scan never changes. `update_model_prices` and `estimate_cost` have no caller in the core.
- `SolveInstances.SolveEach`: the world's answers for the i-th proposal are given by position (`answers(i)`), not by instance id.
- `extract_repo_name_from_url(None)` (no target URL in the background) raises in the source with an `AttributeError`. It is modelled as a `Raised` error with its own message.
- Logging (`loguru`) is left out.
- **Unused functions.** `src/aider_solver/modify_repo.py`'s argument parsing (`main`) is left out. So are the `git_utils` `clone_repository` and `get_pr_url`, which equal the `git.py` versions.
- AgentMarket.RemoveUrls: its contract bounds only the length. Its meaning is stated by the lemmas RemoveUrlsNoUrl, RemoveUrlsWordPrefix, RemoveUrlsIdempotent and NoUrlFixed.
- PrManagement.FindPull: it splits the URL with the corrected `GithubUrls.PrUrlParts`, not with the split as written at `pr_management.py:100-102` and `166-168` and `git.py:267-269` and `362-364`. The two agree on every URL `get_pr_url` finds whose owner and repository do not end in "github.com" and whose repository is not named "pull" (`GithubUrls.PrUrlPartsAgree`). They differ on the rest. A repository ending in "github.com" makes the split as written raise (`PrUrlPartsAsWrittenRejectsPagesRepo`). An owner ending in "github.com" makes it look up the repository name alone (`PrUrlPartsAsWrittenDropsPagesOwner`). A repository named "pull" also makes it raise. The source also accepts URLs that are not `https://github.com/...`, such as "http://github.com/o/r/pull/3", and the model refuses them.
- PrManagement.GetLastPrComments: it finds the pull request through `FindPull`, so the split it uses is the corrected one; see the FindPull line.
- PrManagement.AddLogsAsPrComments: same as GetLastPrComments.
- PrManagement.AddLogsAsPrCommentsTarget: same as GetLastPrComments.
- GitLegacy.LegacyGetLastPrComments: same as GetLastPrComments, for the split at `git.py:267-269`.
- GitLegacy.AddAiderLogsAsPrComments: same as GetLastPrComments, for the split at `git.py:362-364`.
- SolveInstances.GetInstanceToSolve: its comment lookup goes through `FindPull`, so the split is the corrected one; see the FindPull line.
- SolveInstances.Prepare: it makes the working branch with the corrected `GitCore.CreateAndPushBranch`. The source runs `create_and_push_branch` of `git.py:209-262` (`GitLegacy.LegacyCreateAndPushBranch`). That version pulls a new branch from origin before pushing it, the pull raises, and the exception is swallowed. So the branch is not pushed there, and its first push is the one `push_commits` makes after the solver has committed. The model's trace pushes the new branch right after creating it.
- SolveInstances.Setup: its git steps come from Prepare; see the Prepare line.
- SolveInstances.SolveFork: its git steps come from Prepare; see the Prepare line.
- SolveInstances.SolveInstance: its git steps come from Prepare; see the Prepare line.
- GithubApi.SyncForkWithUpstream: the git commands it runs always succeed in the model. A merge conflict (`github_api.py:102`), a rejected push (`github_api.py:108`) or a failing fetch would raise in the source. Only a repository lookup can fail.
- GitCore.PushCommits: the push (`core.py:66`) always succeeds in the model; a rejected push would raise in the source.
- GitLegacy.LegacyPushCommits: the push (`git.py:66`) always succeeds in the model; a rejected push would raise in the source.
- AgentMarket.RemoveAllUrls: its contract bounds only the length. Its meaning is stated by the lemmas RemoveAllUrlsNoUrl and RemoveAllUrlsUnchanged.
- GitCore.CreateAndPushBranch: its own contract states only that it never raises and starts with synchronisation. The branch policy is stated by CreateAndPushBranchPolicy, under a successful synchronisation of a non-bare clone. Its fetch, checkout, pull and push always succeed in the model. In the source a failing one is logged and swallowed, which ends its effects early.

## Findings

| source | as written | input that shows it | evidently intended | confidence | as-written member | corrected member |
|---|---|---|---|---|---|---|
| src/utils/git.py:267-269 | Takes the text after the last "github.com/" and unpacks `split("/pull/")` into exactly two pieces. The same split is at `git.py:362-364`, `pr_management.py:100-102` and `pr_management.py:166-168`. | "https://github.com/alice/alice.github.com/pull/3", which `get_pr_url` returns. The text after the last "github.com/" is "pull/3", which has no "/pull/", so the unpacking raises. | Every URL `get_pr_url` returns splits into its "owner/repo" and number. | not executed | GithubUrls.PrUrlPartsAsWrittenRejectsPagesRepo | GithubUrls.PrUrlPartsOkIff |
| src/utils/git.py:218-258 | Pulls the branch from origin right after creating it, before checking whether origin has it. | A fresh clone and the new branch "inst-1", which origin lacks. `pull("inst-1")` raises, the exception is swallowed, and nothing is pushed. | A new branch is created and pushed with upstream tracking, as `create_and_push_branch` in `git_utils/core.py` does. In the solve job the branch is pushed later all the same, by `push_commits`, once the solver has committed. | not executed | GitLegacy.LegacyNewBranchNeverPushed | GitCore.CreateAndPushBranchPushesNew |
