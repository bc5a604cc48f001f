/** The side effects the git helpers perform on a local clone, on its remotes
    and on its configuration, recorded in order as a trace. */
module GitEffects {
  import opened Wrappers

  datatype GitOp =
    | LookupRepo(path: string)                      // GitHub API `get_repo`
    | CreateRemote(name: string, url: string)
    | SetRemoteUrl(name: string, url: string)
    | Fetch(remote: string)
    | Checkout(branch: string)
    | CheckoutTracking(start: string, branch: string) // `git checkout <start> -b <branch>`
    | CreateHead(branch: string)
    | Merge(rev: string)
    | Pull(remote: string, branch: string)
    | Push(remote: string, refspec: string, setUpstream: bool) // "" is git's default refspec
    | StageAll
    | GenerateMessage
    | Commit(message: string)
    | SetConfig(section: string, option: string, value: string)
    | CreateIssueComment(repo: string, number: int, body: string)
    | CreatePull(repo: string, title: string, body: string, head: string, base: string)

  /** A push of any refspec appears in the trace. */
  predicate Pushes(ops: seq<GitOp>) {
    exists k :: 0 <= k < |ops| && ops[k].Push?
  }

  predicate Commits(ops: seq<GitOp>) {
    exists k :: 0 <= k < |ops| && ops[k].Commit?
  }

  function CountPushes(ops: seq<GitOp>): (n: nat)
    ensures n == 0 <==> !Pushes(ops)
  {
    if |ops| == 0 then 0
    else
      assert Pushes(ops) <==> ops[0].Push? || Pushes(ops[1..]) by {
        if Pushes(ops) && !ops[0].Push? {
          var k :| 0 <= k < |ops| && ops[k].Push?;
          assert ops[1..][k - 1].Push?;
        }
        if Pushes(ops[1..]) {
          var k :| 0 <= k < |ops[1..]| && ops[1..][k].Push?;
          assert ops[k + 1].Push?;
        }
      }
      (if ops[0].Push? then 1 else 0) + CountPushes(ops[1..])
  }

  lemma {:induction false} CountPushesAppend(xs: seq<GitOp>, ys: seq<GitOp>)
    ensures CountPushes(xs + ys) == CountPushes(xs) + CountPushes(ys)
    decreases |xs|
  {
    if |xs| > 0 {
      assert (xs + ys)[1..] == xs[1..] + ys;
      CountPushesAppend(xs[1..], ys);
    } else {
      assert xs + ys == ys;
    }
  }

  /** The URL of remote `name` after the trace, starting from `url`: the
      last re-pointing of that remote wins. */
  function RemoteUrlAfter(ops: seq<GitOp>, name: string, url: string): (r: string)
    ensures (forall k :: 0 <= k < |ops| ==> !(ops[k].SetRemoteUrl? && ops[k].name == name)) ==> r == url
    ensures |ops| > 0 && ops[|ops| - 1].SetRemoteUrl? && ops[|ops| - 1].name == name ==> r == ops[|ops| - 1].url
    decreases |ops|
  {
    if |ops| == 0 then url
    else
      var next := if ops[0].SetRemoteUrl? && ops[0].name == name then ops[0].url else url;
      assert |ops| > 1 ==> ops[1..][|ops[1..]| - 1] == ops[|ops| - 1];
      RemoteUrlAfter(ops[1..], name, next)
  }

  /** The effects a helper performed, in order, and how it ended: a value, or
      the exception it raised. */
  datatype Traced<T> = Traced(ops: seq<GitOp>, result: Result<T>)
}
