/** `market_scan.py`: fetch the open instances, skip those that already have
    a proposal, and propose the current bid for each remaining instance whose
    background names a GitHub repository.

    The market's answers are inputs and the HTTP requests sent are the
    trace. The proposals are sent one after another; the source starts them
    together and waits for all of them. */
module MarketScan {
  import opened Wrappers
  import opened Strings
  import opened GithubUrls
  import Pricing

  /** An open instance as the market lists it. */
  datatype Instance = Instance(id: string, background: string)

  /** An HTTP request to the market: its URL and its query parameters or
      JSON body. */
  datatype Request =
    | Get(url: string, query: seq<(string, int)>)
    | Post(url: string, body: seq<(string, real)>)

  /** The market's answers: the open instances, the instance ids of the
      existing proposals (or the error either request raised), and the
      instances whose proposal request fails. */
  datatype Market = Market(
    instances: Result<seq<Instance>>,
    proposals: Result<seq<string>>,
    rejects: set<string>)

  function InstancesUrl(marketUrl: string): string {
    marketUrl + "/v1/instances/"
  }

  function ProposalsUrl(marketUrl: string): string {
    marketUrl + "/v1/proposals/"
  }

  function ProposalUrl(marketUrl: string, id: string): string {
    marketUrl + "/v1/proposals/create/for-instance/" + id
  }

  /** The proposal request for one instance: the URL of its id and the bid
      as "max_bid". */
  function ProposalRequest(marketUrl: string, id: string, bid: real): Request {
    Post(ProposalUrl(marketUrl, id), [("max_bid", bid)])
  }

  predicate HasRepoUrl(inst: Instance) {
    FindGithubRepoUrl(inst.background).Some?
  }

  // ---------------------------------------------------------------------
  // _create_proposal_for_instance
  // ---------------------------------------------------------------------

  /** `_create_proposal_for_instance`: nothing for an instance without a
      GitHub URL; otherwise the proposal at the bid `calculate_next_bid()`
      returns, which fails when the market rejects it. The strategy comes
      back unchanged. */
  function CreateProposal(marketUrl: string, s: Pricing.Strategy, round2: real -> real,
                          inst: Instance, rejects: set<string>)
    : (r: (Pricing.Strategy, seq<Request>, Result<()>))
    ensures r.0 == s
    ensures !HasRepoUrl(inst) ==> r.1 == [] && r.2.Ok?
    ensures HasRepoUrl(inst) ==> r.1 == [ProposalRequest(marketUrl, inst.id, s.currentBid)]
    ensures r.2.Err? <==> HasRepoUrl(inst) && inst.id in rejects
  {
    if FindGithubRepoUrl(inst.background).None? then (s, [], Ok(()))
    else
      var (s2, bid) := Pricing.CalculateNextBid(s, None, round2);
      var sent := [ProposalRequest(marketUrl, inst.id, bid)];
      if inst.id in rejects then (s2, sent, Err(Raised("proposal rejected for instance " + inst.id)))
      else (s2, sent, Ok(()))
  }

  // ---------------------------------------------------------------------
  // Selecting the instances to propose for
  // ---------------------------------------------------------------------

  /** The instances, in order, whose id is not among `filled`. */
  function Unfilled(instances: seq<Instance>, filled: set<string>): (r: seq<Instance>)
    ensures |r| <= |instances|
    ensures forall k :: 0 <= k < |r| ==> r[k] in instances && r[k].id !in filled
    decreases |instances|
  {
    if |instances| == 0 then []
    else
      var rest := Unfilled(instances[1..], filled);
      if instances[0].id in filled then rest else [instances[0]] + rest
  }

  /** Every open instance without a proposal is selected. */
  lemma {:induction false} UnfilledComplete(instances: seq<Instance>, filled: set<string>, inst: Instance)
    requires inst in instances && inst.id !in filled
    ensures inst in Unfilled(instances, filled)
    decreases |instances|
  {
    if instances[0] != inst {
      assert inst in instances[1..];
      UnfilledComplete(instances[1..], filled, inst);
    }
  }

  /** The proposal requests for the selected instances, in order, and
      whether any failed. */
  function ProposeAll(marketUrl: string, s: Pricing.Strategy, round2: real -> real,
                      insts: seq<Instance>, rejects: set<string>): (r: (seq<Request>, bool))
    ensures r.1 <==> exists k :: 0 <= k < |insts| && HasRepoUrl(insts[k]) && insts[k].id in rejects
    decreases |insts|
  {
    if |insts| == 0 then ([], false)
    else
      var (_, sent, res) := CreateProposal(marketUrl, s, round2, insts[0], rejects);
      var (more, failed) := ProposeAll(marketUrl, s, round2, insts[1..], rejects);
      RejectedCons(insts, rejects);
      (sent + more, res.Err? || failed)
  }

  /** Some instance of a non-empty list is rejected exactly when its head
      or some instance of its tail is. */
  lemma RejectedCons(insts: seq<Instance>, rejects: set<string>)
    requires |insts| > 0
    ensures (exists k :: 0 <= k < |insts| && HasRepoUrl(insts[k]) && insts[k].id in rejects)
            <==> ((HasRepoUrl(insts[0]) && insts[0].id in rejects)
                  || exists k :: 0 <= k < |insts[1..]| && HasRepoUrl(insts[1..][k]) && insts[1..][k].id in rejects)
  {
    if exists k :: 0 <= k < |insts| && HasRepoUrl(insts[k]) && insts[k].id in rejects {
      var k :| 0 <= k < |insts| && HasRepoUrl(insts[k]) && insts[k].id in rejects;
      if k > 0 {
        assert insts[1..][k - 1] == insts[k];
      }
    }
    if exists k :: 0 <= k < |insts[1..]| && HasRepoUrl(insts[1..][k]) && insts[1..][k].id in rejects {
      var k :| 0 <= k < |insts[1..]| && HasRepoUrl(insts[1..][k]) && insts[1..][k].id in rejects;
      assert insts[k + 1] == insts[1..][k];
    }
  }

  /** A request is sent for exactly the instances with a GitHub URL, at the
      current bid. */
  lemma {:induction false} ProposeAllSends(marketUrl: string, s: Pricing.Strategy, round2: real -> real,
                                           insts: seq<Instance>, rejects: set<string>, req: Request)
    ensures req in ProposeAll(marketUrl, s, round2, insts, rejects).0 <==>
            exists inst :: inst in insts && HasRepoUrl(inst) && req == ProposalRequest(marketUrl, inst.id, s.currentBid)
    decreases |insts|
  {
    if |insts| > 0 {
      ProposeAllSends(marketUrl, s, round2, insts[1..], rejects, req);
      var sent := CreateProposal(marketUrl, s, round2, insts[0], rejects).1;
      assert ProposeAll(marketUrl, s, round2, insts, rejects).0
             == sent + ProposeAll(marketUrl, s, round2, insts[1..], rejects).0;
      if exists inst :: inst in insts && HasRepoUrl(inst) && req == ProposalRequest(marketUrl, inst.id, s.currentBid) {
        var inst :| inst in insts && HasRepoUrl(inst) && req == ProposalRequest(marketUrl, inst.id, s.currentBid);
        if inst != insts[0] {
          assert inst in insts[1..];
        }
      }
    }
  }

  // ---------------------------------------------------------------------
  // async_market_scan_handler
  // ---------------------------------------------------------------------

  /** The ids that already have a proposal. */
  function Filled(proposals: seq<string>): set<string> {
    set k | 0 <= k < |proposals| :: proposals[k]
  }

  /** `async_market_scan_handler`: the strategy afterwards, the requests
      sent, and whether it raised. */
  function ScanHandler(marketUrl: string, openCode: int, s: Pricing.Strategy, round2: real -> real, m: Market)
    : (r: (Pricing.Strategy, seq<Request>, Result<()>))
    ensures r.0 == s
    ensures |r.1| > 0 && r.1[0] == Get(InstancesUrl(marketUrl), [("instance_status", openCode)])
    ensures m.instances.Err? ==> r.1 == r.1[..1] && r.2 == Err(m.instances.error)
    ensures m.instances == Ok([]) ==> r.1 == r.1[..1] && r.2.Ok?
    ensures m.instances.Ok? && |m.instances.value| > 0 ==>
              |r.1| > 1 && r.1[1] == Get(ProposalsUrl(marketUrl), [])
    ensures m.instances.Ok? && |m.instances.value| > 0 && m.proposals.Err? ==>
              |r.1| == 2 && r.2 == Err(m.proposals.error)
  {
    var listed := [Get(InstancesUrl(marketUrl), [("instance_status", openCode)])];
    match m.instances
    case Err(e) => (s, listed, Err(e))
    case Ok(instances) =>
      if |instances| == 0 then (s, listed, Ok(()))
      else
        var asked := [listed[0], Get(ProposalsUrl(marketUrl), [])];
        match m.proposals
        case Err(e) => (s, asked, Err(e))
        case Ok(proposals) =>
          var selected := Unfilled(instances, Filled(proposals));
          var (sent, failed) := ProposeAll(marketUrl, s, round2, selected, m.rejects);
          (s, asked + sent,
           if failed then Err(Raised("a proposal request failed")) else Ok(()))
  }

  /** With no open instances nothing else is requested and nothing is
      proposed. */
  lemma NoOpenInstancesNoProposals(marketUrl: string, openCode: int, s: Pricing.Strategy,
                                   round2: real -> real, m: Market)
    requires m.instances == Ok([])
    ensures var r := ScanHandler(marketUrl, openCode, s, round2, m);
      && r.1 == [Get(InstancesUrl(marketUrl), [("instance_status", openCode)])]
      && r.2 == Ok(())
      && forall k :: 0 <= k < |r.1| ==> !r.1[k].Post?
  {
  }

  /** An id is filled exactly when some proposal names it. */
  lemma FilledIff(proposals: seq<string>, id: string)
    ensures id in Filled(proposals) <==> id in proposals
  {
    if id in proposals {
      var k :| 0 <= k < |proposals| && proposals[k] == id;
    }
  }

  /** After the two listings, the scan sends exactly the proposals for the
      selected instances, and fails exactly when one of them fails. */
  lemma ScanSends(marketUrl: string, openCode: int, s: Pricing.Strategy, round2: real -> real, m: Market)
    requires m.instances.Ok? && |m.instances.value| > 0 && m.proposals.Ok?
    ensures var r := ScanHandler(marketUrl, openCode, s, round2, m);
      var p := ProposeAll(marketUrl, s, round2, Unfilled(m.instances.value, Filled(m.proposals.value)), m.rejects);
      && r.1 == [Get(InstancesUrl(marketUrl), [("instance_status", openCode)]), Get(ProposalsUrl(marketUrl), [])] + p.0
      && (r.2.Err? <==> p.1)
  {
  }

  /** A proposal is posted exactly for the open instances that have no
      proposal yet and whose background names a GitHub repository, to the
      URL of the instance's id, at the current bid. */
  lemma ScanPostsExactly(marketUrl: string, openCode: int, s: Pricing.Strategy, round2: real -> real,
                         m: Market, req: Request)
    requires m.instances.Ok? && |m.instances.value| > 0 && m.proposals.Ok?
    ensures var r := ScanHandler(marketUrl, openCode, s, round2, m);
      req.Post? ==>
        (req in r.1 <==>
           exists inst :: && inst in m.instances.value
                          && inst.id !in m.proposals.value
                          && HasRepoUrl(inst)
                          && req == ProposalRequest(marketUrl, inst.id, s.currentBid))
  {
    ScanSends(marketUrl, openCode, s, round2, m);
    if req.Post? {
      var sent := ProposeAll(marketUrl, s, round2, Unfilled(m.instances.value, Filled(m.proposals.value)), m.rejects).0;
      assert req in ScanHandler(marketUrl, openCode, s, round2, m).1 <==> req in sent;
      if req in sent {
        ScanPostsSound(marketUrl, s, round2, m, req);
      } else {
        ScanPostsComplete(marketUrl, s, round2, m, req);
      }
    }
  }

  /** Every proposal sent is for an open instance without a proposal whose
      background names a GitHub repository. */
  lemma ScanPostsSound(marketUrl: string, s: Pricing.Strategy, round2: real -> real, m: Market, req: Request)
    requires m.instances.Ok? && m.proposals.Ok?
    requires req in ProposeAll(marketUrl, s, round2, Unfilled(m.instances.value, Filled(m.proposals.value)), m.rejects).0
    ensures exists inst :: && inst in m.instances.value
                           && inst.id !in m.proposals.value
                           && HasRepoUrl(inst)
                           && req == ProposalRequest(marketUrl, inst.id, s.currentBid)
  {
    var selected := Unfilled(m.instances.value, Filled(m.proposals.value));
    ProposeAllSends(marketUrl, s, round2, selected, m.rejects, req);
    var inst :| inst in selected && HasRepoUrl(inst) && req == ProposalRequest(marketUrl, inst.id, s.currentBid);
    SelectedOpenUnfilled(m.instances.value, m.proposals.value, inst);
  }

  /** A selected instance is open and has no proposal. */
  lemma SelectedOpenUnfilled(instances: seq<Instance>, proposals: seq<string>, inst: Instance)
    requires inst in Unfilled(instances, Filled(proposals))
    ensures inst in instances && inst.id !in proposals
  {
    var selected := Unfilled(instances, Filled(proposals));
    var k :| 0 <= k < |selected| && selected[k] == inst;
    FilledIff(proposals, inst.id);
  }

  /** Every open instance without a proposal whose background names a
      GitHub repository gets its proposal. */
  lemma ScanPostsComplete(marketUrl: string, s: Pricing.Strategy, round2: real -> real, m: Market, req: Request)
    requires m.instances.Ok? && m.proposals.Ok?
    ensures (exists inst :: && inst in m.instances.value
                            && inst.id !in m.proposals.value
                            && HasRepoUrl(inst)
                            && req == ProposalRequest(marketUrl, inst.id, s.currentBid))
            ==> req in ProposeAll(marketUrl, s, round2, Unfilled(m.instances.value, Filled(m.proposals.value)), m.rejects).0
  {
    var filled := Filled(m.proposals.value);
    var selected := Unfilled(m.instances.value, filled);
    if exists inst :: && inst in m.instances.value && inst.id !in m.proposals.value && HasRepoUrl(inst)
                      && req == ProposalRequest(marketUrl, inst.id, s.currentBid) {
      var inst :| && inst in m.instances.value && inst.id !in m.proposals.value && HasRepoUrl(inst)
                  && req == ProposalRequest(marketUrl, inst.id, s.currentBid);
      FilledIff(m.proposals.value, inst.id);
      UnfilledComplete(m.instances.value, filled, inst);
      ProposeAllSends(marketUrl, s, round2, selected, m.rejects, req);
    }
  }

  /** The scan fails exactly when a listing fails or the market rejects a
      proposal it was sent. */
  lemma ScanFailsIff(marketUrl: string, openCode: int, s: Pricing.Strategy, round2: real -> real, m: Market)
    requires m.instances.Ok? && |m.instances.value| > 0 && m.proposals.Ok?
    ensures var r := ScanHandler(marketUrl, openCode, s, round2, m);
      var selected := Unfilled(m.instances.value, Filled(m.proposals.value));
      r.2.Err? <==> exists k :: 0 <= k < |selected| && HasRepoUrl(selected[k]) && selected[k].id in m.rejects
  {
    ScanSends(marketUrl, openCode, s, round2, m);
  }
}
