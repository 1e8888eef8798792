/** github/prs.rs: the pull-request list and detail projections. */
module GithubPrs {
  import opened Wrappers
  import opened Entities
  import opened Json
  import opened Http
  import opened Store

  /** Each entry's `number` member rendered with `to_string`. */
  function PrNumbers(prs: seq<Value>): (r: seq<string>)
  {
    seq(|prs|, i requires 0 <= i < |prs| => Render(Get(prs[i], "number")))
  }

  /** `list_prs_github`: None when the auth headers cannot be built (no
      request is made) or the request, its status or its body fails; a body
      that is not an array is a panic. */
  function ListPrsGithub(headersOk: bool, reply: Reply): (r: Outcome<Option<seq<string>>>)
    ensures !headersOk || !ParsedOk(reply) ==> r == Returned(None)
    ensures headersOk && ParsedOk(reply) && !reply.body.value.Array? ==> r == Panicked
    ensures headersOk && ParsedOk(reply) && reply.body.value.Array? ==>
              r == Returned(Some(PrNumbers(reply.body.value.items)))
  {
    if !headersOk || !ParsedOk(reply) then Returned(None)
    else
      match AsArray(reply.body.value)
      case None => Panicked
      case Some(prs) => Returned(Some(PrNumbers(prs)))
  }

  /** The list keeps the order and length of the array, and each entry
      whose number is a non-negative integer yields its decimal digits,
      which read back as that number. */
  lemma PrNumbersFaithful(prs: seq<Value>)
    ensures |PrNumbers(prs)| == |prs|
    ensures forall i :: 0 <= i < |prs| && Get(prs[i], "number").Number? && Get(prs[i], "number").n >= 0 ==>
              IsDigits(PrNumbers(prs)[i]) && DigitsValue(PrNumbers(prs)[i]) == Get(prs[i], "number").n
  {
    forall i | 0 <= i < |prs| && Get(prs[i], "number").Number? && Get(prs[i], "number").n >= 0
      ensures IsDigits(PrNumbers(prs)[i]) && DigitsValue(PrNumbers(prs)[i]) == Get(prs[i], "number").n
    {
      var n: nat := Get(prs[i], "number").n;
      NatDigitsShape(n);
      DigitsRoundTrip(n);
    }
  }

  /** `get_pr_info_github`: None unless the reply succeeded and `base.sha`,
      `head.sha`, `state` and `head.ref` are all strings; then they fill
      the record, with the state passed through as written. */
  function GetPrInfoGithub(reply: Reply): (r: Option<PrInfo>)
    ensures r.Some? <==>
              ParsedOk(reply) &&
              AsStr(Get(Get(reply.body.value, "base"), "sha")).Some? &&
              AsStr(Get(Get(reply.body.value, "head"), "sha")).Some? &&
              AsStr(Get(reply.body.value, "state")).Some? &&
              AsStr(Get(Get(reply.body.value, "head"), "ref")).Some?
    ensures r.Some? ==>
              var pr := reply.body.value;
              Str(r.value.baseHeadCommit) == Get(Get(pr, "base"), "sha") &&
              Str(r.value.prHeadCommit) == Get(Get(pr, "head"), "sha") &&
              Str(r.value.state) == Get(pr, "state") &&
              Str(r.value.prBranch) == Get(Get(pr, "head"), "ref")
  {
    if !ParsedOk(reply) then None
    else
      var pr := reply.body.value;
      var base :- AsStr(Get(Get(pr, "base"), "sha"));
      var head :- AsStr(Get(Get(pr, "head"), "sha"));
      var state :- AsStr(Get(pr, "state"));
      var branch :- AsStr(Get(Get(pr, "head"), "ref"));
      Some(PrInfo(base, head, state, branch))
  }

  /** `get_and_store_pr_info`: one write, tagged "github", exactly when the
      detail projection succeeded. */
  method GetAndStorePrInfo(db: PrStore, owner: string, repo: string, number: string, reply: Reply)
    modifies db
    ensures db.writes ==
              old(db.writes) +
              (if GetPrInfoGithub(reply).Some?
               then [GithubPrUpdate(owner, repo, GetPrInfoGithub(reply).value, number, GITHUB)]
               else [])
  {
    var info := GetPrInfoGithub(reply);
    if info.Some? {
      db.writes := db.writes + [GithubPrUpdate(owner, repo, info.value, number, GITHUB)];
    }
  }
}
