/** bitbucket/prs.rs: pull-request ids and details from Bitbucket, with
    default-to-empty semantics instead of failures. */
module BitbucketPrs {
  import opened Wrappers
  import opened Entities
  import opened Json
  import opened Http
  import opened Store

  /** `id as u32`: the low 32 bits. */
  function AsU32(id: U64): (r: U32)
    ensures r == id % U32_LIMIT
    ensures id < U32_LIMIT ==> r == id
  {
    id % U32_LIMIT
  }

  /** The ids of the entries whose `id` is an unsigned integer, in order. */
  function PrIds(prs: seq<Value>): (r: seq<U32>)
    ensures |r| <= |prs|
  {
    if |prs| == 0 then []
    else
      var last := AsU64(Get(prs[|prs| - 1], "id"));
      PrIds(prs[..|prs| - 1]) + (if last.Some? then [AsU32(last.value)] else [])
  }

  /** The entries of `values`, when it is an array. */
  function ListedPrs(reply: Reply): seq<Value>
  {
    if reply.Received? && reply.status == 200 && reply.body.Some? && Get(reply.body.value, "values").Array?
    then Get(reply.body.value, "values").items
    else []
  }

  /** Order is kept: ids of a concatenation are the concatenation of ids. */
  lemma {:induction false} PrIdsConcat(a: seq<Value>, b: seq<Value>)
    ensures PrIds(a + b) == PrIds(a) + PrIds(b)
  {
    if |b| > 0 {
      assert (a + b)[..|a + b| - 1] == a + b[..|b| - 1];
      assert (a + b)[|a + b| - 1] == b[|b| - 1];
      PrIdsConcat(a, b[..|b| - 1]);
    } else {
      assert a + b == a;
    }
  }

  /** An entry without an unsigned `id` is skipped wherever it stands. */
  lemma PrIdsSkipInvalid(a: seq<Value>, v: Value, b: seq<Value>)
    requires AsU64(Get(v, "id")).None?
    ensures PrIds(a + [v] + b) == PrIds(a + b)
  {
    assert [v][..0] == [];
    assert PrIds([v]) == [];
    PrIdsConcat(a + [v], b);
    PrIdsConcat(a, [v]);
    PrIdsConcat(a, b);
    calc {
      PrIds(a + [v] + b);
      PrIds(a + [v]) + PrIds(b);
      PrIds(a) + PrIds([v]) + PrIds(b);
      PrIds(a) + PrIds(b);
    }
  }

  /** An entry with an unsigned `id` contributes that id, truncated to 32
      bits, wherever it stands. */
  lemma {:induction false} PrIdsKeepValid(prs: seq<Value>)
    ensures forall i :: 0 <= i < |prs| && AsU64(Get(prs[i], "id")).Some? ==>
              AsU32(AsU64(Get(prs[i], "id")).value) in PrIds(prs)
  {
    if |prs| > 0 {
      var init := prs[..|prs| - 1];
      PrIdsKeepValid(init);
      forall i | 0 <= i < |init| ensures init[i] == prs[i] { }
    }
  }

  /** At most one id per entry; when every entry has an unsigned `id`,
      there is one id per entry, in order, each truncated to 32 bits. */
  lemma {:induction false} PrIdsAllValid(prs: seq<Value>)
    ensures |PrIds(prs)| <= |prs|
    ensures (forall i :: 0 <= i < |prs| ==> AsU64(Get(prs[i], "id")).Some?) ==>
              |PrIds(prs)| == |prs| &&
              forall i :: 0 <= i < |prs| ==> PrIds(prs)[i] == Get(prs[i], "id").n % U32_LIMIT
  {
    if |prs| > 0 {
      var init := prs[..|prs| - 1];
      PrIdsAllValid(init);
      if forall i :: 0 <= i < |prs| ==> AsU64(Get(prs[i], "id")).Some? {
        forall i | 0 <= i < |init| ensures AsU64(Get(init[i], "id")).Some? {
          assert init[i] == prs[i];
        }
      }
    }
  }

  /** `list_prs_bitbucket`: an empty list when the request fails, the
      status is not 200 or the body does not parse, or when `values` is not
      an array; otherwise the loop collects the ids. */
  method ListPrsBitbucket(reply: Reply) returns (ids: seq<U32>)
    ensures ids == PrIds(ListedPrs(reply))
  {
    ids := [];
    if reply.SendFailed? || reply.status != 200 || reply.body.None? {
      return;
    }
    var values := Get(reply.body.value, "values");
    if !values.Array? {
      return;
    }
    var prs := values.items;
    var i := 0;
    while i < |prs|
      invariant 0 <= i <= |prs|
      invariant ids == PrIds(prs[..i])
    {
      assert prs[..i + 1][..i] == prs[..i];
      var id := AsU64(Get(prs[i], "id"));
      if id.Some? {
        ids := ids + [id.value % U32_LIMIT];
      }
      i := i + 1;
    }
    assert prs[..i] == prs;
  }

  /** `as_str().unwrap_or_default()` */
  function StrOrEmpty(v: Value): (r: string)
    ensures v.Str? ==> r == v.s
    ensures !v.Str? ==> r == ""
  {
    if v.Str? then v.s else ""
  }

  /** `get_pr_info`: None only when the request fails or its status is not
      a success; a missing field, or a body that does not parse at all,
      gives empty strings. */
  function GetPrInfo(reply: Reply): (r: Option<PrInfo>)
    ensures r.Some? <==> reply.Received? && IsSuccess(reply.status)
    ensures r.Some? ==>
              var pr := if reply.body.Some? then reply.body.value else Null;
              r.value == PrInfo(StrOrEmpty(Get(Get(Get(pr, "destination"), "commit"), "hash")),
                                StrOrEmpty(Get(Get(Get(pr, "source"), "commit"), "hash")),
                                StrOrEmpty(Get(pr, "state")),
                                StrOrEmpty(Get(Get(Get(pr, "source"), "branch"), "name")))
    ensures r.Some? && reply.body.None? ==> r.value == PrInfo("", "", "", "")
  {
    if reply.SendFailed? || !IsSuccess(reply.status) then None
    else
      var pr := if reply.body.Some? then reply.body.value else Null;
      Some(PrInfo(StrOrEmpty(Get(Get(Get(pr, "destination"), "commit"), "hash")),
                  StrOrEmpty(Get(Get(Get(pr, "source"), "commit"), "hash")),
                  StrOrEmpty(Get(pr, "state")),
                  StrOrEmpty(Get(Get(Get(pr, "source"), "branch"), "name"))))
  }

  /** `get_and_store_pr_info`: one save exactly when the detail is Some. */
  method GetAndStorePrInfo(db: PrStore, workspace: string, repo: string, number: string, reply: Reply)
    modifies db
    ensures db.writes ==
              old(db.writes) +
              (if GetPrInfo(reply).Some? then [BitbucketPrSave(workspace, repo, GetPrInfo(reply).value, number)] else [])
  {
    var info := GetPrInfo(reply);
    if info.Some? {
      db.writes := db.writes + [BitbucketPrSave(workspace, repo, info.value, number)];
    }
  }
}
