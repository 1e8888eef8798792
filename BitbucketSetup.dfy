/** core/bitbucket/setup.rs: onboarding a Bitbucket installation. The
    token exchange, the user's selection, the workspace listing, the git
    aliases of a cloned repository, SERVER_URL and the provider's replies
    are parameters; the side effects that go to other services are
    recorded as actions, in the order the code issues them. */
module BitbucketSetup {
  import opened Wrappers
  import opened Entities
  import opened Json
  import opened Http
  import opened Repo
  import opened Store
  import opened WebhookDb
  import opened BitbucketWebhook
  import opened BitbucketPrs

  // ------------------------------------------------------ repository filter

  /** The repositories owned by workspace `slug`, in their original order. */
  function SelectOwned(repos: seq<Repository>, slug: string): (r: seq<Repository>)
    ensures |r| <= |repos|
  {
    if |repos| == 0 then []
    else (if repos[0].owner == slug then [repos[0]] else []) + SelectOwned(repos[1..], slug)
  }

  /** Every repository kept is owned by the workspace and comes from the
      input; every owned input repository is kept. */
  lemma {:induction false} SelectOwnedSpec(repos: seq<Repository>, slug: string)
    ensures forall k :: 0 <= k < |SelectOwned(repos, slug)| ==>
              SelectOwned(repos, slug)[k].owner == slug && SelectOwned(repos, slug)[k] in repos
    ensures forall k :: 0 <= k < |repos| && repos[k].owner == slug ==> repos[k] in SelectOwned(repos, slug)
  {
    if |repos| > 0 {
      var rest := SelectOwned(repos[1..], slug);
      var head: seq<Repository> := if repos[0].owner == slug then [repos[0]] else [];
      SelectOwnedSpec(repos[1..], slug);
      assert SelectOwned(repos, slug) == head + rest;
      forall k | 0 <= k < |head + rest|
        ensures (head + rest)[k].owner == slug && (head + rest)[k] in repos
      {
        if k >= |head| {
          assert (head + rest)[k] == rest[k - |head|];
          assert rest[k - |head|] in repos[1..];
        }
      }
      forall k | 0 <= k < |repos| && repos[k].owner == slug
        ensures repos[k] in head + rest
      {
        if k > 0 {
          assert repos[k] == repos[1..][k - 1];
        }
      }
    }
  }

  /** Nothing is dropped when the workspace owns every repository. */
  lemma {:induction false} SelectOwnedKeepsAll(repos: seq<Repository>, slug: string)
    requires forall k :: 0 <= k < |repos| ==> repos[k].owner == slug
    ensures SelectOwned(repos, slug) == repos
  {
    if |repos| > 0 {
      SelectOwnedKeepsAll(repos[1..], slug);
    }
  }

  /** The filter keeps the input order: filtering a concatenation is
      concatenating the filtered parts. */
  lemma {:induction false} SelectOwnedConcat(a: seq<Repository>, b: seq<Repository>, slug: string)
    ensures SelectOwned(a + b, slug) == SelectOwned(a, slug) + SelectOwned(b, slug)
  {
    if |a| == 0 {
      assert a + b == b;
    } else {
      var head: seq<Repository> := if a[0].owner == slug then [a[0]] else [];
      assert (a + b)[0] == a[0];
      assert (a + b)[1..] == a[1..] + b;
      SelectOwnedConcat(a[1..], b, slug);
      calc {
        SelectOwned(a + b, slug);
        head + SelectOwned(a[1..] + b, slug);
        head + (SelectOwned(a[1..], slug) + SelectOwned(b, slug));
        { assert head + (SelectOwned(a[1..], slug) + SelectOwned(b, slug)) ==
                 (head + SelectOwned(a[1..], slug)) + SelectOwned(b, slug); }
        SelectOwned(a, slug) + SelectOwned(b, slug);
      }
    }
  }

  /** `filter_user_selected_repos`: None when there is no selection or it
      is empty, otherwise the selected repositories this workspace owns
      (possibly none). */
  function FilterUserSelectedRepos(slug: string, selection: Option<seq<Repository>>): (r: Option<seq<Repository>>)
    ensures r.None? <==> selection.None? || |selection.value| == 0
    ensures r.Some? ==> r.value == SelectOwned(selection.value, slug)
  {
    if selection.None? || |selection.value| == 0 then None
    else Some(SelectOwned(selection.value, slug))
  }

  // ------------------------------------------------- webhook reconciliation

  /** `find`: the first webhook whose url is `url`. */
  function FirstMatching(hooks: seq<Webhook>, url: string): (r: Option<Webhook>)
    ensures r.Some? ==> r.value in hooks && r.value.url == url
  {
    if |hooks| == 0 then None
    else if hooks[0].url == url then Some(hooks[0])
    else FirstMatching(hooks[1..], url)
  }

  lemma {:induction false} FirstMatchingSpec(hooks: seq<Webhook>, url: string)
    ensures FirstMatching(hooks, url).None? <==> forall k :: 0 <= k < |hooks| ==> hooks[k].url != url
    ensures FirstMatching(hooks, url).Some? ==>
              exists k :: 0 <= k < |hooks| && hooks[k] == FirstMatching(hooks, url).value &&
                          hooks[k].url == url &&
                          forall j :: 0 <= j < k ==> hooks[j].url != url
  {
    if |hooks| > 0 && hooks[0].url != url {
      var rest := hooks[1..];
      FirstMatchingSpec(rest, url);
      forall k | 0 <= k < |rest| ensures rest[k] == hooks[k + 1] { }
      if FirstMatching(rest, url).Some? {
        var k :| 0 <= k < |rest| && rest[k] == FirstMatching(rest, url).value && rest[k].url == url &&
                 forall j :: 0 <= j < k ==> rest[j].url != url;
        assert hooks[k + 1] == rest[k];
        forall j | 0 <= j < k + 1 ensures hooks[j].url != url {
          if j > 0 {
            assert hooks[j] == rest[j - 1];
          }
        }
      } else {
        forall k | 0 <= k < |hooks| ensures hooks[k].url != url {
          if k > 0 {
            assert hooks[k] == rest[k - 1];
          }
        }
      }
    }
  }

  /** What `process_webhooks` settles on: add a new webhook (in a spawned
      task), or keep the first existing one and save it. */
  datatype WebhookDecision = AddNew | Reuse(hook: Webhook)

  /** The decision for a repository whose listing is `listing`: the
      listing's panics come first, then a missing SERVER_URL panics. */
  function Reconcile(listing: seq<Value>, serverUrl: Option<string>): (r: Outcome<WebhookDecision>)
    ensures r.Panicked? <==> WebhooksFromJson(listing).Panicked? || serverUrl.None?
    ensures r.Returned? && r.value.Reuse? ==>
              r.value.hook in WebhooksFromJson(listing).value && r.value.hook.url == CallbackUrl(serverUrl.value)
  {
    match WebhooksFromJson(listing)
    case Panicked => Panicked
    case Returned(hooks) =>
      if serverUrl.None? then Panicked
      else
        match FirstMatching(hooks, CallbackUrl(serverUrl.value))
        case None => Returned(AddNew)
        case Some(hook) => Returned(Reuse(hook))
  }

  /** The webhooks of a listing carry the listed urls, position by
      position. */
  lemma ListedUrls(listing: seq<Value>)
    requires WebhooksFromJson(listing).Returned?
    ensures |WebhooksFromJson(listing).value| == |listing|
    ensures forall k :: 0 <= k < |listing| ==> WebhooksFromJson(listing).value[k].url == ListedUrl(listing[k])
  {
    WebhooksInOrder(listing);
  }

  /** A new webhook is added exactly when no listed webhook, once its
      quotes are stripped, has the callback url. */
  lemma ReconcileAddsWhenAbsent(listing: seq<Value>, serverUrl: string)
    requires WebhooksFromJson(listing).Returned?
    ensures Reconcile(listing, Some(serverUrl)).Returned?
    ensures Reconcile(listing, Some(serverUrl)).value.AddNew? <==>
              forall k :: 0 <= k < |listing| ==> ListedUrl(listing[k]) != CallbackUrl(serverUrl)
  {
    var hooks := WebhooksFromJson(listing).value;
    var cb := CallbackUrl(serverUrl);
    assert Reconcile(listing, Some(serverUrl)).value.AddNew? <==> FirstMatching(hooks, cb).None?;
    FirstMatchingSpec(hooks, cb);
    ListedUrls(listing);
  }

  /** Otherwise the webhook reused is the first listed one with the
      callback url (by `WebhooksInOrder`, the one made from entry `k`). */
  lemma ReconcileReusesFirst(listing: seq<Value>, serverUrl: string)
    requires WebhooksFromJson(listing).Returned?
    requires Reconcile(listing, Some(serverUrl)).Returned? && Reconcile(listing, Some(serverUrl)).value.Reuse?
    ensures Reconcile(listing, Some(serverUrl)).value.hook.url == CallbackUrl(serverUrl)
    ensures |WebhooksFromJson(listing).value| == |listing|
    ensures exists k :: 0 <= k < |listing| &&
                        Reconcile(listing, Some(serverUrl)).value.hook == WebhooksFromJson(listing).value[k] &&
                        forall j :: 0 <= j < k ==> ListedUrl(listing[j]) != CallbackUrl(serverUrl)
  {
    var hooks := WebhooksFromJson(listing).value;
    var cb := CallbackUrl(serverUrl);
    assert FirstMatching(hooks, cb).Some? && Reconcile(listing, Some(serverUrl)).value.hook == FirstMatching(hooks, cb).value;
    FirstMatchingSpec(hooks, cb);
    ListedUrls(listing);
  }

  /** Reconciliation settles: once the webhook the payload asks for is
      among the listed ones, the next reconciliation reuses a webhook with
      the callback url instead of adding another. */
  lemma ReconcileAfterAdd(listing: seq<Value>, serverUrl: string, created: nat)
    requires created < |listing|
    requires Get(listing[created], "url") == Get(AddWebhookPayload(serverUrl), "url")
    requires Plain(CallbackUrl(serverUrl))
    requires WebhooksFromJson(listing).Returned?
    ensures Reconcile(listing, Some(serverUrl)).Returned?
    ensures Reconcile(listing, Some(serverUrl)).value.Reuse?
    ensures Reconcile(listing, Some(serverUrl)).value.hook.url == CallbackUrl(serverUrl)
  {
    AddWebhookPayloadFields(serverUrl);
    StripRenderedPlain(CallbackUrl(serverUrl));
    assert ListedUrl(listing[created]) == CallbackUrl(serverUrl);
    ReconcileAddsWhenAbsent(listing, serverUrl);
    ReconcileReusesFirst(listing, serverUrl);
  }

  /** With a quote in SERVER_URL the callback url is never matched: the
      listed urls lose every quote to `replace('"', "")`, so each
      reconciliation adds another webhook, whatever is listed. */
  lemma ReconcileQuotedServerUrlAdds(listing: seq<Value>, serverUrl: string)
    requires '\"' in serverUrl
    requires WebhooksFromJson(listing).Returned?
    ensures Reconcile(listing, Some(serverUrl)).Returned?
    ensures Reconcile(listing, Some(serverUrl)).value.AddNew?
  {
    ReconcileAddsWhenAbsent(listing, serverUrl);
    var i :| 0 <= i < |serverUrl| && serverUrl[i] == '\"';
    assert CallbackUrl(serverUrl)[i] == '\"';
    forall k | 0 <= k < |listing| ensures ListedUrl(listing[k]) != CallbackUrl(serverUrl) {
      RemoveCharRemovesAll(Render(Get(listing[k], "url")), '\"');
    }
  }

  /** `process_webhooks`: a reused webhook is saved again under a new key;
      an added one is left to `add_webhook`, and nothing is stored here. */
  method ProcessWebhooks(db: KvStore, listing: seq<Value>, serverUrl: Option<string>, fault: WriteFault)
    returns (r: Outcome<WebhookDecision>)
    modifies db
    ensures r == Reconcile(listing, serverUrl)
    ensures r.Returned? && r.value.Reuse? ==> SavedOnce(old(db.entries), db.entries, r.value.hook, fault)
    ensures !(r.Returned? && r.value.Reuse?) ==> db.entries == old(db.entries)
  {
    var listed := GetWebhooksInRepo(listing);
    if listed.Panicked? {
      return Panicked;
    }
    if serverUrl.None? {
      return Panicked;
    }
    var callbackUrl := serverUrl.value + CALLBACK_PATH;
    var hooks := listed.value;
    if |hooks| == 0 {
      return Returned(AddNew);
    }
    var matching := FirstMatching(hooks, callbackUrl);
    if matching.None? {
      return Returned(AddNew);
    }
    SaveWebhook(db, matching.value, fault);
    r := Returned(Reuse(matching.value));
  }

  // --------------------------------------------------------- open PR sync

  /** The saves of the spawned PR task, one per id whose detail request
      succeeds; the id is passed on in decimal. */
  function PrSaves(slug: string, repo: string, ids: seq<U32>, detail: U32 -> Reply): seq<PrWrite>
  {
    if |ids| == 0 then []
    else
      var id := ids[|ids| - 1];
      PrSaves(slug, repo, ids[..|ids| - 1], detail) +
      (if GetPrInfo(detail(id)).Some? then [BitbucketPrSave(slug, repo, GetPrInfo(detail(id)).value, Decimal(id))] else [])
  }

  /** At most one save per listed id. */
  lemma {:induction false} PrSavesBound(slug: string, repo: string, ids: seq<U32>, detail: U32 -> Reply)
    ensures |PrSaves(slug, repo, ids, detail)| <= |ids|
  {
    if |ids| > 0 {
      PrSavesBound(slug, repo, ids[..|ids| - 1], detail);
    }
  }

  /** Every save belongs to this repository and to one of the listed ids,
      whose number it carries in decimal (which reads back as the id), with
      the detail fetched for that id. */
  lemma {:induction false} PrSavesFromIds(slug: string, repo: string, ids: seq<U32>, detail: U32 -> Reply,
                                          w: PrWrite)
    requires w in PrSaves(slug, repo, ids, detail)
    ensures w.BitbucketPrSave? && w.workspace == slug && w.repo == repo
    ensures exists id :: id in ids && w.number == Decimal(id) && DigitsValue(w.number) == id &&
                         GetPrInfo(detail(id)) == Some(w.info)
  {
    var init := ids[..|ids| - 1];
    var id := ids[|ids| - 1];
    if w in PrSaves(slug, repo, init, detail) {
      PrSavesFromIds(slug, repo, init, detail, w);
      var x :| x in init && w.number == Decimal(x) && DigitsValue(w.number) == x && GetPrInfo(detail(x)) == Some(w.info);
      var k :| 0 <= k < |init| && init[k] == x;
      assert ids[k] == x;
    } else {
      DigitsRoundTrip(id);
      assert ids[|ids| - 1] == id;
    }
  }

  /** When every detail request succeeds there is one save per id, in
      order. */
  lemma {:induction false} PrSavesAllSucceed(slug: string, repo: string, ids: seq<U32>, detail: U32 -> Reply)
    requires forall k :: 0 <= k < |ids| ==> GetPrInfo(detail(ids[k])).Some?
    ensures |PrSaves(slug, repo, ids, detail)| == |ids|
    ensures forall k :: 0 <= k < |ids| ==>
              PrSaves(slug, repo, ids, detail)[k] ==
              BitbucketPrSave(slug, repo, GetPrInfo(detail(ids[k])).value, Decimal(ids[k]))
  {
    if |ids| > 0 {
      var init := ids[..|ids| - 1];
      forall k | 0 <= k < |init| ensures GetPrInfo(detail(init[k])).Some? {
        assert init[k] == ids[k];
      }
      PrSavesAllSucceed(slug, repo, init, detail);
      assert GetPrInfo(detail(ids[|ids| - 1])).Some?;
    }
  }

  /** The spawned PR task of `handle_install_bitbucket`: list the open PRs,
      then fetch and store each one. */
  method SyncOpenPrs(db: PrStore, slug: string, repo: string, listReply: Reply, detail: U32 -> Reply)
    modifies db
    ensures db.writes == old(db.writes) + PrSaves(slug, repo, PrIds(ListedPrs(listReply)), detail)
  {
    var ids := ListPrsBitbucket(listReply);
    var i := 0;
    while i < |ids|
      invariant 0 <= i <= |ids|
      invariant db.writes == old(db.writes) + PrSaves(slug, repo, ids[..i], detail)
    {
      assert ids[..i + 1][..i] == ids[..i];
      var id := ids[i];
      GetAndStorePrInfo(db, slug, repo, Decimal(id), detail(id));
      i := i + 1;
    }
    assert ids[..i] == ids;
  }

  // ------------------------------------------------------------ onboarding

  /** A call out of `handle_install_bitbucket` to another service. */
  datatype Action =
    | SaveWorkspaceUsers(workspaceUuid: string)
    | CloneRepo(owner: string, name: string)
    | SendAliases(owner: string, name: string, aliases: seq<string>)
    | ReconcileWebhooks(workspace: string, name: string)
    | SyncPrs(workspace: string, name: string)

  /** One repository: it is always cloned; without git aliases it is
      skipped, otherwise its aliases are sent, its webhook reconciled and
      its open PRs synced. */
  function RepoActions(slug: string, repo: Repository, aliasesOf: Repository -> Option<seq<string>>): seq<Action>
  {
    [CloneRepo(repo.owner, repo.name)] +
    (if aliasesOf(repo).Some?
     then [SendAliases(repo.owner, repo.name, aliasesOf(repo).value), ReconcileWebhooks(slug, repo.name), SyncPrs(slug, repo.name)]
     else [])
  }

  function ReposActions(slug: string, repos: seq<Repository>, aliasesOf: Repository -> Option<seq<string>>): seq<Action>
  {
    if |repos| == 0 then []
    else ReposActions(slug, repos[..|repos| - 1], aliasesOf) + RepoActions(slug, repos[|repos| - 1], aliasesOf)
  }

  /** The names reported for a workspace: those of the repositories that
      have git aliases, in order. */
  function ReposWithAliases(repos: seq<Repository>, aliasesOf: Repository -> Option<seq<string>>): seq<string>
  {
    if |repos| == 0 then []
    else
      ReposWithAliases(repos[..|repos| - 1], aliasesOf) +
      (if aliasesOf(repos[|repos| - 1]).Some? then [repos[|repos| - 1].name] else [])
  }

  /** One workspace: its users are always saved; without a selection it is
      skipped, otherwise each selected repository it owns is processed. */
  function WorkspaceActions(ws: Workspace, selection: Option<seq<Repository>>,
                            aliasesOf: Repository -> Option<seq<string>>): seq<Action>
  {
    [SaveWorkspaceUsers(ws.uuid)] +
    match FilterUserSelectedRepos(ws.slug, selection)
    case None => []
    case Some(repos) => ReposActions(ws.slug, repos, aliasesOf)
  }

  function WorkspaceSummary(ws: Workspace, selection: Option<seq<Repository>>,
                            aliasesOf: Repository -> Option<seq<string>>): seq<SetupInfo>
  {
    match FilterUserSelectedRepos(ws.slug, selection)
    case None => []
    case Some(repos) => [SetupInfo(BITBUCKET, ws.slug, ReposWithAliases(repos, aliasesOf))]
  }

  function InstallActions(workspaces: seq<Workspace>, selection: Option<seq<Repository>>,
                          aliasesOf: Repository -> Option<seq<string>>): seq<Action>
  {
    if |workspaces| == 0 then []
    else
      InstallActions(workspaces[..|workspaces| - 1], selection, aliasesOf) +
      WorkspaceActions(workspaces[|workspaces| - 1], selection, aliasesOf)
  }

  /** The summary `send_setup_info` receives. */
  function Summary(workspaces: seq<Workspace>, selection: Option<seq<Repository>>,
                   aliasesOf: Repository -> Option<seq<string>>): seq<SetupInfo>
  {
    if |workspaces| == 0 then []
    else
      Summary(workspaces[..|workspaces| - 1], selection, aliasesOf) +
      WorkspaceSummary(workspaces[|workspaces| - 1], selection, aliasesOf)
  }

  /** Every reported name is that of a repository with git aliases, and
      when all have aliases every name is reported, in order. */
  lemma {:induction false} ReposWithAliasesSpec(repos: seq<Repository>, aliasesOf: Repository -> Option<seq<string>>)
    ensures |ReposWithAliases(repos, aliasesOf)| <= |repos|
    ensures forall n :: n in ReposWithAliases(repos, aliasesOf) ==>
              exists repo :: repo in repos && repo.name == n && aliasesOf(repo).Some?
    ensures (forall k :: 0 <= k < |repos| ==> aliasesOf(repos[k]).Some?) ==>
              ReposWithAliases(repos, aliasesOf) == seq(|repos|, k requires 0 <= k < |repos| => repos[k].name)
  {
    if |repos| > 0 {
      var init := repos[..|repos| - 1];
      ReposWithAliasesSpec(init, aliasesOf);
      forall x | x in init ensures x in repos {
        var k :| 0 <= k < |init| && init[k] == x;
        assert repos[k] == x;
      }
      if forall k :: 0 <= k < |repos| ==> aliasesOf(repos[k]).Some? {
        forall k | 0 <= k < |init| ensures aliasesOf(init[k]).Some? {
          assert init[k] == repos[k];
        }
      }
    }
  }

  /** Every repository with git aliases is reported, wherever it stands
      among repositories without. */
  lemma {:induction false} ReposWithAliasesComplete(repos: seq<Repository>, aliasesOf: Repository -> Option<seq<string>>)
    ensures forall k :: 0 <= k < |repos| && aliasesOf(repos[k]).Some? ==> repos[k].name in ReposWithAliases(repos, aliasesOf)
  {
    if |repos| > 0 {
      var init := repos[..|repos| - 1];
      ReposWithAliasesComplete(init, aliasesOf);
      forall k | 0 <= k < |init| ensures init[k] == repos[k] { }
    }
  }

  /** Every repository reported as set up had its webhook reconciled and
      its open PRs synced, under its workspace. */
  lemma {:induction false} ReposActionsCover(slug: string, repos: seq<Repository>,
                                             aliasesOf: Repository -> Option<seq<string>>)
    ensures forall n :: n in ReposWithAliases(repos, aliasesOf) ==>
              ReconcileWebhooks(slug, n) in ReposActions(slug, repos, aliasesOf) &&
              SyncPrs(slug, n) in ReposActions(slug, repos, aliasesOf)
  {
    if |repos| > 0 {
      ReposActionsCover(slug, repos[..|repos| - 1], aliasesOf);
    }
  }

  /** With no selection at all, or an empty one, every workspace is
      skipped and the summary is empty. */
  lemma {:induction false} SummaryWithoutSelection(workspaces: seq<Workspace>, selection: Option<seq<Repository>>,
                                                   aliasesOf: Repository -> Option<seq<string>>)
    requires selection.None? || |selection.value| == 0
    ensures Summary(workspaces, selection, aliasesOf) == []
  {
    if |workspaces| > 0 {
      SummaryWithoutSelection(workspaces[..|workspaces| - 1], selection, aliasesOf);
    }
  }

  /** With a non-empty selection a workspace has one summary entry. */
  lemma WorkspaceSummaryEntry(ws: Workspace, selection: Option<seq<Repository>>,
                              aliasesOf: Repository -> Option<seq<string>>)
    requires selection.Some? && |selection.value| > 0
    ensures WorkspaceSummary(ws, selection, aliasesOf) ==
            [SetupInfo(BITBUCKET, ws.slug, ReposWithAliases(SelectOwned(selection.value, ws.slug), aliasesOf))]
  {
  }

  /** One summary entry per workspace, for a non-empty selection. */
  lemma {:induction false} SummaryLength(workspaces: seq<Workspace>, selection: Option<seq<Repository>>,
                                         aliasesOf: Repository -> Option<seq<string>>)
    requires selection.Some? && |selection.value| > 0
    ensures |Summary(workspaces, selection, aliasesOf)| == |workspaces|
  {
    if |workspaces| > 0 {
      SummaryLength(workspaces[..|workspaces| - 1], selection, aliasesOf);
      WorkspaceSummaryEntry(workspaces[|workspaces| - 1], selection, aliasesOf);
    }
  }

  /** The `k`th entry of the summary, for a non-empty selection. */
  lemma {:induction false} SummaryAt(workspaces: seq<Workspace>, selection: Option<seq<Repository>>,
                                     aliasesOf: Repository -> Option<seq<string>>, k: nat)
    requires selection.Some? && |selection.value| > 0 && k < |workspaces|
    requires |Summary(workspaces, selection, aliasesOf)| == |workspaces|
    ensures Summary(workspaces, selection, aliasesOf)[k] ==
            SetupInfo(BITBUCKET, workspaces[k].slug, ReposWithAliases(SelectOwned(selection.value, workspaces[k].slug), aliasesOf))
  {
    var init := workspaces[..|workspaces| - 1];
    var last := workspaces[|workspaces| - 1];
    var before := Summary(init, selection, aliasesOf);
    var mine := WorkspaceSummary(last, selection, aliasesOf);
    assert Summary(workspaces, selection, aliasesOf) == before + mine;
    SummaryLength(init, selection, aliasesOf);
    if k < |init| {
      SummaryAt(init, selection, aliasesOf, k);
      assert init[k] == workspaces[k];
      assert (before + mine)[k] == before[k];
    } else {
      WorkspaceSummaryEntry(last, selection, aliasesOf);
      assert workspaces[k] == last;
      assert (before + mine)[k] == mine[0];
    }
  }

  /** Otherwise the summary has one entry per workspace, in order, each for
      provider "bitbucket" and listing the selected repositories the
      workspace owns that have git aliases. */
  lemma {:induction false} SummaryShape(workspaces: seq<Workspace>, selection: Option<seq<Repository>>,
                     aliasesOf: Repository -> Option<seq<string>>)
    requires selection.Some? && |selection.value| > 0
    ensures |Summary(workspaces, selection, aliasesOf)| == |workspaces|
    ensures forall k :: 0 <= k < |workspaces| ==>
              Summary(workspaces, selection, aliasesOf)[k] ==
              SetupInfo(BITBUCKET, workspaces[k].slug,
                        ReposWithAliases(SelectOwned(selection.value, workspaces[k].slug), aliasesOf))
  {
    if |workspaces| == 0 {
      return;
    }
    SummaryLength(workspaces, selection, aliasesOf);
    forall k | 0 <= k < |workspaces|
      ensures Summary(workspaces, selection, aliasesOf)[k] ==
              SetupInfo(BITBUCKET, workspaces[k].slug,
                        ReposWithAliases(SelectOwned(selection.value, workspaces[k].slug), aliasesOf))
    {
      SummaryAt(workspaces, selection, aliasesOf, k);
    }
  }

  /** Every repository named in the summary was selected by the user, is
      owned by the workspace it is reported under, has git aliases, and had
      its webhook reconciled and its open PRs synced. */
  lemma {:induction false} SummaryReposProcessed(workspaces: seq<Workspace>, selection: Option<seq<Repository>>,
                                                 aliasesOf: Repository -> Option<seq<string>>, k: nat, n: string)
    requires k < |Summary(workspaces, selection, aliasesOf)|
    requires n in Summary(workspaces, selection, aliasesOf)[k].repos
    ensures selection.Some?
    ensures exists repo :: repo in selection.value && repo.owner == Summary(workspaces, selection, aliasesOf)[k].owner &&
                           repo.name == n && aliasesOf(repo).Some?
    ensures ReconcileWebhooks(Summary(workspaces, selection, aliasesOf)[k].owner, n) in InstallActions(workspaces, selection, aliasesOf)
    ensures SyncPrs(Summary(workspaces, selection, aliasesOf)[k].owner, n) in InstallActions(workspaces, selection, aliasesOf)
  {
    var init := workspaces[..|workspaces| - 1];
    var ws := workspaces[|workspaces| - 1];
    var summary := Summary(workspaces, selection, aliasesOf);
    if k < |Summary(init, selection, aliasesOf)| {
      SummaryReposProcessed(init, selection, aliasesOf, k, n);
      assert summary[k] == Summary(init, selection, aliasesOf)[k];
    } else {
      var repos := SelectOwned(selection.value, ws.slug);
      SelectOwnedSpec(selection.value, ws.slug);
      assert summary[k] == SetupInfo(BITBUCKET, ws.slug, ReposWithAliases(repos, aliasesOf));
      ReposWithAliasesSpec(repos, aliasesOf);
      ReposActionsCover(ws.slug, repos, aliasesOf);
    }
  }

  // ------------------------------------------------------ panics in line

  /** The webhook listing of a repository, by workspace slug and repository
      name, as `get_webhooks_in_repo` would return it. */
  type Listings = (string, string) -> seq<Value>

  /** How far the handler got: the calls it made, in order, and whether it
      stopped on a panic. */
  datatype Progress = Progress(actions: seq<Action>, panicked: bool)

  /** `p`, then `q` unless `p` panicked: after a panic nothing runs. */
  function AndThen(p: Progress, q: Progress): Progress
  {
    if p.panicked then p else Progress(p.actions + q.actions, q.panicked)
  }

  /** `process_webhooks` is awaited in line, so its panics (a malformed
      listing, a missing SERVER_URL) are the handler's: by workspace slug
      and repository name, whether it panics. */
  function WebhookPanics(listingOf: Listings, serverUrl: Option<string>): (string, string) -> bool
  {
    (slug, name) => Reconcile(listingOf(slug, name), serverUrl).Panicked?
  }

  /** One repository. `send_aliases` reads SERVER_URL first and panics
      without it, before `process_webhooks` is called; otherwise the run
      stops right after a webhook reconciliation that panics. */
  function RepoProgress(slug: string, repo: Repository, aliasesOf: Repository -> Option<seq<string>>,
                        serverUrl: Option<string>, panics: (string, string) -> bool): Progress
  {
    if aliasesOf(repo).None? then Progress([CloneRepo(repo.owner, repo.name)], false)
    else
      var sending := [CloneRepo(repo.owner, repo.name), SendAliases(repo.owner, repo.name, aliasesOf(repo).value)];
      if serverUrl.None? then Progress(sending, true)
      else
        var upTo := sending + [ReconcileWebhooks(slug, repo.name)];
        if panics(slug, repo.name) then Progress(upTo, true)
        else Progress(upTo + [SyncPrs(slug, repo.name)], false)
  }

  function ReposProgress(slug: string, repos: seq<Repository>, aliasesOf: Repository -> Option<seq<string>>,
                         serverUrl: Option<string>, panics: (string, string) -> bool): Progress
  {
    if |repos| == 0 then Progress([], false)
    else AndThen(ReposProgress(slug, repos[..|repos| - 1], aliasesOf, serverUrl, panics),
                 RepoProgress(slug, repos[|repos| - 1], aliasesOf, serverUrl, panics))
  }

  function WorkspaceProgress(ws: Workspace, selection: Option<seq<Repository>>,
                             aliasesOf: Repository -> Option<seq<string>>,
                             serverUrl: Option<string>, panics: (string, string) -> bool): Progress
  {
    AndThen(Progress([SaveWorkspaceUsers(ws.uuid)], false),
            match FilterUserSelectedRepos(ws.slug, selection)
            case None => Progress([], false)
            case Some(repos) => ReposProgress(ws.slug, repos, aliasesOf, serverUrl, panics))
  }

  function InstallProgress(workspaces: seq<Workspace>, selection: Option<seq<Repository>>,
                           aliasesOf: Repository -> Option<seq<string>>,
                           serverUrl: Option<string>, panics: (string, string) -> bool): Progress
  {
    if |workspaces| == 0 then Progress([], false)
    else AndThen(InstallProgress(workspaces[..|workspaces| - 1], selection, aliasesOf, serverUrl, panics),
                 WorkspaceProgress(workspaces[|workspaces| - 1], selection, aliasesOf, serverUrl, panics))
  }

  /** The repository loop panics exactly when there is a repository with
      git aliases and either SERVER_URL is unset or its webhook
      reconciliation panics; otherwise it makes every call of the complete
      run. */
  lemma {:induction false} ReposProgressPanicIff(slug: string, repos: seq<Repository>,
                                                 aliasesOf: Repository -> Option<seq<string>>,
                                                 serverUrl: Option<string>, panics: (string, string) -> bool)
    ensures ReposProgress(slug, repos, aliasesOf, serverUrl, panics).panicked <==>
            exists k :: 0 <= k < |repos| && aliasesOf(repos[k]).Some? && (serverUrl.None? || panics(slug, repos[k].name))
    ensures !ReposProgress(slug, repos, aliasesOf, serverUrl, panics).panicked ==>
            ReposProgress(slug, repos, aliasesOf, serverUrl, panics).actions == ReposActions(slug, repos, aliasesOf)
  {
    if |repos| > 0 {
      var init := repos[..|repos| - 1];
      ReposProgressPanicIff(slug, init, aliasesOf, serverUrl, panics);
      forall k | 0 <= k < |init| ensures init[k] == repos[k] { }
    }
  }

  /** After a panic the loop makes no further call: the last call is the
      `send_aliases` that found SERVER_URL unset, or else the webhook
      reconciliation that panicked. */
  lemma {:induction false} ReposProgressStops(slug: string, repos: seq<Repository>,
                                              aliasesOf: Repository -> Option<seq<string>>,
                                              serverUrl: Option<string>, panics: (string, string) -> bool)
    requires ReposProgress(slug, repos, aliasesOf, serverUrl, panics).panicked
    ensures var a := ReposProgress(slug, repos, aliasesOf, serverUrl, panics).actions;
            |a| > 0 &&
            (if serverUrl.None? then a[|a| - 1].SendAliases?
             else a[|a| - 1].ReconcileWebhooks? && a[|a| - 1].workspace == slug && panics(slug, a[|a| - 1].name))
  {
    var init := repos[..|repos| - 1];
    if ReposProgress(slug, init, aliasesOf, serverUrl, panics).panicked {
      ReposProgressStops(slug, init, aliasesOf, serverUrl, panics);
    }
  }

  /** Once a prefix of the repositories panics, the rest change nothing. */
  lemma {:induction false} ReposPanicFinal(slug: string, repos: seq<Repository>, n: nat,
                                           aliasesOf: Repository -> Option<seq<string>>,
                                           serverUrl: Option<string>, panics: (string, string) -> bool)
    requires n <= |repos| && ReposProgress(slug, repos[..n], aliasesOf, serverUrl, panics).panicked
    ensures ReposProgress(slug, repos, aliasesOf, serverUrl, panics) ==
            ReposProgress(slug, repos[..n], aliasesOf, serverUrl, panics)
  {
    if n < |repos| {
      var init := repos[..|repos| - 1];
      assert init[..n] == repos[..n];
      ReposPanicFinal(slug, init, n, aliasesOf, serverUrl, panics);
    } else {
      assert repos[..n] == repos;
    }
  }

  /** A workspace panics exactly when the selection is non-empty and one of
      the selected repositories it owns has git aliases, and either
      SERVER_URL is unset or that repository's webhook reconciliation
      panics. */
  lemma WorkspaceProgressPanicIff(ws: Workspace, selection: Option<seq<Repository>>,
                                  aliasesOf: Repository -> Option<seq<string>>,
                                  serverUrl: Option<string>, panics: (string, string) -> bool)
    ensures WorkspaceProgress(ws, selection, aliasesOf, serverUrl, panics).panicked <==>
            selection.Some? && |selection.value| > 0 &&
            exists k :: 0 <= k < |SelectOwned(selection.value, ws.slug)| &&
                        aliasesOf(SelectOwned(selection.value, ws.slug)[k]).Some? &&
                        (serverUrl.None? || panics(ws.slug, SelectOwned(selection.value, ws.slug)[k].name))
  {
    if selection.Some? && |selection.value| > 0 {
      var repos := SelectOwned(selection.value, ws.slug);
      assert WorkspaceProgress(ws, selection, aliasesOf, serverUrl, panics) ==
             AndThen(Progress([SaveWorkspaceUsers(ws.uuid)], false), ReposProgress(ws.slug, repos, aliasesOf, serverUrl, panics));
      ReposProgressPanicIff(ws.slug, repos, aliasesOf, serverUrl, panics);
    } else {
      assert WorkspaceProgress(ws, selection, aliasesOf, serverUrl, panics) == Progress([SaveWorkspaceUsers(ws.uuid)], false);
    }
  }

  /** Without a panic a workspace makes every call of the complete run. */
  lemma WorkspaceProgressComplete(ws: Workspace, selection: Option<seq<Repository>>,
                                  aliasesOf: Repository -> Option<seq<string>>,
                                  serverUrl: Option<string>, panics: (string, string) -> bool)
    ensures !WorkspaceProgress(ws, selection, aliasesOf, serverUrl, panics).panicked ==>
            WorkspaceProgress(ws, selection, aliasesOf, serverUrl, panics).actions == WorkspaceActions(ws, selection, aliasesOf)
  {
    if selection.Some? && |selection.value| > 0 {
      ReposProgressPanicIff(ws.slug, SelectOwned(selection.value, ws.slug), aliasesOf, serverUrl, panics);
    }
  }

  /** The handler panics exactly when one of its workspaces does. */
  lemma {:induction false} InstallProgressPanicIff(workspaces: seq<Workspace>, selection: Option<seq<Repository>>,
                                                   aliasesOf: Repository -> Option<seq<string>>,
                                                   serverUrl: Option<string>, panics: (string, string) -> bool)
    ensures InstallProgress(workspaces, selection, aliasesOf, serverUrl, panics).panicked <==>
            exists w :: 0 <= w < |workspaces| && WorkspaceProgress(workspaces[w], selection, aliasesOf, serverUrl, panics).panicked
  {
    if |workspaces| > 0 {
      var init := workspaces[..|workspaces| - 1];
      InstallProgressPanicIff(init, selection, aliasesOf, serverUrl, panics);
      forall w | 0 <= w < |init| ensures init[w] == workspaces[w] { }
    }
  }

  /** Without a panic the handler makes every call of the complete run. */
  lemma {:induction false} InstallProgressComplete(workspaces: seq<Workspace>, selection: Option<seq<Repository>>,
                                                   aliasesOf: Repository -> Option<seq<string>>,
                                                   serverUrl: Option<string>, panics: (string, string) -> bool)
    ensures !InstallProgress(workspaces, selection, aliasesOf, serverUrl, panics).panicked ==>
            InstallProgress(workspaces, selection, aliasesOf, serverUrl, panics).actions ==
            InstallActions(workspaces, selection, aliasesOf)
  {
    if |workspaces| > 0 {
      InstallProgressComplete(workspaces[..|workspaces| - 1], selection, aliasesOf, serverUrl, panics);
      WorkspaceProgressComplete(workspaces[|workspaces| - 1], selection, aliasesOf, serverUrl, panics);
    }
  }

  /** After a panic the handler makes no further call: the last call is the
      `send_aliases` that found SERVER_URL unset, or else the webhook
      reconciliation that panicked. */
  lemma {:induction false} InstallProgressStops(workspaces: seq<Workspace>, selection: Option<seq<Repository>>,
                                                aliasesOf: Repository -> Option<seq<string>>,
                                                serverUrl: Option<string>, panics: (string, string) -> bool)
    requires InstallProgress(workspaces, selection, aliasesOf, serverUrl, panics).panicked
    ensures var a := InstallProgress(workspaces, selection, aliasesOf, serverUrl, panics).actions;
            |a| > 0 &&
            (if serverUrl.None? then a[|a| - 1].SendAliases?
             else a[|a| - 1].ReconcileWebhooks? && panics(a[|a| - 1].workspace, a[|a| - 1].name))
  {
    var init := workspaces[..|workspaces| - 1];
    var ws := workspaces[|workspaces| - 1];
    if InstallProgress(init, selection, aliasesOf, serverUrl, panics).panicked {
      InstallProgressStops(init, selection, aliasesOf, serverUrl, panics);
    } else {
      var repos := SelectOwned(selection.value, ws.slug);
      ReposProgressStops(ws.slug, repos, aliasesOf, serverUrl, panics);
    }
  }

  /** Once a prefix of the workspaces panics, the rest change nothing. */
  lemma {:induction false} InstallPanicFinal(workspaces: seq<Workspace>, n: nat, selection: Option<seq<Repository>>,
                                             aliasesOf: Repository -> Option<seq<string>>,
                                             serverUrl: Option<string>, panics: (string, string) -> bool)
    requires n <= |workspaces| && InstallProgress(workspaces[..n], selection, aliasesOf, serverUrl, panics).panicked
    ensures InstallProgress(workspaces, selection, aliasesOf, serverUrl, panics) ==
            InstallProgress(workspaces[..n], selection, aliasesOf, serverUrl, panics)
  {
    if n < |workspaces| {
      var init := workspaces[..|workspaces| - 1];
      assert init[..n] == workspaces[..n];
      InstallPanicFinal(init, n, selection, aliasesOf, serverUrl, panics);
    } else {
      assert workspaces[..n] == workspaces;
    }
  }

  /** Without SERVER_URL the repository loop never reaches
      `process_webhooks`: `send_aliases` panics first. */
  lemma {:induction false} ReposNoReconcile(slug: string, repos: seq<Repository>,
                                            aliasesOf: Repository -> Option<seq<string>>,
                                            serverUrl: Option<string>, panics: (string, string) -> bool)
    requires serverUrl.None?
    ensures forall i :: 0 <= i < |ReposProgress(slug, repos, aliasesOf, serverUrl, panics).actions| ==>
              !ReposProgress(slug, repos, aliasesOf, serverUrl, panics).actions[i].ReconcileWebhooks?
  {
    if |repos| > 0 {
      ReposNoReconcile(slug, repos[..|repos| - 1], aliasesOf, serverUrl, panics);
    }
  }

  /** Without SERVER_URL the handler never calls `process_webhooks`. */
  lemma {:induction false} InstallNoReconcile(workspaces: seq<Workspace>, selection: Option<seq<Repository>>,
                                              aliasesOf: Repository -> Option<seq<string>>,
                                              serverUrl: Option<string>, panics: (string, string) -> bool)
    requires serverUrl.None?
    ensures forall i :: 0 <= i < |InstallProgress(workspaces, selection, aliasesOf, serverUrl, panics).actions| ==>
              !InstallProgress(workspaces, selection, aliasesOf, serverUrl, panics).actions[i].ReconcileWebhooks?
  {
    if |workspaces| > 0 {
      var ws := workspaces[|workspaces| - 1];
      InstallNoReconcile(workspaces[..|workspaces| - 1], selection, aliasesOf, serverUrl, panics);
      if selection.Some? && |selection.value| > 0 {
        ReposNoReconcile(ws.slug, SelectOwned(selection.value, ws.slug), aliasesOf, serverUrl, panics);
      }
    }
  }

  // ---------------------------------------------------------- the handler

  /** The body `send_setup_info` posts: the installation id and the
      summary. */
  datatype PublishRequest = PublishRequest(installationId: string, info: seq<SetupInfo>)

  /** The body of the inner loop of `handle_install_bitbucket`: the
      repository is cloned; with git aliases they are sent (a panic without
      SERVER_URL), its name is reported and `process_webhooks` is awaited,
      and unless that panicked the PR sync is started. */
  method ProcessRepo(slug: string, repo: Repository, aliasesOf: Repository -> Option<seq<string>>,
                     listingOf: Listings, serverUrl: Option<string>)
    returns (reported: seq<string>, progress: Progress)
    ensures progress == RepoProgress(slug, repo, aliasesOf, serverUrl, WebhookPanics(listingOf, serverUrl))
    ensures reported == (if aliasesOf(repo).Some? && serverUrl.Some? then [repo.name] else [])
  {
    var actions := [CloneRepo(repo.owner, repo.name)];
    var aliases := aliasesOf(repo);
    if aliases.None? {
      return [], Progress(actions, false);
    }
    actions := actions + [SendAliases(repo.owner, repo.name, aliases.value)];
    if serverUrl.None? {
      return [], Progress(actions, true);
    }
    reported := [repo.name];
    actions := actions + [ReconcileWebhooks(slug, repo.name)];
    if WebhookPanics(listingOf, serverUrl)(slug, repo.name) {
      return reported, Progress(actions, true);
    }
    actions := actions + [SyncPrs(slug, repo.name)];
    progress := Progress(actions, false);
  }

  /** The inner loop of `handle_install_bitbucket` over one workspace's
      repositories; a panic in `send_aliases` or `process_webhooks` ends
      it. */
  method ProcessRepos(slug: string, repos: seq<Repository>, aliasesOf: Repository -> Option<seq<string>>,
                      listingOf: Listings, serverUrl: Option<string>)
    returns (reponames: seq<string>, progress: Progress)
    ensures progress == ReposProgress(slug, repos, aliasesOf, serverUrl, WebhookPanics(listingOf, serverUrl))
    ensures !progress.panicked ==> reponames == ReposWithAliases(repos, aliasesOf)
  {
    reponames := [];
    progress := Progress([], false);
    var j := 0;
    while j < |repos|
      invariant 0 <= j <= |repos|
      invariant !progress.panicked
      invariant reponames == ReposWithAliases(repos[..j], aliasesOf)
      invariant progress == ReposProgress(slug, repos[..j], aliasesOf, serverUrl, WebhookPanics(listingOf, serverUrl))
    {
      assert repos[..j + 1][..j] == repos[..j];
      var reported, repoProgress := ProcessRepo(slug, repos[j], aliasesOf, listingOf, serverUrl);
      reponames := reponames + reported;
      progress := Progress(progress.actions + repoProgress.actions, repoProgress.panicked);
      if repoProgress.panicked {
        ReposPanicFinal(slug, repos, j + 1, aliasesOf, serverUrl, WebhookPanics(listingOf, serverUrl));
        return;
      }
      j := j + 1;
    }
    assert repos[..j] == repos;
  }

  /** The body of the workspace loop of `handle_install_bitbucket`: the
      workspace's users are saved, then (unless there is no selection) its
      repositories are processed and, unless that panicked, its summary
      entry made. */
  method ProcessWorkspace(ws: Workspace, selection: Option<seq<Repository>>,
                          aliasesOf: Repository -> Option<seq<string>>,
                          listingOf: Listings, serverUrl: Option<string>)
    returns (pubreq: seq<SetupInfo>, progress: Progress)
    ensures progress == WorkspaceProgress(ws, selection, aliasesOf, serverUrl, WebhookPanics(listingOf, serverUrl))
    ensures !progress.panicked ==> pubreq == WorkspaceSummary(ws, selection, aliasesOf)
  {
    progress := Progress([SaveWorkspaceUsers(ws.uuid)], false);
    pubreq := [];
    var filtered := FilterUserSelectedRepos(ws.slug, selection);
    if filtered.None? {
      return;
    }
    var reponames, repoProgress := ProcessRepos(ws.slug, filtered.value, aliasesOf, listingOf, serverUrl);
    progress := Progress(progress.actions + repoProgress.actions, repoProgress.panicked);
    if repoProgress.panicked {
      return;
    }
    pubreq := [SetupInfo(BITBUCKET, ws.slug, reponames)];
  }

  /** `handle_install_bitbucket`: without an access token nothing happens
      and nothing is sent. Otherwise every workspace is processed in turn;
      a panic in `send_aliases` or `process_webhooks` ends the handler
      before anything is sent. Without one, `send_setup_info` reads
      INSTALL_ID and SERVER_URL, panicking when either is unset, and posts
      the summary (even when it is empty). `panicked` says whether the
      handler ended in a panic. */
  method HandleInstallBitbucket(authToken: Option<string>, selection: Option<seq<Repository>>,
                                workspaces: seq<Workspace>, aliasesOf: Repository -> Option<seq<string>>,
                                listingOf: Listings, serverUrl: Option<string>, installId: Option<string>)
    returns (sent: Option<PublishRequest>, actions: seq<Action>, panicked: bool)
    ensures authToken.None? ==> sent.None? && actions == [] && !panicked
    ensures authToken.Some? ==>
              (panicked <==> InstallProgress(workspaces, selection, aliasesOf, serverUrl, WebhookPanics(listingOf, serverUrl)).panicked ||
                             installId.None? || serverUrl.None?)
    ensures sent.Some? <==> authToken.Some? && !panicked
    ensures authToken.Some? ==> actions == InstallProgress(workspaces, selection, aliasesOf, serverUrl, WebhookPanics(listingOf, serverUrl)).actions
    ensures authToken.Some? ==>
              (sent.Some? <==> !InstallProgress(workspaces, selection, aliasesOf, serverUrl, WebhookPanics(listingOf, serverUrl)).panicked &&
                               installId.Some? && serverUrl.Some?)
    ensures sent.Some? ==> installId.Some? && sent.value == PublishRequest(installId.value, Summary(workspaces, selection, aliasesOf))
  {
    actions := [];
    if authToken.None? {
      return None, [], false;
    }
    var pubreqs: seq<SetupInfo> := [];
    var w := 0;
    while w < |workspaces|
      invariant 0 <= w <= |workspaces|
      invariant pubreqs == Summary(workspaces[..w], selection, aliasesOf)
      invariant Progress(actions, false) == InstallProgress(workspaces[..w], selection, aliasesOf, serverUrl, WebhookPanics(listingOf, serverUrl))
    {
      assert workspaces[..w + 1][..w] == workspaces[..w];
      var pubreq, wsProgress := ProcessWorkspace(workspaces[w], selection, aliasesOf, listingOf, serverUrl);
      actions := actions + wsProgress.actions;
      if wsProgress.panicked {
        InstallPanicFinal(workspaces, w + 1, selection, aliasesOf, serverUrl, WebhookPanics(listingOf, serverUrl));
        return None, actions, true;
      }
      pubreqs := pubreqs + pubreq;
      w := w + 1;
    }
    assert workspaces[..w] == workspaces;
    if installId.None? || serverUrl.None? {
      return None, actions, true;
    }
    sent, panicked := Some(PublishRequest(installId.value, pubreqs)), false;
  }
}
