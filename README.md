# vibi-dpu onboarding logic in Dafny

This project models the decision and data-shaping core of vibi-dpu, the
Vibinex data-processing unit, as it onboards a Bitbucket or GitHub
installation. The modelled pieces are these:

- **Selection filter and install summary.** The user-selected repositories
  are filtered per Bitbucket workspace, and the `SetupInfo` summary is built
  by nested loops over workspaces and repositories.
- **Webhook reconciliation.** The code reuses the first listed webhook whose
  url is the callback url, or else schedules a new one. The model covers the
  JSON-to-`Webhook` mapping with its quote stripping, the create payload, and
  the handling of the provider's answer.
- **GitHub token cache.** A credential that has not expired is handed back
  untouched. An expired one costs exactly one token request; the new token
  is pushed to the git remote, saved and returned.
- **PR projections.** GitHub builds them all-or-nothing with `?`. Bitbucket
  defaults every missing field to `""`.
- **sled stores.**
  - Hunk maps overwrite at `db_key/base/head`.
  - Webhooks are appended under a fresh id.
  - The Bitbucket credential is stamped with a timestamp and overwrites one
    fixed key.
- **Alias map and token dispatch.** `core/utils.rs` builds an alias-to-handles
  map and picks a provider for `get_access_token`.
- **Records with setters.** `Repository` and `BitbucketAuthInfo` are classes:
  immutable fields are `const`, and the one field with a setter is a `var`.
- **GitHub repository listing.** One `Repository` per listed entry.

Conventions of the model:

- **Panics.** A panic (`expect` or `unwrap` on outside data) is the
  `Outcome.Panicked` result, or a `panicked` flag where an operation
  also reports the calls it made; it is never a precondition.
- **Replies and oracles.** Network replies, the clock, environment
  variables, RFC 3339 (section 5.6) timestamp parsing, git aliases and
  `Uuid::new_v4` become parameters or a fresh-key method.
- **JSON.** serde_json's `Value` is a datatype. `to_string` is modelled with
  serde's escaping, because the code strips quotes from that rendering.
- **Spawned work.** Work spawned with tokio is a recorded action or a
  sequential loop.
- **Panics inside a handler.** A panic in the awaited `send_aliases`,
  `process_webhooks` or `send_setup_info` ends `handle_install_bitbucket`.
  The run up to `send_setup_info` is a `Progress`: the calls made so far
  and whether it stopped with a panic. The handler returns those calls,
  the request it posts (if any) and a `panicked` flag. The flag also
  covers the INSTALL_ID and SERVER_URL panics of `send_setup_info`.

## Model

| member | source | states |
|---|---|---|
| Repo.Repository.constructor | vibi-dpu/src/utils/repo.rs:20-44 | each of the ten arguments lands in its own field |
| Repo.Repository.LocalDir | vibi-dpu/src/utils/repo.rs:63-65 | the getter returns the stored `local_dir`; as a function it changes nothing |
| Repo.Repository.SetLocalDir | vibi-dpu/src/utils/repo.rs:72-74 | afterwards `local_dir()` is `Some(dir)`; every other field is constant, so it is unchanged |
| BitbucketAuthInfo.AuthInfo.constructor | vibi-dpu/src/utils/bitbucket_auth_info.rs:4-10 | the record holds the access token, refresh token, `expires_in` and timestamp it is built from |
| BitbucketAuthInfo.AuthInfo.Timestamp | vibi-dpu/src/utils/bitbucket_auth_info.rs:27-29 | the getter returns the stored timestamp |
| BitbucketAuthInfo.AuthInfo.Fields | vibi-dpu/src/utils/bitbucket_auth_info.rs:15-29 | the four getters together return the stored fields unchanged |
| BitbucketAuthInfo.AuthInfo.SetTimestamp | vibi-dpu/src/utils/bitbucket_auth_info.rs:32-34 | afterwards `timestamp()` is `Some(t)`; the tokens and `expires_in` are constant |
| HunkDb.Stored | vibi-dpu/src/db/hunk.rs:29-34 | the store maps the composite key to the hunk map, and every other key keeps its presence and its value |
| HunkDb.Fetched | vibi-dpu/src/db/hunk.rs:8-24 | Some exactly when the composite key is present and holds a hunk map, and then it is that hunk map |
| HunkDb.StoreHunkmap | vibi-dpu/src/db/hunk.rs:27-42 | an insert overwrites at `db_key/base/head`; a failed insert leaves the store as it was |
| HunkDb.GetHunk | vibi-dpu/src/db/hunk.rs:6-25 | None on a read error, a missing key or a value that is not a hunk map; otherwise the stored hunk map |
| HunkDb.HunkKeyInjective | vibi-dpu/src/db/hunk.rs:8-9 | for one review key, and base commits without '/', two reviews share a store key exactly when their commit pairs are equal |
| HunkDb.StoreThenFetch | vibi-dpu/src/db/hunk.rs:6-34 | a get after a store for the same review returns the stored hunk map |
| HunkDb.NewCommitPairKeepsOld | vibi-dpu/src/db/hunk.rs:29-34 | for the same review, with base commits without '/': storing a new commit pair leaves the old pair's entry alone, and storing the same pair overwrites it |
| HunkDb.SlashedCommitsCollide | vibi-dpu/src/db/hunk.rs:29 | without that condition the key is ambiguous: base "a/b" with head "c" and base "a" with head "b/c" share a key, so storing one overwrites the other |
| WebhookDb.FreshId | vibi-dpu/src/db/webhook.rs:11-12 | the generated id is not a key of the store |
| WebhookDb.SaveWebhook | vibi-dpu/src/db/webhook.rs:8-29 | a successful save adds exactly one entry, under a new key, and changes no other entry, so saving twice stores twice; a serialisation or insert failure writes nothing |
| BitbucketAuthDb.LoadedFields | vibi-dpu/src/db/bitbucket/auth.rs:31-54 | Some exactly when the fixed key holds a Bitbucket credential, and then it is that credential |
| BitbucketAuthDb.SaveBitbucketAuthInfo | vibi-dpu/src/db/bitbucket/auth.rs:8-29 | the credential is stamped with the current epoch seconds, then written under "bitbucket_auth_info", overwriting any earlier value; a failed insert leaves the store as it was |
| BitbucketAuthDb.LoadBitbucketAuthInfo | vibi-dpu/src/db/bitbucket/auth.rs:31-54 | None exactly on a read error, a missing key or a value that does not deserialise; otherwise a new record with the stored fields |
| BitbucketAuthDb.LoadAfterSave | vibi-dpu/src/db/bitbucket/auth.rs:22-53 | a load after a save returns the saved credential, timestamp included, whatever the key held before |
| GithubAuth.Classify | vibi-dpu/src/github/auth.rs:99-118 | four cases, each as an if-and-only-if: no installation id; an unparsable `expires_at`; live when `expires_at > now`; expired when `expires_at <= now` (strict comparison, so a credential expiring exactly now is expired) |
| GithubAuth.WithInstallationId | vibi-dpu/src/github/auth.rs:91-92 | the fetched credential carries the requested installation id and keeps its token and expiry |
| GithubAuth.UpdateResult | vibi-dpu/src/github/auth.rs:97-130 | None without an installation id or a parsable expiry; a live credential is returned as it is; an expired one gives the fetched credential stamped with its installation id, and an empty fetch is a panic |
| GithubAuth.RefreshResult | vibi-dpu/src/github/auth.rs:132-146 | None if nothing is cached; otherwise a panic, None, or the token of the credential `update_access_token` returns |
| GithubAuth.LiveNeedsNoFetch | vibi-dpu/src/github/auth.rs:115-118 | a live credential comes back untouched whatever the provider would answer |
| GithubAuth.TokenCache.constructor | vibi-dpu/src/github/auth.rs:132-133 | the cache starts with the stored credential, no remote updates and no requests |
| GithubAuth.TokenCache.FetchAccessToken | vibi-dpu/src/github/auth.rs:58-95 | exactly one request; on success the credential is stamped with the installation id, saved and returned; on failure nothing is saved |
| GithubAuth.TokenCache.UpdateAccessToken | vibi-dpu/src/github/auth.rs:97-130 | the result is `UpdateResult`; unless expired there is no request, no save and no remote update; when expired there is exactly one request, and on success the git remote gets the new token with provider "github" and the new credential is saved |
| GithubAuth.TokenCache.RefreshGitAuth | vibi-dpu/src/github/auth.rs:132-146 | the result is `RefreshResult` of the cached credential. With nothing cached, or a credential that has not expired, there is no request, save or remote update. An expired one costs exactly one request, and on success the git remote gets the new token and the new credential is cached |
| CoreUtils.HandlesFor | vibi-dpu/src/core/utils.rs:119-131 | a GitHub review reads the github list, a Bitbucket review the bitbucket list, any other provider none |
| CoreUtils.AliasMapDomain | vibi-dpu/src/core/utils.rs:118-132 | an alias is in the map exactly when some handle with that alias has a list for the review's provider |
| CoreUtils.AliasMapLastWins | vibi-dpu/src/core/utils.rs:123-130 | a later handle with the same alias overwrites an earlier one, so the map holds the last contributing list |
| CoreUtils.BuildAliasMap | vibi-dpu/src/core/utils.rs:117-132 | the loop builds the alias map and issues the `update_handles_in_db` calls in handle order |
| CoreUtils.GetHandlesFromServer | vibi-dpu/src/core/utils.rs:106-139 | a failed send gives None; an unreadable or undeserialisable body is a panic; an empty map gives None, otherwise Some(map) |
| CoreUtils.GetAccessToken | vibi-dpu/src/core/utils.rs:142-166 | a bitbucket review gets the Bitbucket refresh and a github review the GitHub token, each passing on a None; any other provider gets None |
| GithubPrs.ListPrsGithub | vibi-dpu/src/github/prs.rs:11-72 | None when the headers cannot be prepared (before any request) or when the send, the status or the parse fails; a non-array body is a panic; otherwise the rendered numbers |
| GithubPrs.PrNumbersFaithful | vibi-dpu/src/github/prs.rs:65-69 | one string per array entry, in order; a non-negative number gives its decimal digits, which read back as the number |
| GithubPrs.GetPrInfoGithub | vibi-dpu/src/github/prs.rs:74-120 | Some exactly when the reply succeeded and base.sha, head.sha, state and head.ref are all strings; then base.sha is the base commit, head.sha the head commit, head.ref the branch, and state is passed through raw |
| GithubPrs.GetAndStorePrInfo | vibi-dpu/src/github/prs.rs:122-130 | exactly one write, tagged "github", when the detail is Some, and none otherwise |
| BitbucketPrs.AsU32 | vibi-dpu/src/bitbucket/prs.rs:53 | `as u32` keeps the id modulo 2^32, which leaves ids below 2^32 unchanged |
| BitbucketPrs.PrIds | vibi-dpu/src/bitbucket/prs.rs:50-56 | the loop collects at most one id per entry |
| BitbucketPrs.PrIdsConcat | vibi-dpu/src/bitbucket/prs.rs:50-56 | ids are collected in order: the ids of a concatenation are the concatenated ids |
| BitbucketPrs.PrIdsAllValid | vibi-dpu/src/bitbucket/prs.rs:50-56 | at most one id per entry; when every entry has an unsigned id, the list has one id per entry, in order, each modulo 2^32 |
| BitbucketPrs.PrIdsSkipInvalid | vibi-dpu/src/bitbucket/prs.rs:50-56 | an entry without an unsigned id is skipped wherever it stands: removing it from the list leaves the ids unchanged |
| BitbucketPrs.PrIdsKeepValid | vibi-dpu/src/bitbucket/prs.rs:50-56 | every entry with an unsigned id, wherever it stands, has that id modulo 2^32 in the list |
| BitbucketPrs.ListPrsBitbucket | vibi-dpu/src/bitbucket/prs.rs:11-58 | an empty list on a send failure, a non-200 status, a parse failure or a non-array `values`; otherwise the loop yields the ids of the entries |
| BitbucketPrs.StrOrEmpty | vibi-dpu/src/bitbucket/prs.rs:85-88 | a string member gives its text; anything else gives "" |
| BitbucketPrs.GetPrInfo | vibi-dpu/src/bitbucket/prs.rs:62-90 | None exactly on a send failure or an unsuccessful status; destination.commit.hash is the base, source.commit.hash the head, source.branch.name the branch and state is raw; missing fields, or an unparsable body, give "" |
| BitbucketPrs.GetAndStorePrInfo | vibi-dpu/src/bitbucket/prs.rs:92-99 | one save when the detail is Some, none otherwise |
| BitbucketWebhook.CallbackUrl | vibi-dpu/src/bitbucket/webhook.rs:44-45 | the callback url is SERVER_URL followed by "/api/bitbucket/callbacks/webhook" |
| BitbucketWebhook.ActiveFlagCases | vibi-dpu/src/bitbucket/webhook.rs:17 | `active` is true for any boolean, even false; it is false for null, numbers, arrays and objects; for any string it is true exactly when the string is "true" or "false" |
| BitbucketWebhook.ActiveFlagEscaped | vibi-dpu/src/bitbucket/webhook.rs:17 | a string that serde_json escapes keeps a backslash through `trim_matches`, so it never reads as active |
| BitbucketWebhook.WebhookFromJson | vibi-dpu/src/bitbucket/webhook.rs:17-26 | a panic exactly when `events` is not an array of strings; otherwise uuid keeps its raw rendering, created_at, links.self.href and url lose their '"', and events are copied in order |
| BitbucketWebhook.WebhookFieldsStripped | vibi-dpu/src/bitbucket/webhook.rs:21-25 | no '"' is left in created_at, the self link or the url, and a plain string url comes back exactly |
| BitbucketWebhook.WebhooksPanicIff | vibi-dpu/src/bitbucket/webhook.rs:16-28 | the listing panics exactly when one of its entries does |
| BitbucketWebhook.WebhooksInOrder | vibi-dpu/src/bitbucket/webhook.rs:15-29 | otherwise there is one webhook per JSON entry, in order |
| BitbucketWebhook.GetWebhooksInRepo | vibi-dpu/src/bitbucket/webhook.rs:11-30 | the loop yields the whole listing's webhooks, or the panic of its first bad entry |
| BitbucketWebhook.AddWebhookPayloadFields | vibi-dpu/src/bitbucket/webhook.rs:44-51 | the payload's url is the callback url, it is active, its events are exactly pullrequest:created and pullrequest:updated, and it carries the fixed description |
| BitbucketWebhook.AddResponseRecord | vibi-dpu/src/bitbucket/webhook.rs:61-87 | nothing unless the send succeeded, the status is a success and the body parsed; then the response's fields, with the self link from `links["self"]["href"]` (a missing one is a panic) |
| BitbucketWebhook.ProcessAddWebhookResponse | vibi-dpu/src/bitbucket/webhook.rs:61-89 | the record above, when there is one, is saved once under a new key; otherwise the store is untouched |
| BitbucketWebhook.AddWebhook | vibi-dpu/src/bitbucket/webhook.rs:32-59 | nothing is sent when the auth headers cannot be prepared; then a missing SERVER_URL panics; otherwise the payload is sent and the answer processed |
| BitbucketSetup.SelectOwned | vibi-dpu/src/core/bitbucket/setup.rs:108-111 | the filter keeps at most the repositories it is given |
| BitbucketSetup.SelectOwnedSpec | vibi-dpu/src/core/bitbucket/setup.rs:108-111 | every result is owned by the workspace and comes from the input, and every owned input repository is in the result |
| BitbucketSetup.SelectOwnedConcat | vibi-dpu/src/core/bitbucket/setup.rs:108-111 | the filter keeps input order: filtering a concatenation concatenates the filtered parts |
| BitbucketSetup.SelectOwnedKeepsAll | vibi-dpu/src/core/bitbucket/setup.rs:108-111 | when the workspace owns every input repository, nothing is dropped |
| BitbucketSetup.FilterUserSelectedRepos | vibi-dpu/src/core/bitbucket/setup.rs:101-113 | None exactly when the selection is absent or empty (fail-closed); otherwise Some of the owned repositories, possibly none |
| BitbucketSetup.FirstMatching | vibi-dpu/src/core/bitbucket/setup.rs:134-135 | a hook `find` returns is one of the listed hooks and has the url searched for |
| BitbucketSetup.FirstMatchingSpec | vibi-dpu/src/core/bitbucket/setup.rs:134-135 | `find` gives None exactly when no url matches; otherwise it gives a matching hook with no match before it |
| BitbucketSetup.Reconcile | vibi-dpu/src/core/bitbucket/setup.rs:115-149 | the decision panics exactly when the listing panics or SERVER_URL is unset; a reused hook is one of the listed hooks and has the callback url |
| BitbucketSetup.ListedUrls | vibi-dpu/src/core/bitbucket/setup.rs:134-135 | the urls compared are the listed urls with their quotes stripped, position by position |
| BitbucketSetup.ReconcileAddsWhenAbsent | vibi-dpu/src/core/bitbucket/setup.rs:120-149 | a new webhook is scheduled exactly when no listed url equals the callback url, which includes an empty listing |
| BitbucketSetup.ReconcileReusesFirst | vibi-dpu/src/core/bitbucket/setup.rs:134-152 | otherwise the reused webhook has the callback url and is the first listed one that has it |
| BitbucketSetup.ReconcileAfterAdd | vibi-dpu/src/core/bitbucket/setup.rs:118-152 | for a SERVER_URL whose callback url needs no JSON escape: once the hook created from the add payload is listed, the next reconciliation reuses a hook with the callback url and adds none |
| BitbucketSetup.ReconcileQuotedServerUrlAdds | vibi-dpu/src/core/bitbucket/setup.rs:134-149 | with a quote in SERVER_URL no listed url, stripped of its quotes, can equal the callback url, so every reconciliation that does not panic adds another webhook, whatever is listed |
| BitbucketSetup.ProcessWebhooks | vibi-dpu/src/core/bitbucket/setup.rs:115-153 | the decision is `Reconcile`; only a reused webhook is saved, once, under a new key; adding or panicking stores nothing |
| BitbucketSetup.PrSavesBound | vibi-dpu/src/core/bitbucket/setup.rs:80-87 | the PR task makes at most one save per listed id |
| BitbucketSetup.PrSavesFromIds | vibi-dpu/src/core/bitbucket/setup.rs:80-87 | every save is for this workspace and repository, and carries a listed id in decimal (reading back as the id) with the detail fetched for that id |
| BitbucketSetup.PrSavesAllSucceed | vibi-dpu/src/core/bitbucket/setup.rs:80-87 | when every detail request succeeds there is one save per id, in order |
| BitbucketSetup.SyncOpenPrs | vibi-dpu/src/core/bitbucket/setup.rs:72-89 | the spawned task's saves are those of `PrSaves` over the listed ids |
| BitbucketSetup.ReposWithAliasesSpec | vibi-dpu/src/core/bitbucket/setup.rs:53-63 | every reported name belongs to a repository with git aliases, and when all have aliases all names are reported, in order |
| BitbucketSetup.ReposWithAliasesComplete | vibi-dpu/src/core/bitbucket/setup.rs:53-63 | every repository with git aliases is reported, also among repositories without aliases |
| BitbucketSetup.ReposActionsCover | vibi-dpu/src/core/bitbucket/setup.rs:61-89 | every reported repository had its webhook reconciled and its PR sync started, under its workspace |
| BitbucketSetup.SummaryWithoutSelection | vibi-dpu/src/core/bitbucket/setup.rs:42-46 | with an absent or empty selection every workspace is skipped and the summary is empty |
| BitbucketSetup.SummaryShape | vibi-dpu/src/core/bitbucket/setup.rs:37-95 | otherwise there is one entry per workspace, in order, with provider "bitbucket", owner the slug, and as repos the owned selected repositories that have aliases, in order |
| BitbucketSetup.SummaryReposProcessed | vibi-dpu/src/core/bitbucket/setup.rs:37-95 | every repository named in the summary was selected, is owned by its workspace and has aliases, and its webhook was reconciled and its PR sync started |
| BitbucketSetup.ReposProgressPanicIff | vibi-dpu/src/core/bitbucket/setup.rs:49-90 | the repository loop panics exactly when some repository has git aliases and either SERVER_URL is unset (in `send_aliases`) or its webhook reconciliation panics; without a panic it makes every call of the complete run |
| BitbucketSetup.ReposProgressStops | vibi-dpu/src/core/bitbucket/setup.rs:61-68 | after a panic no further call is made: the last call is the `send_aliases` that found SERVER_URL unset, or else the webhook reconciliation that panicked, so no PR sync starts for that repository |
| BitbucketSetup.WorkspaceProgressPanicIff | vibi-dpu/src/core/bitbucket/setup.rs:41-90 | a workspace panics exactly when the selection is non-empty and a selected repository it owns has git aliases, and either SERVER_URL is unset or that repository's reconciliation panics |
| BitbucketSetup.WorkspaceProgressComplete | vibi-dpu/src/core/bitbucket/setup.rs:41-90 | without a panic a workspace makes every call of the complete run |
| BitbucketSetup.InstallProgressPanicIff | vibi-dpu/src/core/bitbucket/setup.rs:37-96 | the handler panics exactly when one of its workspaces does |
| BitbucketSetup.InstallProgressComplete | vibi-dpu/src/core/bitbucket/setup.rs:37-96 | without a panic the handler makes every call of the complete run, workspace by workspace |
| BitbucketSetup.InstallProgressStops | vibi-dpu/src/core/bitbucket/setup.rs:37-98 | after a panic the handler makes no further call: its last call is the `send_aliases` that found SERVER_URL unset, or else the reconciliation that panicked |
| BitbucketSetup.ReposNoReconcile | vibi-dpu/src/core/bitbucket/setup.rs:61-68 | without SERVER_URL the repository loop never calls `process_webhooks` |
| BitbucketSetup.InstallNoReconcile | vibi-dpu/src/core/bitbucket/setup.rs:37-96 | without SERVER_URL the handler never calls `process_webhooks` |
| BitbucketSetup.ProcessRepo | vibi-dpu/src/core/bitbucket/setup.rs:50-89 | one repository: cloned; with aliases, its aliases sent (a panic without SERVER_URL), its name reported and `process_webhooks` awaited, then the PR sync started unless that panicked |
| BitbucketSetup.ProcessRepos | vibi-dpu/src/core/bitbucket/setup.rs:48-90 | the inner loop's calls and panic are those of the specification function, and without a panic its names are those of the aliased repositories |
| BitbucketSetup.ProcessWorkspace | vibi-dpu/src/core/bitbucket/setup.rs:38-95 | one workspace: its users are saved, then, unless there is no selection, its repositories are processed and, unless that panicked, its entry made |
| BitbucketSetup.HandleInstallBitbucket | vibi-dpu/src/core/bitbucket/setup.rs:22-99 | without a token nothing is done, nothing is sent and nothing panics. Otherwise the calls are made in order up to the first panic in `send_aliases` or `process_webhooks`. The handler panics exactly when one of those panics or INSTALL_ID or SERVER_URL is unset (as `send_setup_info` reads them). It sends exactly when it does not panic, and what it sends is the installation id with the summary (possibly empty) |
| GithubRepos.UnquotedFaithful | vibi-dpu/src/github/repos.rs:16-22 | trimming quotes gives back a plain string member exactly, and a non-negative id as its decimal digits |
| GithubRepos.PrivateFlag | vibi-dpu/src/github/repos.rs:10-14 | `private` as written when it is a boolean, true otherwise |
| GithubRepos.ExpectedFields | vibi-dpu/src/github/repos.rs:15-25 | the repository built from an entry belongs to the provider "github", has its owner's login as workspace, and has no project name or type |
| GithubRepos.RepoFromJson | vibi-dpu/src/github/repos.rs:10-25 | one entry gives a newly allocated repository whose fields are the entry's expected fields, with no local directory |
| GithubRepos.GetGithubAppInstalledRepos | vibi-dpu/src/github/repos.rs:5-31 | always Some; one distinct repository per entry, in order. Each has quote-trimmed name, id, owner.login and ssh_url, workspace equal to owner, provider "github", and no project or local directory |
| Json.StripRenderedPlain | vibi-dpu/src/bitbucket/webhook.rs:21-25 | removing or trimming the quotes of a rendered plain string gives the string back |
| Json.DigitsRoundTrip | vibi-dpu/src/github/prs.rs:68 | the decimal rendering of a non-negative number reads back as that number |

## Left out

- HTTP is not modelled: request building, URLs, headers, query parameters, `get_api_values` pagination, and the `send_aliases` and `send_setup_info` posts. Each request is a reply parameter, or an action recorded in order.
- JWT creation, PEM reading and RS256 signing in `generate_jwt` are left out, together with the `GITHUB_APP_ID` panic in `fetch_access_token`. The token request's answer is a parameter.
- Concurrency from `tokio::task::spawn` is left out. Spawned work is run in sequence (`SyncOpenPrs`) or returned as a decision (`AddNew`, to be carried out by `AddWebhook`), so the order of concurrent writes is not modelled.
- Git operations are recorded effects: `clone_git_repo` (`CloneRepo`), `get_git_aliases` (a parameter), and `set_git_remote_url` (`RemoteUpdate`).
- Environment variables are parameters. SERVER_URL is an Option where it is read by `send_aliases`, `process_webhooks`, `send_setup_info` and `add_webhook`, and INSTALL_ID where `send_setup_info` reads it (core/utils.rs:41-45, 68-69).
- The webhook listing that `process_webhooks` fetches for each repository (`get_webhooks_in_repo`) is a parameter `listingOf` of the install handler.
- BitbucketSetup.HandleInstallBitbucket: records each `process_webhooks` call as a `ReconcileWebhooks` action and takes only its panics from `Reconcile`. The store write of a reused hook and the spawned `add_webhook` are stated by ProcessWebhooks and AddWebhook on their own.
- CoreUtils.GetHandlesFromServer: does not model the SERVER_URL panic at core/utils.rs:94-95, because the environment is taken as configured.
- GithubAuth.TokenCache.FetchAccessToken: does not model the panic when `generate_jwt` fails (github/auth.rs:61), because JWT signing is left out. Every call is taken to send the token request and counts one fetch, where the source would panic before any request.
- BitbucketPrs.ListPrsBitbucket: does not model the panics when SERVER_URL is unset (bitbucket/prs.rs:22) or the token is not a valid header value (line 16), because the environment is taken as configured.
- BitbucketPrs.GetPrInfo: does not model the SERVER_URL panic at bitbucket/prs.rs:63, for the same reason.
- HunkDb.StoreHunkmap: does not model the serialisation panic at db/hunk.rs:31, because serialisation is the identity.
- BitbucketAuthDb.SaveBitbucketAuthInfo: does not model the serialisation panic (db/bitbucket/auth.rs:14). It also leaves out the "time went backwards" panic, since the clock is a parameter.
- WebhookDb.FreshId: `Uuid::new_v4` is random and fresh only with overwhelming probability. The model gets freshness by construction.
- sled, serde and UUID internals are left out. Stored values are the records themselves, and reading a value of another kind counts as a deserialisation failure.
- Logging, `println!` and `eprintln!` are left out.
- `save_repo_to_db` (github/repos.rs:26) writes to db/repo.rs, which is not part of this model.
- db/prs.rs and db/github/auth.rs are not part of this model. Their writes are recorded (`PrStore.writes`, `TokenCache.cached`).
- GithubAuth.TokenCache.RefreshGitAuth: reads the credential from `TokenCache.cached` rather than from sled.
- The type files of Webhook, PrInfo, GithubAuthInfo, Review, HunkMap, SetupInfo, the Bitbucket workspace and ProviderEnum are not part of this model. Only the fields the core uses are kept.
- ProviderEnum's `Display` is taken to be "github" and "bitbucket". With these values the `to_lowercase` in `get_access_token` changes nothing.
- Source inconsistency: core/bitbucket/setup.rs:73-74 treats `list_prs_bitbucket` as returning an Option, but bitbucket/prs.rs:11 returns `Vec<u32>`.
  - The model follows bitbucket/prs.rs.
  - `get_and_store_pr_info` takes a string, so the ids are passed in decimal.
- Source inconsistency: github/repos.rs:15-25 passes nine arguments to the ten-parameter `Repository::new` (utils/repo.rs:20-31). The model uses this mapping:
  - name, id, owner.login, private and ssh_url fill the first five fields;
  - project name and project type are None;
  - workspace is owner.login;
  - the local directory is None;
  - provider is "github".
- db/mod.rs holds only module declarations.
- Floating point and integer widths are not modelled except where the code relies on them: `as u32`, and the u64 fields and timestamps.
