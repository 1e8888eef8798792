/** github/auth.rs: the GitHub installation token cache and its refresh.
    The RFC 3339 (section 5.6) parsing of `expires_at` is a parameter that
    maps a string to epoch seconds, or to None when it does not parse; the
    clock and the provider's token response are parameters too. */
module GithubAuth {
  import opened Wrappers
  import opened Entities

  /** One call of `set_git_remote_url`. */
  datatype RemoteUpdate = RemoteUpdate(cloneUrl: string, directory: string, token: string, provider: string)

  /** What `update_access_token` decides before any network call. */
  datatype Freshness =
    | NoInstallation
    | BadExpiry
    | Live
    | Expired(installationId: string)

  function Classify(info: GithubAuthInfo, now: int, parseRfc3339: string -> Option<int>): (f: Freshness)
    ensures f == NoInstallation <==> info.installationId.None?
    ensures f == BadExpiry <==> info.installationId.Some? && parseRfc3339(info.expiresAt).None?
    ensures f == Live <==>
              info.installationId.Some? && parseRfc3339(info.expiresAt).Some? &&
              parseRfc3339(info.expiresAt).value > now
    // a credential that expires exactly now is already expired
    ensures f.Expired? <==>
              info.installationId.Some? && parseRfc3339(info.expiresAt).Some? &&
              parseRfc3339(info.expiresAt).value <= now
    ensures f.Expired? ==> Some(f.installationId) == info.installationId
  {
    if info.installationId.None? then NoInstallation
    else
      match parseRfc3339(info.expiresAt)
      case None => BadExpiry
      case Some(expiresAt) => if expiresAt > now then Live else Expired(info.installationId.value)
  }

  /** `set_installation_id` on a freshly fetched credential. */
  function WithInstallationId(info: GithubAuthInfo, installationId: string): (r: GithubAuthInfo)
    ensures r.installationId == Some(installationId)
    ensures r.token == info.token && r.expiresAt == info.expiresAt
  {
    info.(installationId := Some(installationId))
  }

  /** What `update_access_token` returns, given the provider's answer to
      the token request it makes when the cached credential has expired
      (None: the request, its status or its body failed). */
  function UpdateResult(info: GithubAuthInfo, now: int, parseRfc3339: string -> Option<int>,
                        response: Option<GithubAuthInfo>): (r: Outcome<Option<GithubAuthInfo>>)
    ensures Classify(info, now, parseRfc3339) in {NoInstallation, BadExpiry} ==> r == Returned(None)
    ensures Classify(info, now, parseRfc3339) == Live ==> r == Returned(Some(info))
    ensures Classify(info, now, parseRfc3339).Expired? ==>
              (response.None? <==> r.Panicked?) &&
              (response.Some? ==>
                 r == Returned(Some(WithInstallationId(response.value, info.installationId.value))))
  {
    match Classify(info, now, parseRfc3339)
    case NoInstallation => Returned(None)
    case BadExpiry => Returned(None)
    case Live => Returned(Some(info))
    case Expired(id) =>
      if response.None? then Panicked else Returned(Some(WithInstallationId(response.value, id)))
  }

  /** The token `refresh_git_auth` hands back, given what it loads and what
      `update_access_token` returns. */
  function RefreshResult(cached: Option<GithubAuthInfo>, now: int, parseRfc3339: string -> Option<int>,
                         response: Option<GithubAuthInfo>): (r: Outcome<Option<string>>)
    ensures cached.None? ==> r == Returned(None)
    ensures cached.Some? ==>
              match UpdateResult(cached.value, now, parseRfc3339, response)
              case Panicked => r.Panicked?
              case Returned(None) => r == Returned(None)
              case Returned(Some(latest)) => r == Returned(Some(latest.token))
  {
    if cached.None? then Returned(None)
    else
      match UpdateResult(cached.value, now, parseRfc3339, response)
      case Panicked => Panicked
      case Returned(None) => Returned(None)
      case Returned(Some(latest)) => Returned(Some(latest.token))
  }

  /** A live credential is handed back untouched, and the provider's answer
      is then irrelevant: no request is made. */
  lemma LiveNeedsNoFetch(info: GithubAuthInfo, now: int, parseRfc3339: string -> Option<int>,
                         response1: Option<GithubAuthInfo>, response2: Option<GithubAuthInfo>)
    requires info.installationId.Some? && parseRfc3339(info.expiresAt).Some?
    requires parseRfc3339(info.expiresAt).value > now
    ensures UpdateResult(info, now, parseRfc3339, response1) == Returned(Some(info))
    ensures UpdateResult(info, now, parseRfc3339, response1) == UpdateResult(info, now, parseRfc3339, response2)
  {
  }

  /** The token cache: the stored "github_auth_info" credential, the git
      remotes rewritten with new tokens, and a ghost count of token
      requests sent to the provider. */
  class TokenCache {
    var cached: Option<GithubAuthInfo>
    var remoteUpdates: seq<RemoteUpdate>
    ghost var fetches: nat

    constructor (stored: Option<GithubAuthInfo>)
      ensures cached == stored && remoteUpdates == [] && fetches == 0
    {
      cached := stored;
      remoteUpdates := [];
      fetches := 0;
    }

    /** `fetch_access_token`: one token request; on success the credential
        is stamped with the installation id, saved and returned. JWT
        signing is not part of this model. */
    method FetchAccessToken(installationId: string, response: Option<GithubAuthInfo>)
      returns (r: Option<GithubAuthInfo>)
      modifies this
      ensures fetches == old(fetches) + 1 && remoteUpdates == old(remoteUpdates)
      ensures response.None? ==> r.None? && cached == old(cached)
      ensures response.Some? ==>
                r == Some(WithInstallationId(response.value, installationId)) && cached == r
    {
      fetches := fetches + 1;
      if response.None? {
        return None;
      }
      var info := response.value.(installationId := Some(installationId));
      cached := Some(info);
      r := Some(info);
    }

    /** `update_access_token`: a credential without installation id or
        with an unparsable expiry gives None; a live one is returned as it
        is with no request, no save and no remote update; an expired one
        costs exactly one request, and the new credential is pushed to the
        git remote, saved and returned (an empty answer is a panic). */
    method UpdateAccessToken(info: GithubAuthInfo, cloneUrl: string, directory: string, now: int,
                             parseRfc3339: string -> Option<int>, response: Option<GithubAuthInfo>)
      returns (r: Outcome<Option<GithubAuthInfo>>)
      modifies this
      ensures r == UpdateResult(info, now, parseRfc3339, response)
      ensures !Classify(info, now, parseRfc3339).Expired? ==>
                cached == old(cached) && remoteUpdates == old(remoteUpdates) && fetches == old(fetches)
      ensures Classify(info, now, parseRfc3339).Expired? ==>
                fetches == old(fetches) + 1 &&
                (r.Panicked? ==> cached == old(cached) && remoteUpdates == old(remoteUpdates)) &&
                (r.Returned? ==>
                   cached == r.value &&
                   remoteUpdates == old(remoteUpdates) + [RemoteUpdate(cloneUrl, directory, r.value.value.token, GITHUB)])
    {
      if info.installationId.None? {
        return Returned(None);
      }
      var installationId := info.installationId.value;
      var expiresAt := parseRfc3339(info.expiresAt);
      if expiresAt.None? {
        return Returned(None);
      }
      if expiresAt.value > now {
        return Returned(Some(info));
      }
      var fetched := FetchAccessToken(installationId, response);
      if fetched.None? {
        return Panicked;
      }
      var latest := fetched.value;
      remoteUpdates := remoteUpdates + [RemoteUpdate(cloneUrl, directory, latest.token, GITHUB)];
      cached := Some(latest);
      r := Returned(fetched);
    }

    /** `refresh_git_auth`: nothing cached gives None; otherwise the token
        of whatever `update_access_token` returns, with its effects: none
        unless the cached credential has expired, and then one request and,
        on success, the remote update and the new cached credential. */
    method RefreshGitAuth(cloneUrl: string, directory: string, now: int,
                          parseRfc3339: string -> Option<int>, response: Option<GithubAuthInfo>)
      returns (r: Outcome<Option<string>>)
      modifies this
      ensures r == RefreshResult(old(cached), now, parseRfc3339, response)
      ensures old(cached).None? ==> cached == old(cached) && remoteUpdates == old(remoteUpdates) && fetches == old(fetches)
      ensures old(cached).Some? && !Classify(old(cached).value, now, parseRfc3339).Expired? ==>
                cached == old(cached) && remoteUpdates == old(remoteUpdates) && fetches == old(fetches)
      ensures old(cached).Some? && Classify(old(cached).value, now, parseRfc3339).Expired? ==>
                fetches == old(fetches) + 1 &&
                (r.Panicked? ==> cached == old(cached) && remoteUpdates == old(remoteUpdates)) &&
                (r.Returned? ==>
                   cached.Some? && cached == UpdateResult(old(cached).value, now, parseRfc3339, response).value &&
                   r.value == Some(cached.value.token) &&
                   remoteUpdates == old(remoteUpdates) + [RemoteUpdate(cloneUrl, directory, cached.value.token, GITHUB)])
    {
      if cached.None? {
        return Returned(None);
      }
      var updated := UpdateAccessToken(cached.value, cloneUrl, directory, now, parseRfc3339, response);
      match updated
      case Panicked => r := Panicked;
      case Returned(None) => r := Returned(None);
      case Returned(Some(latest)) => r := Returned(Some(latest.token));
    }
  }
}
