/** core/utils.rs: the alias-to-handles map built from the server's answer
    and the provider dispatch of `get_access_token`. */
module CoreUtils {
  import opened Wrappers
  import opened Entities

  /** One entry of the server's alias response. */
  datatype AliasHandle = AliasHandle(gitAlias: string, github: Option<seq<string>>, bitbucket: Option<seq<string>>)

  /** One call of `update_handles_in_db`. */
  datatype HandleUpdate = HandleUpdate(gitAlias: string, provider: string, handles: seq<string>)

  /** The alias request: not sent, a body that could not be read, or a
      body that did (Some) or did not (None) deserialise. */
  datatype AliasReply =
    | AliasSendFailed
    | AliasBodyUnreadable
    | AliasReceived(parsed: Option<seq<AliasHandle>>)

  /** The handles an entry contributes for the review's provider. */
  function HandlesFor(h: AliasHandle, provider: string): (r: Option<seq<string>>)
    ensures provider == GITHUB ==> r == h.github
    ensures provider == BITBUCKET ==> r == h.bitbucket
    ensures provider != GITHUB && provider != BITBUCKET ==> r.None?
  {
    if provider == GITHUB && h.github.Some? then h.github
    else if provider == BITBUCKET && h.bitbucket.Some? then h.bitbucket
    else None
  }

  /** The map after inserting every contributing entry in order. */
  function AliasMap(handles: seq<AliasHandle>, provider: string): map<string, seq<string>>
  {
    if |handles| == 0 then map[]
    else
      var earlier := AliasMap(handles[..|handles| - 1], provider);
      var h := handles[|handles| - 1];
      if HandlesFor(h, provider).Some? then earlier[h.gitAlias := HandlesFor(h, provider).value] else earlier
  }

  /** The `update_handles_in_db` calls, in order. */
  function HandleUpdates(handles: seq<AliasHandle>, provider: string): seq<HandleUpdate>
  {
    if |handles| == 0 then []
    else
      var h := handles[|handles| - 1];
      HandleUpdates(handles[..|handles| - 1], provider) +
      (if HandlesFor(h, provider).Some? then [HandleUpdate(h.gitAlias, provider, HandlesFor(h, provider).value)] else [])
  }

  /** An alias is in the map exactly when some entry with that alias has
      handles for the provider. */
  lemma {:induction false} AliasMapDomain(handles: seq<AliasHandle>, provider: string, alias: string)
    ensures alias in AliasMap(handles, provider) <==>
            exists i :: 0 <= i < |handles| && handles[i].gitAlias == alias && HandlesFor(handles[i], provider).Some?
  {
    if |handles| > 0 {
      var init := handles[..|handles| - 1];
      AliasMapDomain(init, provider, alias);
      if alias in AliasMap(init, provider) {
        var i :| 0 <= i < |init| && init[i].gitAlias == alias && HandlesFor(init[i], provider).Some?;
        assert handles[i] == init[i];
      }
      if exists i :: 0 <= i < |handles| && handles[i].gitAlias == alias && HandlesFor(handles[i], provider).Some? {
        var i :| 0 <= i < |handles| && handles[i].gitAlias == alias && HandlesFor(handles[i], provider).Some?;
        if i < |handles| - 1 {
          assert init[i] == handles[i];
        }
      }
    }
  }

  /** A later entry with the same alias overwrites an earlier one: the map
      holds the handles of the last contributing entry for each alias. */
  lemma {:induction false} AliasMapLastWins(handles: seq<AliasHandle>, provider: string, i: nat)
    requires i < |handles| && HandlesFor(handles[i], provider).Some?
    requires forall j :: i < j < |handles| && handles[j].gitAlias == handles[i].gitAlias ==>
               HandlesFor(handles[j], provider).None?
    ensures handles[i].gitAlias in AliasMap(handles, provider)
    ensures AliasMap(handles, provider)[handles[i].gitAlias] == HandlesFor(handles[i], provider).value
  {
    var init := handles[..|handles| - 1];
    if i < |handles| - 1 {
      forall j | i < j < |init| && init[j].gitAlias == init[i].gitAlias
        ensures HandlesFor(init[j], provider).None?
      {
        assert init[j] == handles[j];
      }
      AliasMapLastWins(init, provider, i);
    }
  }

  /** The loop of `get_handles_from_server` that fills `aliases_map`. */
  method BuildAliasMap(provider: string, handles: seq<AliasHandle>)
    returns (aliases: map<string, seq<string>>, updates: seq<HandleUpdate>)
    ensures aliases == AliasMap(handles, provider)
    ensures updates == HandleUpdates(handles, provider)
  {
    aliases := map[];
    updates := [];
    var i := 0;
    while i < |handles|
      invariant 0 <= i <= |handles|
      invariant aliases == AliasMap(handles[..i], provider)
      invariant updates == HandleUpdates(handles[..i], provider)
    {
      assert handles[..i + 1][..i] == handles[..i];
      var h := handles[i];
      if provider == GITHUB && h.github.Some? {
        updates := updates + [HandleUpdate(h.gitAlias, provider, h.github.value)];
        aliases := aliases[h.gitAlias := h.github.value];
      } else if provider == BITBUCKET && h.bitbucket.Some? {
        updates := updates + [HandleUpdate(h.gitAlias, provider, h.bitbucket.value)];
        aliases := aliases[h.gitAlias := h.bitbucket.value];
      }
      i := i + 1;
    }
    assert handles[..i] == handles;
  }

  /** `get_handles_from_server` after the request: a failed send gives
      None, an unreadable or undeserialisable body is a panic, and an
      empty map gives None. */
  method GetHandlesFromServer(provider: string, reply: AliasReply)
    returns (r: Outcome<Option<map<string, seq<string>>>>, updates: seq<HandleUpdate>)
    ensures reply.AliasSendFailed? ==> r == Returned(None) && updates == []
    ensures reply.AliasBodyUnreadable? || reply == AliasReceived(None) ==> r == Panicked && updates == []
    ensures reply.AliasReceived? && reply.parsed.Some? ==>
              updates == HandleUpdates(reply.parsed.value, provider) &&
              r == Returned(if AliasMap(reply.parsed.value, provider) == map[] then None
                            else Some(AliasMap(reply.parsed.value, provider)))
  {
    updates := [];
    match reply
    case AliasSendFailed => r := Returned(None);
    case AliasBodyUnreadable => r := Panicked;
    case AliasReceived(None) => r := Panicked;
    case AliasReceived(Some(handles)) =>
      var aliases;
      aliases, updates := BuildAliasMap(provider, handles);
      if |aliases| == 0 {
        r := Returned(None);
      } else {
        r := Returned(Some(aliases));
      }
  }

  /** `get_access_token`: Bitbucket reviews take the Bitbucket refresh,
      GitHub reviews the GitHub token, anything else gets None; a None from
      the chosen call is passed on. The two calls' answers are parameters. */
  function GetAccessToken(review: Review, bitbucketRefresh: Option<string>, githubToken: Option<string>)
    : (r: Option<string>)
    ensures review.provider == BITBUCKET ==> r == bitbucketRefresh
    ensures review.provider == GITHUB ==> r == githubToken
    ensures review.provider != BITBUCKET && review.provider != GITHUB ==> r.None?
  {
    if review.provider == BITBUCKET then bitbucketRefresh
    else if review.provider == GITHUB then githubToken
    else None
  }
}
