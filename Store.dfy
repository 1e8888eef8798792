/** The embedded key-value store (sled) shared by the db modules, and the
    pull-request store that db/prs.rs (not part of this model) writes to.
    Serialisation is the identity: a stored value is the record itself, and
    reading it back as a record of another kind is a deserialisation
    failure. */
module Store {
  import opened Wrappers
  import opened Entities
  import BitbucketAuthInfo

  datatype StoredValue =
    | HunkEntry(hunks: HunkMap)
    | WebhookEntry(hook: Webhook)
    | BitbucketAuthEntry(auth: BitbucketAuthInfo.AuthFields)
    /** bytes written by code outside this model */
    | Foreign(bytes: seq<bv8>)

  class KvStore {
    var entries: map<string, StoredValue>

    constructor ()
      ensures entries == map[]
    {
      entries := map[];
    }
  }

  /** One call into db/prs.rs. */
  datatype PrWrite =
    | GithubPrUpdate(owner: string, repo: string, info: PrInfo, number: string, provider: string)
    | BitbucketPrSave(workspace: string, repo: string, info: PrInfo, number: string)

  class PrStore {
    var writes: seq<PrWrite>

    constructor ()
      ensures writes == []
    {
      writes := [];
    }
  }
}
