/** db/bitbucket/auth.rs: the Bitbucket credential lives under one fixed
    key. */
module BitbucketAuthDb {
  import opened Wrappers
  import opened Store
  import BitbucketAuthInfo

  const AUTH_KEY: string := "bitbucket_auth_info"

  /** What a read of the credential finds. */
  function LoadedFields(entries: map<string, StoredValue>): (r: Option<BitbucketAuthInfo.AuthFields>)
    ensures r.Some? <==> AUTH_KEY in entries && entries[AUTH_KEY].BitbucketAuthEntry?
    ensures r.Some? ==> entries[AUTH_KEY] == BitbucketAuthEntry(r.value)
  {
    if AUTH_KEY in entries && entries[AUTH_KEY].BitbucketAuthEntry? then Some(entries[AUTH_KEY].auth) else None
  }

  /** `save_bitbucket_auth_info_to_db`: stamps the credential with the
      current epoch seconds, then overwrites the one fixed key with it (a
      failed insert leaves the store as it was, the stamp stays). */
  method SaveBitbucketAuthInfo(db: KvStore, auth: BitbucketAuthInfo.AuthInfo, nowSecs: U64, insertFails: bool)
    modifies db, auth
    ensures auth.timestamp == Some(nowSecs)
    ensures db.entries ==
              if insertFails then old(db.entries)
              else old(db.entries)[AUTH_KEY := BitbucketAuthEntry(auth.Fields())]
  {
    auth.SetTimestamp(nowSecs);
    if insertFails {
      return;
    }
    db.entries := db.entries[AUTH_KEY := BitbucketAuthEntry(auth.Fields())];
  }

  /** `bitbucket_auth_info`: a new credential read from the fixed key, or
      None when the read fails, the key is absent or its value does not
      deserialise. */
  method LoadBitbucketAuthInfo(db: KvStore, readFails: bool) returns (r: Option<BitbucketAuthInfo.AuthInfo>)
    ensures r.None? <==> readFails || LoadedFields(db.entries).None?
    ensures r.Some? ==> fresh(r.value) && Some(r.value.Fields()) == LoadedFields(db.entries)
  {
    if readFails || AUTH_KEY !in db.entries {
      return None;
    }
    match db.entries[AUTH_KEY]
    case BitbucketAuthEntry(f) =>
      var info := new BitbucketAuthInfo.AuthInfo(f.accessToken, f.refreshToken, f.expiresIn, f.timestamp);
      r := Some(info);
    case _ =>
      r := None;
  }

  /** Load after a save reads back the saved credential, timestamp included,
      whatever the key held before. */
  lemma LoadAfterSave(entries: map<string, StoredValue>, saved: BitbucketAuthInfo.AuthFields)
    ensures LoadedFields(entries[AUTH_KEY := BitbucketAuthEntry(saved)]) == Some(saved)
  {
  }
}
