/** utils/bitbucket_auth_info.rs: the Bitbucket OAuth credential. Only the
    timestamp has a setter, so the other fields are `const`. */
module BitbucketAuthInfo {
  import opened Wrappers

  /** The serialised form of a credential, as it sits in the store. */
  datatype AuthFields = AuthFields(
    accessToken: string,
    refreshToken: string,
    expiresIn: U64,
    timestamp: Option<U64>)

  class AuthInfo {
    const accessToken: string
    const refreshToken: string
    const expiresIn: U64
    var timestamp: Option<U64>

    constructor (accessToken: string, refreshToken: string, expiresIn: U64, timestamp: Option<U64>)
      ensures this.accessToken == accessToken && this.refreshToken == refreshToken
      ensures this.expiresIn == expiresIn && this.timestamp == timestamp
    {
      this.accessToken := accessToken;
      this.refreshToken := refreshToken;
      this.expiresIn := expiresIn;
      this.timestamp := timestamp;
    }

    /** `timestamp()` */
    function Timestamp(): (t: Option<U64>)
      reads this
      ensures t == timestamp
    {
      timestamp
    }

    /** What serde writes for this credential. */
    function Fields(): (f: AuthFields)
      reads this
      ensures f.accessToken == accessToken && f.refreshToken == refreshToken
      ensures f.expiresIn == expiresIn && f.timestamp == timestamp
    {
      AuthFields(accessToken, refreshToken, expiresIn, timestamp)
    }

    /** `set_timestamp`: the token fields and `expires_in` are constant. */
    method SetTimestamp(t: U64)
      modifies this
      ensures Timestamp() == Some(t)
    {
      timestamp := Some(t);
    }
  }
}
