/** Records the onboarding code passes around whose own source files
    (utils/bitbucket_webhook.rs, utils/pr_info.rs, utils/github_auth_info.rs,
    utils/review.rs, utils/hunk.rs, utils/setup_info.rs and the Bitbucket
    workspace type) are not part of this model: only the fields the core
    reads or writes are kept. */
module Entities {
  import opened Wrappers
  import Json

  /** The `Display` names of ProviderEnum. */
  const GITHUB: string := "github"
  const BITBUCKET: string := "bitbucket"

  /** A webhook as the code stores it. */
  datatype Webhook = Webhook(
    uuid: string,
    active: bool,
    createdAt: string,
    events: seq<string>,
    selfHref: string,
    url: string)

  /** The four fields a pull request's detail is projected onto. */
  datatype PrInfo = PrInfo(
    baseHeadCommit: string,
    prHeadCommit: string,
    state: string,
    prBranch: string)

  /** A GitHub installation access token as the provider returns it. */
  datatype GithubAuthInfo = GithubAuthInfo(
    token: string,
    expiresAt: string,
    installationId: Option<string>)

  /** The part of a review the hunk store and token dispatch read. */
  datatype Review = Review(
    dbKey: string,
    baseHeadCommit: string,
    prHeadCommit: string,
    provider: string)

  /** A hunk map is stored and read back whole; its shape does not matter
      here, so it is carried as its JSON form. */
  datatype HunkMap = HunkMap(json: Json.Value)

  datatype Workspace = Workspace(slug: string, uuid: string)

  /** One entry of the onboarding summary sent upstream. */
  datatype SetupInfo = SetupInfo(provider: string, owner: string, repos: seq<string>)
}
