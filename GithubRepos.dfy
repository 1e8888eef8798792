/** github/repos.rs: the repositories a GitHub App installation can see.
    The paginated listing call is a parameter (its `values`). */
module GithubRepos {
  import opened Wrappers
  import opened Entities
  import opened Json
  import opened Repo

  /** `v.to_string().trim_matches('"')` */
  function Unquoted(v: Value): string
  {
    TrimMatches(Render(v), '\"')
  }

  /** A string member comes back as written (when serde_json renders it
      without escapes), a non-negative number as its decimal digits. */
  lemma UnquotedFaithful(v: Value)
    ensures v.Str? && Plain(v.s) ==> Unquoted(v) == v.s
    ensures v.Number? && v.n >= 0 ==> Unquoted(v) == NatDigits(v.n) && DigitsValue(Unquoted(v)) == v.n
  {
    if v.Str? && Plain(v.s) {
      StripRenderedPlain(v.s);
    }
    if v.Number? && v.n >= 0 {
      var d := NatDigits(v.n);
      NatDigitsShape(v.n);
      DigitsRoundTrip(v.n);
      TrimUntouched(d, '\"');
    }
  }

  /** `private` as a boolean, true when it is missing or not a boolean. */
  function PrivateFlag(v: Value): (r: bool)
    ensures v.Bool? ==> r == v.b
    ensures !v.Bool? ==> r
  {
    if AsBool(v).Some? then AsBool(v).value else true
  }

  /** The constant fields of a repository. */
  datatype RepoFields = RepoFields(
    name: string,
    uuid: string,
    owner: string,
    isPrivate: bool,
    cloneSshUrl: string,
    projectName: Option<string>,
    projectType: Option<string>,
    workspace: string,
    provider: string)

  function FieldsOf(repo: Repository): RepoFields
  {
    RepoFields(repo.name, repo.uuid, repo.owner, repo.isPrivate, repo.cloneSshUrl,
               repo.projectName, repo.projectType, repo.workspace, repo.provider)
  }

  /** The fields of the repository built from one entry: a GitHub
      repository whose workspace is its owner's login, with no project. */
  function ExpectedFields(v: Value): (f: RepoFields)
    ensures f.workspace == f.owner && f.provider == GITHUB
    ensures f.projectName.None? && f.projectType.None?
  {
    var login := Unquoted(Get(Get(v, "owner"), "login"));
    RepoFields(Unquoted(Get(v, "name")), Unquoted(Get(v, "id")), login, PrivateFlag(Get(v, "private")),
               Unquoted(Get(v, "ssh_url")), None, None, login, GITHUB)
  }

  /** The body of the loop of `get_github_app_installed_repos`: one new
      repository from one entry. */
  method RepoFromJson(v: Value) returns (repo: Repository)
    ensures fresh(repo)
    ensures FieldsOf(repo) == ExpectedFields(v) && repo.localDir.None?
  {
    var isPrivate := true;
    if AsBool(Get(v, "private")).Some? {
      isPrivate := AsBool(Get(v, "private")).value;
    }
    var login := Unquoted(Get(Get(v, "owner"), "login"));
    repo := new Repository(
      Unquoted(Get(v, "name")),
      Unquoted(Get(v, "id")),
      login,
      isPrivate,
      Unquoted(Get(v, "ssh_url")),
      None,
      None,
      login,
      None,
      GITHUB);
  }

  /** The repositories built so far: one per wanted set of fields, in
      order, none with a local directory, no two the same object. */
  predicate BuiltFrom(repos: seq<Repository>, want: seq<RepoFields>)
    reads set k | 0 <= k < |repos| :: repos[k]
  {
    |repos| <= |want| &&
    (forall k :: 0 <= k < |repos| ==> FieldsOf(repos[k]) == want[k] && repos[k].localDir.None?) &&
    (forall k, l :: 0 <= k < l < |repos| ==> repos[k] != repos[l])
  }

  /** One turn of the loop of `get_github_app_installed_repos`. */
  lemma AppendRepo(repos: seq<Repository>, repo: Repository, want: seq<RepoFields>)
    requires BuiltFrom(repos, want) && |repos| < |want|
    requires FieldsOf(repo) == want[|repos|] && repo.localDir.None? && repo !in repos
    ensures BuiltFrom(repos + [repo], want)
  {
  }

  /** `get_github_app_installed_repos`: always Some, one distinct repository per
      entry, in order, none with a local directory yet. */
  method GetGithubAppInstalledRepos(values: seq<Value>) returns (r: Option<seq<Repository>>)
    ensures r.Some? && |r.value| == |values|
    ensures forall i :: 0 <= i < |values| ==> FieldsOf(r.value[i]) == ExpectedFields(values[i]) && r.value[i].localDir.None?
    ensures forall i, j :: 0 <= i < j < |values| ==> r.value[i] != r.value[j]
  {
    ghost var want := seq(|values|, k requires 0 <= k < |values| => ExpectedFields(values[k]));
    var repos: seq<Repository> := [];
    while |repos| < |values|
      invariant BuiltFrom(repos, want)
      decreases |values| - |repos|
    {
      var repo := RepoFromJson(values[|repos|]);
      AppendRepo(repos, repo, want);
      repos := repos + [repo];
    }
    r := Some(repos);
  }
}
