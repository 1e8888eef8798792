/** utils/repo.rs: the Repository record. Its getters return fields that
    nothing but `set_local_dir` ever changes, so every field except
    `localDir` is a `const` and the getters are the fields themselves. */
module Repo {
  import opened Wrappers

  class Repository {
    const name: string
    const uuid: string
    const owner: string
    const isPrivate: bool
    const cloneSshUrl: string
    const projectName: Option<string>
    const projectType: Option<string>
    const workspace: string
    var localDir: Option<string>
    const provider: string

    constructor (
      name: string,
      uuid: string,
      owner: string,
      isPrivate: bool,
      cloneSshUrl: string,
      projectName: Option<string>,
      projectType: Option<string>,
      workspace: string,
      localDir: Option<string>,
      provider: string)
      ensures this.name == name && this.uuid == uuid && this.owner == owner
      ensures this.isPrivate == isPrivate && this.cloneSshUrl == cloneSshUrl
      ensures this.projectName == projectName && this.projectType == projectType
      ensures this.workspace == workspace && this.localDir == localDir
      ensures this.provider == provider
    {
      this.name := name;
      this.uuid := uuid;
      this.owner := owner;
      this.isPrivate := isPrivate;
      this.cloneSshUrl := cloneSshUrl;
      this.projectName := projectName;
      this.projectType := projectType;
      this.workspace := workspace;
      this.localDir := localDir;
      this.provider := provider;
    }

    /** `local_dir()` */
    function LocalDir(): (d: Option<string>)
      reads this
      ensures d == localDir
    {
      localDir
    }

    /** `set_local_dir`: only `localDir` changes (every other field is
        constant). */
    method SetLocalDir(dir: string)
      modifies this
      ensures LocalDir() == Some(dir)
    {
      localDir := Some(dir);
    }
  }
}
