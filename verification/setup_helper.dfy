/**
 * `setUpProject`: the project configuration written into the first
 * workspace folder, and the optional `.gitignore` update that follows it.
 * The workspace is a class whose fields are the folder's files: the
 * project configuration file (already read as YAML) and the text files.
 */
module SetupHelper {
  import opened Common
  import opened PosixPath
  import opened Config

  const ConfigFileName := ".onboardbase.yaml"
  const GitIgnoreFileName := ".gitignore"

  /**
   * `{setup: {project, environment: pickedEnv}}` as YAML writes it: a
   * value that is `undefined` (a dismissed pick) leaves its key out.
   */
  function SetupRecord(project: Option<string>, pickedEnv: Option<string>): (f: ProjectFile)
    ensures f.setup.Some?
    ensures f.setup.value.Keys <= {"project", "environment"}
    ensures Field(f.setup.value, "project") == OptStr(project)
    ensures Field(f.setup.value, "environment") == OptStr(pickedEnv)
  {
    ProjectFile(Some(SetField(SetField(map[], "project", OptStr(project)), "environment", OptStr(pickedEnv))))
  }

  /** `posix.join(folderUri.path, '.onboardbase.yaml')`. */
  function ConfigPath(folder: string): string
  {
    Join(folder, ConfigFileName)
  }

  /** `posix.join(folderUri.path, '.gitignore')`. */
  function GitIgnorePath(folder: string): string
  {
    Join(folder, GitIgnoreFileName)
  }

  /** `posix.parse(configFile.path).base` is `.onboardbase.yaml` whatever the folder. */
  lemma ConfigBaseName(folder: string)
    ensures Basename(ConfigPath(folder)) == ConfigFileName
  {
    assert Plain(ConfigFileName);
    JoinBasename(folder, ConfigFileName);
  }

  /** The configuration file and the `.gitignore` file are different files. */
  lemma ConfigIsNotGitIgnore(folder: string)
    ensures ConfigPath(folder) != GitIgnorePath(folder)
  {
    ConfigBaseName(folder);
    assert Plain(GitIgnoreFileName);
    JoinBasename(folder, GitIgnoreFileName);
  }

  /** The `.gitignore` text after the update: the base name is appended on a new line unless it occurs anywhere already. */
  function UpdateGitIgnore(content: string, baseFile: string): string
  {
    if Contains(content, baseFile) then content else content + "\n" + baseFile
  }

  /**
   * The update keeps the old text as a prefix, leaves a text that already
   * mentions the name unchanged, and afterwards the text mentions the name.
   */
  lemma UpdateGitIgnoreContains(content: string, baseFile: string)
    ensures Contains(UpdateGitIgnore(content, baseFile), baseFile)
    ensures Contains(content, baseFile) <==> UpdateGitIgnore(content, baseFile) == content
    ensures |content| <= |UpdateGitIgnore(content, baseFile)| && UpdateGitIgnore(content, baseFile)[..|content|] == content
  {
    if !Contains(content, baseFile) {
      ContainsSuffix(content + "\n", baseFile);
      var r := content + "\n" + baseFile;
      assert r[..|content|] == content;
      assert r != content by { assert |r| > |content|; }
    }
  }

  /** A second update changes nothing. */
  lemma UpdateGitIgnoreIdempotent(content: string, baseFile: string)
    ensures UpdateGitIgnore(UpdateGitIgnore(content, baseFile), baseFile) == UpdateGitIgnore(content, baseFile)
  {
    UpdateGitIgnoreContains(content, baseFile);
  }

  /**
   * Reading back what was written: when `init` merges a project file
   * holding this record, the store's `project` and `environment` are the
   * chosen ones, whatever the scope said, and every other field is kept.
   */
  lemma RecordReadByInit(store: Fields, scope: Option<Fields>, project: string, pickedEnv: string)
    ensures var s := MergeStore(store, scope, Some(SetupRecord(Some(project), Some(pickedEnv))));
      Field(s, "project") == Str(project) && Field(s, "environment") == Str(pickedEnv) &&
      forall k :: k != "project" && k != "environment" ==>
        Field(s, k) == (if scope.Some? && k in scope.value then scope.value[k] else Field(store, k))
  {
    var record := SetupRecord(Some(project), Some(pickedEnv));
    forall k | true
      ensures Field(MergeStore(store, scope, Some(record)), k)
        == if k in record.setup.value then record.setup.value[k]
           else if scope.Some? && k in scope.value then scope.value[k] else Field(store, k)
    {
      MergeStoreFields(store, scope, Some(record), k);
    }
  }

  /** The first workspace folder: its project configuration files and its text files, by path. */
  class Workspace {
    const folder: string
    var configs: map<string, ProjectFile>
    var texts: map<string, string>

    constructor (folder: string, configs: map<string, ProjectFile>, texts: map<string, string>)
      ensures this.folder == folder && this.configs == configs && this.texts == texts
    {
      this.folder := folder;
      this.configs := configs;
      this.texts := texts;
    }

    /**
     * The file part of `setUpProject`: the record is written (replacing
     * any earlier one); then, when a `.gitignore` exists and the user
     * answered "Yes", it is updated. `answer` is what the quick pick
     * returned (`None` when it was dismissed).
     */
    method SetUpProject(project: Option<string>, pickedEnv: Option<string>, answer: Option<string>)
      modifies this
      ensures configs == old(configs)[ConfigPath(folder) := SetupRecord(project, pickedEnv)]
      ensures var gitIgnore := GitIgnorePath(folder);
        texts == if gitIgnore in old(texts) && answer == Some("Yes")
          then old(texts)[gitIgnore := UpdateGitIgnore(old(texts)[gitIgnore], ConfigFileName)]
          else old(texts)
    {
      var configFile := ConfigPath(folder);
      ConfigBaseName(folder);
      var baseFile := Basename(configFile);
      configs := configs[configFile := SetupRecord(project, pickedEnv)];

      var gitIgnoreFile := GitIgnorePath(folder);
      if gitIgnoreFile in texts {
        if answer == Some("Yes") {
          var gitIgnoreFileContent := texts[gitIgnoreFile];
          if !Contains(gitIgnoreFileContent, baseFile) {
            gitIgnoreFileContent := gitIgnoreFileContent + "\n" + baseFile;
            texts := texts[gitIgnoreFile := gitIgnoreFileContent];
          }
        }
      }
    }
  }

  /**
   * Running the set-up twice with "Yes" leaves the same `.gitignore` as
   * running it once: the name is never listed twice by this command.
   */
  method SetUpTwice(w: Workspace, project: Option<string>, pickedEnv: Option<string>)
    requires GitIgnorePath(w.folder) in w.texts
    modifies w
    ensures GitIgnorePath(w.folder) in w.texts
    ensures w.texts[GitIgnorePath(w.folder)] == UpdateGitIgnore(old(w.texts)[GitIgnorePath(w.folder)], ConfigFileName)
    ensures Contains(w.texts[GitIgnorePath(w.folder)], ConfigFileName)
  {
    w.SetUpProject(project, pickedEnv, Some("Yes"));
    w.SetUpProject(project, pickedEnv, Some("Yes"));
    UpdateGitIgnoreIdempotent(old(w.texts)[GitIgnorePath(w.folder)], ConfigFileName);
    UpdateGitIgnoreContains(old(w.texts)[GitIgnorePath(w.folder)], ConfigFileName);
  }
}
