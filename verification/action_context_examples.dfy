/** The branch and workflow names the project's test suite expects. */
module ActionContextExamples {
  import opened Wrappers
  import opened ActionContext

  /** On pull requests the head ref wins over the merge ref name. */
  lemma PullRequestBranch()
    ensures GetBranch(Some("feature-branch"), Some("250/merge")) == "feature-branch"
  {
  }

  /** On pushes the head ref is empty and the ref name is used. */
  lemma PushBranch()
    ensures GetBranch(Some(""), Some("my-feature")) == "my-feature"
  {
  }

  /** With neither variable set the branch is `main`; `"0"` counts as unset. */
  lemma DefaultBranch()
    ensures GetBranch(None, None) == "main"
    ensures GetBranch(Some("0"), Some("0")) == "main"
  {
  }

  /** A workflows directory such as `owner/repo/.github/workflows/`. */
  predicate WorkflowsDir(dir: string) {
    0 < |dir| && dir[|dir| - 1] == '/' && NoAt(dir)
  }

  lemma RefNames()
    ensures NoAt("refs/heads/main") && NoAt("main") && NoAt("tests")
    ensures NoSlash("main", 0, 4) && NoSlash("tests", 0, 5)
  {
  }

  lemma FileNames()
    ensures "main" + ".yml" == "main.yml" && "tests" + ".yaml" == "tests.yaml"
  {
  }

  /** The name of a `.yml` workflow file, in any workflows directory. */
  lemma MainYml(dir: string)
    requires WorkflowsDir(dir)
    ensures GetWorkflowName(Some(dir + "main" + ".yml" + "@" + "refs/heads/main")) == "main.yml"
  {
    RefNames();
    FileNames();
    WorkflowNameOfRef(dir, "main", ".yml", "refs/heads/main");
  }

  /** The name of a `.yaml` workflow file, in any workflows directory. */
  lemma TestsYaml(dir: string)
    requires WorkflowsDir(dir)
    ensures GetWorkflowName(Some(dir + "tests" + ".yaml" + "@" + "refs/heads/main")) == "tests.yaml"
  {
    RefNames();
    FileNames();
    WorkflowNameOfRef(dir, "tests", ".yaml", "refs/heads/main");
  }

  /** `owner/repo/.github/workflows/` is such a directory. */
  lemma OwnerRepoWorkflows()
    ensures WorkflowsDir("owner/repo/.github/workflows/")
  {
  }

  /** An unset workflow ref gives the empty name. */
  lemma UnsetWorkflowRef()
    ensures GetWorkflowName(None) == ""
  {
    assert FindFile("", 0) == None;
  }
}
