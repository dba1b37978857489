/** The dashboard page's mapping from a status string to the colour class
    of a repository card. */
module Client {
  import opened Js
  import opened Upstream
  import opened Summary

  datatype Bucket = Pass | Fail | Running | Unknown

  /** `statusClass`: "success" passes, "failure" (GitHub) and "failed"
      (GitLab) fail, "running" and "pending" run, anything else, a missing
      status included, is unknown. */
  function StatusClass(s: JsString): (b: Bucket)
    ensures b == Pass <==> s == Some("success")
    ensures b == Fail <==> s == Some("failure") || s == Some("failed")
    ensures b == Running <==> s == Some("running") || s == Some("pending")
    ensures b == Unknown <==> s.None? || s.value !in {"success", "failure", "failed", "running", "pending"}
  {
    if s == Some("success") then Pass
    else if s == Some("failure") || s == Some("failed") then Fail
    else if s == Some("running") || s == Some("pending") then Running
    else Unknown
  }

  /** The bucket a card shows for a summary entry. */
  function EntryBucket(e: Entry): (b: Bucket)
    ensures e.ErrorEntry? || e.EmptyEntry? ==> b == Unknown
    ensures e.StatusEntry? ==> b == StatusClass(Some(e.status))
  {
    StatusClass(e.StatusField())
  }

  /** A repository whose request failed, or whose latest run has no usable
      status, shows as unknown, never as passing or failing. */
  lemma ErrorsAndUnknownsShowUnknown(e: Entry)
    requires e.ErrorEntry? || e.EmptyEntry? || (e.StatusEntry? && e.status == "unknown")
    ensures EntryBucket(e) == Unknown
  {
  }

  /** The card colour of a GitHub repository follows the conclusion of its
      latest run when there is one: "success" passes, "failure" fails. A
      run still in progress has no conclusion and GitHub reports its status
      as "in_progress", which the page shows as unknown, not running. */
  lemma GitHubConclusionDecides(repo: Registry.RepoConfig, up: Upstream, r: GitHubRun, rest: seq<GitHubRun>)
    requires repo.platform == "github"
    requires up.github(repo, SummaryPageSize) == Fetched(GitHubBody(Some([r] + rest)))
    ensures r.conclusion == Some("success") ==> EntryBucket(EntryFor(repo, up)) == Pass
    ensures r.conclusion == Some("failure") ==> EntryBucket(EntryFor(repo, up)) == Fail
    ensures !Truthy(r.conclusion) && r.status == Some("in_progress") ==> EntryBucket(EntryFor(repo, up)) == Unknown
  {
  }
}
