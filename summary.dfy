/** GET /api/status: one entry per registered repository, in registry
    order, each built from a one-run request whose failure is caught and
    reported in that entry alone. */
module Summary {
  import opened Js
  import opened Registry
  import opened Upstream
  import Detail

  /** An element of the response array: `{}` for an unknown platform, a
      status entry, or an entry whose status is "error". */
  datatype Entry =
    | EmptyEntry
    | StatusEntry(id: string, platform: string, owner: string, name: string, status: string, timestamp: JsString)
    | ErrorEntry(id: string, platform: string, owner: string, name: string, error: string)
  {
    /** The entry's JSON `status` field; `{}` has none. */
    function StatusField(): JsString {
      match this
      case EmptyEntry => None
      case StatusEntry(_, _, _, _, status, _) => Some(status)
      case ErrorEntry(_, _, _, _, _) => Some("error")
    }
  }

  /** `latest?.conclusion || latest?.status || 'unknown'` */
  function GitHubLatestStatus(latest: Option<GitHubRun>): (s: string)
    ensures s != ""
    ensures latest.Some? && Truthy(latest.value.conclusion) ==> s == latest.value.conclusion.value
    ensures latest.Some? && !Truthy(latest.value.conclusion) && Truthy(latest.value.status) ==> s == latest.value.status.value
    ensures latest.None? || (!Truthy(latest.value.conclusion) && !Truthy(latest.value.status)) ==> s == "unknown"
  {
    match latest
    case None => "unknown"
    case Some(r) => OrElse(Or(r.conclusion, r.status), "unknown")
  }

  /** `latest?.status || 'unknown'` */
  function GitLabLatestStatus(latest: Option<GitLabPipeline>): (s: string)
    ensures s != ""
    ensures latest.Some? && Truthy(latest.value.status) ==> s == latest.value.status.value
    ensures latest.None? || !Truthy(latest.value.status) ==> s == "unknown"
  {
    match latest
    case None => "unknown"
    case Some(p) => OrElse(p.status, "unknown")
  }

  /** `xs?.[0]` on a possibly missing array. */
  function First<T>(xs: Option<seq<T>>): (x: Option<T>)
    ensures x.Some? <==> xs.Some? && xs.value != []
    ensures x.Some? ==> x.value == xs.value[0]
  {
    if xs.Some? && xs.value != [] then Some(xs.value[0]) else None
  }

  /** `latest?.updated_at` */
  function LatestUpdatedAt<T>(latest: Option<T>, updatedAt: T -> JsString): (t: JsString)
    ensures latest.None? ==> t.None?
    ensures latest.Some? ==> t == updatedAt(latest.value)
  {
    if latest.Some? then updatedAt(latest.value) else None
  }

  function GitHubUpdatedAt(r: GitHubRun): JsString { r.updatedAt }
  function GitLabUpdatedAt(p: GitLabPipeline): JsString { p.updatedAt }

  /** The entry for one repository: the try block and its catch. */
  function EntryFor(repo: RepoConfig, up: Upstream): (e: Entry)
    ensures e.EmptyEntry? <==> repo.platform !in {"github", "gitlab"}
    ensures !e.EmptyEntry? ==>
      e.id == repo.id && e.platform == repo.platform && e.owner == repo.owner && e.name == repo.name
    ensures e.ErrorEntry? <==>
      (repo.platform == "github" && up.github(repo, SummaryPageSize).Threw?) ||
      (repo.platform == "gitlab" && up.gitlab(repo, SummaryPageSize).Threw?)
    ensures e.ErrorEntry? && repo.platform == "github" ==> e.error == ErrorText(up.github(repo, SummaryPageSize).error)
    ensures e.ErrorEntry? && repo.platform == "gitlab" ==> e.error == ErrorText(up.gitlab(repo, SummaryPageSize).error)
    ensures e.StatusEntry? ==> e.status != ""
    ensures e.StatusEntry? && repo.platform == "github" ==>
      var latest := First(up.github(repo, SummaryPageSize).body.workflowRuns);
      e.status == GitHubLatestStatus(latest) && e.timestamp == LatestUpdatedAt(latest, GitHubUpdatedAt)
    ensures e.StatusEntry? && repo.platform == "gitlab" ==>
      var latest := First(up.gitlab(repo, SummaryPageSize).body.pipelines);
      e.status == GitLabLatestStatus(latest) && e.timestamp == LatestUpdatedAt(latest, GitLabUpdatedAt)
  {
    if repo.platform == "github" then
      match up.github(repo, SummaryPageSize)
      case Threw(err) => ErrorEntry(repo.id, repo.platform, repo.owner, repo.name, ErrorText(err))
      case Fetched(body) =>
        var latest := First(body.workflowRuns);
        StatusEntry(repo.id, repo.platform, repo.owner, repo.name, GitHubLatestStatus(latest),
          LatestUpdatedAt(latest, GitHubUpdatedAt))
    else if repo.platform == "gitlab" then
      match up.gitlab(repo, SummaryPageSize)
      case Threw(err) => ErrorEntry(repo.id, repo.platform, repo.owner, repo.name, ErrorText(err))
      case Fetched(body) =>
        var latest := First(body.pipelines);
        StatusEntry(repo.id, repo.platform, repo.owner, repo.name, GitLabLatestStatus(latest),
          LatestUpdatedAt(latest, GitLabUpdatedAt))
    else
      EmptyEntry
  }

  /** `Promise.all(repos.map(...))`: never fails as a whole; entry `i`
      belongs to `repos[i]` and is built from the request made for that
      position, answered by `at(i)`. Each position issues its own request,
      so two identical records can get different answers. */
  function AllStatuses(repos: seq<RepoConfig>, at: nat -> Upstream): (out: seq<Entry>)
    ensures |out| == |repos|
    ensures forall i :: 0 <= i < |repos| && !out[i].EmptyEntry? ==>
      out[i].id == repos[i].id && out[i].platform == repos[i].platform &&
      out[i].owner == repos[i].owner && out[i].name == repos[i].name
    ensures forall i :: 0 <= i < |repos| ==> out[i] == EntryFor(repos[i], at(i))
  {
    var out := seq(|repos|, i requires 0 <= i < |repos| => EntryFor(repos[i], at(i)));
    assert forall i :: 0 <= i < |repos| ==> out[i] == EntryFor(repos[i], at(i));
    out
  }

  /** Entry `i` depends only on the answer to the request made for it. */
  lemma EntryIsolated(repos: seq<RepoConfig>, u: nat -> Upstream, v: nat -> Upstream, i: int)
    requires 0 <= i < |repos|
    requires SameAnswer(u(i), v(i), repos[i], SummaryPageSize)
    ensures AllStatuses(repos, u)[i] == AllStatuses(repos, v)[i]
  {
  }

  /** Services on which every request throws `err`. */
  function Failing(err: Thrown): (v: Upstream)
    ensures forall r, n :: v.github(r, n) == Threw(err) && v.gitlab(r, n) == Threw(err)
  {
    Upstream((r: RepoConfig, n: nat) => Threw(err), (r: RepoConfig, n: nat) => Threw(err))
  }

  /** The same answers, except that the request made for position `j` throws. */
  function FailAt(at: nat -> Upstream, j: nat, err: Thrown): (f: nat -> Upstream)
    ensures forall i :: i != j ==> f(i) == at(i)
    ensures f(j) == Failing(err)
  {
    (i: nat) => if i == j then Failing(err) else at(i)
  }

  /** One request failing turns its own entry into an error entry with the
      thrown message and leaves every other entry as it was, duplicates of
      the same record included. */
  lemma FailureContained(repos: seq<RepoConfig>, at: nat -> Upstream, j: nat, err: Thrown)
    requires j < |repos|
    ensures var before, after := AllStatuses(repos, at), AllStatuses(repos, FailAt(at, j, err));
      |after| == |before| &&
      (forall i :: 0 <= i < |repos| && i != j ==> after[i] == before[i]) &&
      (repos[j].platform in {"github", "gitlab"} ==>
        after[j] == ErrorEntry(repos[j].id, repos[j].platform, repos[j].owner, repos[j].name, ErrorText(err)))
  {
    var f := FailAt(at, j, err);
    forall i | 0 <= i < |repos| && i != j
      ensures AllStatuses(repos, f)[i] == AllStatuses(repos, at)[i]
    {
      EntryIsolated(repos, at, f, i);
    }
  }

  /** A request that fails cannot hide a sibling: with one failing and one
      answering request, exactly the failing one reports "error", even
      when both positions hold the same record. */
  lemma OneFailsOneSucceeds(a: RepoConfig, b: RepoConfig, at: nat -> Upstream, msg: string, body: GitHubBody)
    requires a.platform == "github" && b.platform == "github"
    requires at(0).github(a, SummaryPageSize) == Threw(ErrorObject(msg))
    requires at(1).github(b, SummaryPageSize) == Fetched(body)
    ensures var out := AllStatuses([a, b], at);
      |out| == 2 && out[0] == ErrorEntry(a.id, a.platform, a.owner, a.name, msg) &&
      out[1].StatusEntry? && out[1].id == b.id
  {
  }

  /** The summary and the detailed view agree on the latest GitHub run:
      the summary shows the detail's `lastRun.status`, or "unknown" when
      there is no run or that status is falsy. */
  lemma GitHubSummaryMatchesDetail(runs: seq<GitHubRun>)
    ensures var d := Detail.GitHubStatus(GitHubBody(Some(runs)));
      GitHubLatestStatus(First(Some(runs))) == (if d.lastRun.None? then "unknown" else OrElse(d.lastRun.value.status, "unknown"))
  {
  }

  /** Likewise for GitLab pipelines. */
  lemma GitLabSummaryMatchesDetail(pipelines: seq<GitLabPipeline>)
    ensures var d := Detail.GitLabStatus(GitLabBody(Some(pipelines)));
      GitLabLatestStatus(First(Some(pipelines))) == (if d.lastRun.None? then "unknown" else OrElse(d.lastRun.value.status, "unknown"))
  {
  }
}
