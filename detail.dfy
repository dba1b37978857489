/** GET /api/repos/:id/status: look the repository up, fetch its ten most
    recent runs (GitHub) or pipelines (GitLab), and normalise them into
    the dashboard's status object. */
module Detail {
  import opened Js
  import opened Seqs
  import opened Registry
  import opened Upstream

  /** How many runs the `runs` history keeps: `slice(0, 5)`. */
  const HistoryLength: nat := 5

  /** A run as the dashboard shows it (the `lastRun` object). */
  datatype RunView = RunView(id: int, status: JsString, duration: int, timestamp: JsString)

  /** An element of `runs`: the same fields plus the branch. */
  datatype HistoryEntry = HistoryEntry(run: RunView, branch: JsString)

  /** The JSON status object: `{}` for a platform the server does not know,
      otherwise the normalised status. */
  datatype StatusObject =
    | EmptyObject
    | Status(platform: string, lastRun: Option<RunView>, successRate: int, runs: seq<HistoryEntry>)

  /** The error text of the 404 response. */
  const NotFoundText: string := "Repository not found"

  /** The handler's response: 404 or 500 with an error text, or 200 with a
      status object. */
  datatype Response = NotFound(error: string) | Ok(status: StatusObject) | ServerError(error: string)

  /** `Math.round(100 * successes / total)`, or 0 when nothing was fetched:
      the integer nearest to the percentage, halves rounded up. */
  function SuccessRate(successes: nat, total: nat): (rate: nat)
    ensures total == 0 ==> rate == 0
    ensures total > 0 ==> (2 * rate - 1) * total <= 200 * successes < (2 * rate + 1) * total
    ensures successes <= total ==> rate <= 100
  {
    if total == 0 then 0
    else
      RoundHalfUp(successes, total);
      (200 * successes + total) / (2 * total)
  }

  /** The integer division behind `SuccessRate` rounds to nearest. */
  lemma RoundHalfUp(successes: nat, total: nat)
    requires total > 0
    ensures var q := (200 * successes + total) / (2 * total);
      (2 * q - 1) * total <= 200 * successes < (2 * q + 1) * total &&
      (successes <= total ==> q <= 100)
  {
    var x, d := 200 * successes + total, 2 * total;
    var q, r := x / d, x % d;
    assert x == d * q + r && 0 <= r < d;
    assert d * q == 2 * q * total;
    assert (2 * q - 1) * total == 2 * q * total - total;
    assert (2 * q + 1) * total == 2 * q * total + total;
    if successes <= total && q > 100 {
      MulMonotone(101, q, d);
      assert false;
    }
  }

  /** The rounding is the only integer within half a point of the exact
      percentage (halves going up). */
  lemma SuccessRateUnique(successes: nat, total: nat, k: int)
    requires total > 0
    requires (2 * k - 1) * total <= 200 * successes < (2 * k + 1) * total
    ensures k == SuccessRate(successes, total)
  {
    var rate := SuccessRate(successes, total);
    var p := 200 * successes;
    assert (2 * rate - 1) * total <= p < (2 * rate + 1) * total;
    if k > rate {
      MulMonotone(2 * rate + 1, 2 * k - 1, total);
      assert false;
    } else if k < rate {
      MulMonotone(2 * k + 1, 2 * rate - 1, total);
      assert false;
    }
  }

  lemma MulMonotone(a: int, b: int, n: nat)
    requires a <= b
    ensures a * n <= b * n
  {
  }

  /** The shared normalisation: `lastRun` from element 0, the success rate
      over every fetched element, and the first five as history, each
      element mapped by `view` and `branch`. */
  function Normalize<R>(platform: string, fetched: seq<R>, view: R -> RunView, branch: R -> JsString, succeeded: R -> bool): (s: StatusObject)
    ensures s.Status? && s.platform == platform
    ensures s.lastRun.None? <==> fetched == []
    ensures fetched != [] ==> s.lastRun == Some(view(fetched[0]))
    ensures 0 <= s.successRate <= 100
    ensures s.successRate == SuccessRate(Count(fetched, succeeded), |fetched|)
    ensures |s.runs| == Min(|fetched|, HistoryLength)
    ensures forall i :: 0 <= i < |s.runs| ==> s.runs[i] == HistoryEntry(view(fetched[i]), branch(fetched[i]))
  {
    var recent := fetched[..Min(|fetched|, HistoryLength)];
    Status(
      platform,
      if fetched == [] then None else Some(view(fetched[0])),
      SuccessRate(Count(fetched, succeeded), |fetched|),
      seq(|recent|, i requires 0 <= i < |recent| => HistoryEntry(view(recent[i]), branch(recent[i]))))
  }

  /** A GitHub run as shown: its `conclusion` when truthy, else its `status`. */
  function GitHubView(r: GitHubRun): (v: RunView)
    ensures v.id == r.id && v.timestamp == r.updatedAt
    ensures Truthy(r.conclusion) ==> v.status == r.conclusion
    ensures !Truthy(r.conclusion) ==> v.status == r.status
    ensures v.duration == Seconds(r.startedMillis, r.updatedMillis)
  {
    RunView(r.id, Or(r.conclusion, r.status), Seconds(r.startedMillis, r.updatedMillis), r.updatedAt)
  }

  function GitHubBranch(r: GitHubRun): JsString { r.headBranch }

  /** A GitHub run counts as a success when its conclusion is "success". */
  predicate GitHubSucceeded(r: GitHubRun)
    ensures GitHubSucceeded(r) ==> GitHubView(r).status == Some("success")
  {
    r.conclusion == Some("success")
  }

  /** A GitLab pipeline as shown: its own `status`. */
  function GitLabView(p: GitLabPipeline): (v: RunView)
    ensures v.id == p.id && v.status == p.status && v.timestamp == p.updatedAt
    ensures v.duration == Seconds(p.createdMillis, p.updatedMillis)
  {
    RunView(p.id, p.status, Seconds(p.createdMillis, p.updatedMillis), p.updatedAt)
  }

  function GitLabBranch(p: GitLabPipeline): JsString { p.gitRef }

  /** A GitLab pipeline counts as a success when its status is "success". */
  predicate GitLabSucceeded(p: GitLabPipeline)
    ensures GitLabSucceeded(p) <==> GitLabView(p).status == Some("success")
  {
    p.status == Some("success")
  }

  /** The GitHub branch of the handler, after `workflow_runs || []`. */
  function GitHubStatus(body: GitHubBody): (s: StatusObject)
    ensures s.Status? && s.platform == "github"
    ensures s.lastRun.None? <==> body.workflowRuns.None? || body.workflowRuns.value == []
    ensures body.workflowRuns.None? ==> s.successRate == 0 && s.runs == []
  {
    Normalize("github", body.workflowRuns.GetOr([]), GitHubView, GitHubBranch, GitHubSucceeded)
  }

  /** The GitLab branch of the handler, after `response.data || []`. */
  function GitLabStatus(body: GitLabBody): (s: StatusObject)
    ensures s.Status? && s.platform == "gitlab"
    ensures s.lastRun.None? <==> body.pipelines.None? || body.pipelines.value == []
    ensures body.pipelines.None? ==> s.successRate == 0 && s.runs == []
  {
    Normalize("gitlab", body.pipelines.GetOr([]), GitLabView, GitLabBranch, GitLabSucceeded)
  }

  /** The handler for one repository: 404 when no record has the id; for a
      github or gitlab record, the normalised answer to a ten-run request
      or a 500 carrying what the request threw; `{}` for any other platform. */
  function GetStatus(repos: seq<RepoConfig>, id: string, up: Upstream): (resp: Response)
    ensures resp.NotFound? <==> forall i :: 0 <= i < |repos| ==> repos[i].id != id
    ensures resp.NotFound? ==> resp.error == NotFoundText
    ensures resp.ServerError? ==> exists i :: 0 <= i < |repos| && repos[i].id == id
    ensures resp.Ok? && resp.status.Status? ==> resp.status.platform in {"github", "gitlab"}
  {
    match FindFirst(repos, id)
    case None => NotFound(NotFoundText)
    case Some(repo) =>
      if repo.platform == "github" then
        match up.github(repo, DetailPageSize)
        case Threw(e) => ServerError(ErrorText(e))
        case Fetched(body) => Ok(GitHubStatus(body))
      else if repo.platform == "gitlab" then
        match up.gitlab(repo, DetailPageSize)
        case Threw(e) => ServerError(ErrorText(e))
        case Fetched(body) => Ok(GitLabStatus(body))
      else
        Ok(EmptyObject)
  }

  /** A 404 is decided before any request: its outcome does not depend on
      what the services would answer. */
  lemma NotFoundWithoutRequest(repos: seq<RepoConfig>, id: string, u: Upstream, v: Upstream)
    requires forall i :: 0 <= i < |repos| ==> repos[i].id != id
    ensures GetStatus(repos, id, u) == NotFound(NotFoundText) && GetStatus(repos, id, v) == NotFound(NotFoundText)
  {
  }

  /** The response depends only on the first matching record and on what
      the services answer for it at the ten-run page size. */
  lemma StatusDependsOnFirstMatch(repos: seq<RepoConfig>, id: string, u: Upstream, v: Upstream)
    requires FindFirst(repos, id).Some?
    requires SameAnswer(u, v, FindFirst(repos, id).value, DetailPageSize)
    ensures GetStatus(repos, id, u) == GetStatus(repos, id, v)
  {
  }

  /** A record whose platform is neither github nor gitlab yields `{}`
      with status 200, whatever the services would say. */
  lemma UnknownPlatformEmpty(repos: seq<RepoConfig>, id: string, up: Upstream)
    requires FindFirst(repos, id).Some?
    requires FindFirst(repos, id).value.platform !in {"github", "gitlab"}
    ensures GetStatus(repos, id, up) == Ok(EmptyObject)
  {
  }

  /** A request that answers is normalised: the first matching record's
      ten-run answer, with a missing list read as empty. */
  lemma AnswerIsNormalised(repos: seq<RepoConfig>, id: string, up: Upstream)
    requires FindFirst(repos, id).Some?
    ensures var repo := FindFirst(repos, id).value;
      (repo.platform == "github" && up.github(repo, DetailPageSize).Fetched? ==>
        GetStatus(repos, id, up) == Ok(GitHubStatus(up.github(repo, DetailPageSize).body))) &&
      (repo.platform == "gitlab" && up.gitlab(repo, DetailPageSize).Fetched? ==>
        GetStatus(repos, id, up) == Ok(GitLabStatus(up.gitlab(repo, DetailPageSize).body)))
  {
  }

  /** A failing request surfaces as a 500 carrying the thrown message. */
  lemma FailureIsServerError(repos: seq<RepoConfig>, id: string, up: Upstream, e: Thrown)
    requires FindFirst(repos, id).Some?
    requires var repo := FindFirst(repos, id).value;
      (repo.platform == "github" && up.github(repo, DetailPageSize) == Threw(e)) ||
      (repo.platform == "gitlab" && up.gitlab(repo, DetailPageSize) == Threw(e))
    ensures GetStatus(repos, id, up) == ServerError(ErrorText(e))
  {
  }

  /** Registering the same owner/name again changes no status response:
      the earlier record shadows the new one. */
  lemma DuplicateShadowed(repos: seq<RepoConfig>, x: RepoConfig, up: Upstream)
    requires exists i :: 0 <= i < |repos| && repos[i].id == x.id
    ensures GetStatus(repos + [x], x.id, up) == GetStatus(repos, x.id, up)
  {
    AddShadowed(repos, x);
  }

  /** Two successes and one failure give a rate of 67. */
  lemma {:induction false} TwoOfThree(a: GitHubRun, b: GitHubRun, c: GitHubRun)
    requires a.conclusion == Some("success") && b.conclusion == Some("success")
    requires c.conclusion == Some("failure")
    ensures GitHubStatus(GitHubBody(Some([a, b, c]))).successRate == 67
  {
    var runs := [a, b, c];
    assert runs[1..] == [b, c] && runs[1..][1..] == [c] && runs[1..][1..][1..] == [];
    assert Count(runs, GitHubSucceeded) == 2;
  }

  /** No pipelines: rate 0, no last run, empty history. */
  lemma NoPipelines()
    ensures GitLabStatus(GitLabBody(Some([]))) == Status("gitlab", None, 0, [])
  {
  }

  /** Ten fetched runs still give a five-run history: the five most recent. */
  lemma HistoryOfTen(runs: seq<GitHubRun>)
    requires |runs| == 10
    ensures |GitHubStatus(GitHubBody(Some(runs))).runs| == 5
    ensures forall i :: 0 <= i < 5 ==> GitHubStatus(GitHubBody(Some(runs))).runs[i].run.id == runs[i].id
  {
  }
}
