/** The two CI services the server polls, reduced to the data it reads.
    The HTTP request itself (URL, headers, query string) is not modelled:
    an `Upstream` is the answer each service would give for a repository
    and a requested page size. */
module Upstream {
  import opened Js
  import opened Registry

  /** Page size the per-repository status handler asks for. */
  const DetailPageSize: nat := 10
  /** Page size the all-repositories summary asks for. */
  const SummaryPageSize: nat := 1

  /** One element of GitHub's `workflow_runs`. `startedMillis` and
      `updatedMillis` are what `new Date(...).getTime()` yields for
      `run_started_at` and `updated_at`. */
  datatype GitHubRun = GitHubRun(
    id: int,
    status: JsString,
    conclusion: JsString,
    updatedAt: JsString,
    headBranch: JsString,
    startedMillis: int,
    updatedMillis: int)

  /** GitHub's response body; `workflow_runs` may be missing. */
  datatype GitHubBody = GitHubBody(workflowRuns: Option<seq<GitHubRun>>)

  /** One GitLab pipeline. `createdMillis` and `updatedMillis` are what
      `new Date(...).getTime()` yields for `created_at` and `updated_at`. */
  datatype GitLabPipeline = GitLabPipeline(
    id: int,
    status: JsString,
    updatedAt: JsString,
    gitRef: JsString,
    createdMillis: int,
    updatedMillis: int)

  /** GitLab's response body: the pipeline array, or a falsy body. */
  datatype GitLabBody = GitLabBody(pipelines: Option<seq<GitLabPipeline>>)

  /** How an awaited request ends: with a response body, or by throwing. */
  datatype Fetch<T> = Fetched(body: T) | Threw(error: Thrown)

  /** What each service answers for a repository and a `per_page` value. */
  datatype Upstream = Upstream(
    github: (RepoConfig, nat) -> Fetch<GitHubBody>,
    gitlab: (RepoConfig, nat) -> Fetch<GitLabBody>)

  /** The services answer alike for one repository at one page size. */
  predicate SameAnswer(u: Upstream, v: Upstream, repo: RepoConfig, perPage: nat) {
    u.github(repo, perPage) == v.github(repo, perPage) &&
    u.gitlab(repo, perPage) == v.gitlab(repo, perPage)
  }

  /** `Math.floor((updated - started) / 1000)`: whole seconds elapsed,
      negative when the timestamps are out of order. */
  function Seconds(startedMillis: int, updatedMillis: int): (d: int)
    ensures d * 1000 <= updatedMillis - startedMillis < d * 1000 + 1000
  {
    (updatedMillis - startedMillis) / 1000
  }
}
