# WHM Dashboard core, modelled in Dafny

WHM Dashboard is a small Express server (`src/server.ts`) that keeps an
in-memory list of GitHub and GitLab repositories, polls each platform's
runs/pipelines API, and serves a page that colours each repository by
the status of its latest run. This project models the logic under the HTTP
plumbing:

- **Repository registry** (`registry.dfy`, module `Registry`): the
  module-level `repos` array becomes the class `Registry.Store` with a
  `seq<RepoConfig>` field. `Add` appends a record whose id is
  `owner + "/" + name`, with no duplicate check. `Remove` keeps the records
  whose id differs and always reports success. `List` returns every record
  with its token replaced by `"***"`. `Find` returns the first record with
  the id. The class invariant `Valid` says every stored id is derived from
  its owner and name. The filter, the redaction and the first-match search
  are functions with their own contracts, and the methods are proved
  against them.
- **Detailed status** (`detail.dfy`, module `Detail`): the handler for
  `GET /api/repos/:id/status`. It returns 404 when no record has the id.
  For a record on a platform other than github or gitlab it returns `{}`.
  Otherwise it normalises the fetched list: `lastRun` comes from element 0,
  `runs` holds the first five elements in upstream order, and
  `successRate` is `Math.round(100 * successes / n)`, or 0 for an empty
  list. A request that throws gives a 500 with the error text.
- **Summary** (`summary.dfy`, module `Summary`): the handler for
  `GET /api/status`. It builds one entry per record, in registry order,
  from a one-run request. A request that throws becomes an `"error"`
  entry for that record only. A missing or falsy status becomes
  `"unknown"`.
- **Client status buckets** (`client.dfy`, module `Client`): the page's
  `statusClass` mapping from a status string to pass, fail, running or
  unknown.
- Supporting modules: `Js` (`js.dfy`) models nullable JSON strings,
  JavaScript truthiness, `||` and the value a `catch` receives. `Seqs`
  (`seqs.dfy`) provides counting and `min`. `Upstream` (`upstream.dfy`)
  defines the raw GitHub run and GitLab pipeline records and how a request
  can end.

The network is a parameter. An `Upstream` value is a pair of total
functions, one per platform, from a repository record and a `per_page`
value to the outcome of the request: a response body or a thrown value.
The detailed view makes one request and gets one `Upstream`. The summary
makes one request per registry position, so it gets one `Upstream` per
position, and two identical records can get different answers.
Properties about which requests are made are therefore stated as
independence. The 404 response is the same whatever the services would
answer. A summary entry depends only on the answer to its own request.

Notes on behaviour as the code has it:
- A GitHub run's status is `conclusion || status`. An empty-string
  conclusion is falsy, so it falls through to `status` just as a missing
  one does.
- The error text is whatever the thrown `Error` carries, and it may be
  empty. A thrown non-`Error` value gives `"Unknown error"`.
- Ids are not unique. Re-adding the same owner and name appends a second
  record. Lookups keep returning the first one (`Registry.AddShadowed`,
  `Detail.DuplicateShadowed`), and one delete removes both. An owner that
  contains `/` can also make two different repositories share an id
  (`Registry.MakeIdCollides`).
- GitHub reports a run in progress with status `in_progress`. That value
  is not among the page's running statuses (`running`, `pending`), so such
  a repository is drawn as unknown (`Client.GitHubConclusionDecides`).

## Model

| member | source | states |
|---|---|---|
| `Registry.MakeId` | src/server.ts:40 | the id is the owner, then `/`, then the name |
| `Registry.MakeIdInjective` | src/server.ts:40 | when neither owner contains `/`, equal ids mean equal owner and name |
| `Registry.MakeIdCollides` | src/server.ts:40 | owner `a/b` with name `c` and owner `a` with name `b/c` get the same id |
| `Registry.Redact` | src/server.ts:33 | the shown record keeps id, platform, owner and name; its token is `***` |
| `Registry.RedactAll` | src/server.ts:33 | the listing has the same length and order as the registry, and each element is the redacted record at that position |
| `Registry.Without` | src/server.ts:53 | the result never grows and holds exactly the records whose id differs from the removed id |
| `Registry.WithoutAppend` | src/server.ts:53 | removal keeps the original order: filtering a concatenation filters each part |
| `Registry.WithoutAbsent` | src/server.ts:53-54 | removing an id no record carries leaves the registry unchanged |
| `Registry.WithoutLength` | src/server.ts:53 | the length drops by exactly the number of records that carry the id |
| `Registry.WithoutIdempotent` | src/server.ts:51-55 | removing the same id twice equals removing it once |
| `Registry.FirstIndex` | src/server.ts:60 | returns no position exactly when no record has the id; otherwise the position holds the id and no earlier record does |
| `Registry.FindFirst` | src/server.ts:60-64 | not found exactly when no record has the id; otherwise returns the record at the first position holding that id |
| `Registry.FirstIndexAppend` | src/server.ts:46 | appending does not change the first match of an id that already matched |
| `Registry.AddShadowed` | src/server.ts:37-48 | adding a record whose id is already present leaves the lookup result unchanged |
| `Registry.AddThenFind` | src/server.ts:37-48 | adding a record with a fresh id makes the lookup return that record |
| `Registry.RemoveThenFind` | src/server.ts:51-55 | after a removal, looking up that id finds nothing |
| `Registry.FoundByOwnerName` | src/server.ts:39-44 | when every record was built by the add handler and no owner contains `/`, looking up `owner/name` succeeds exactly when a record with that owner and name is stored, and any record it finds has that owner and name |
| `Registry.AddThenRemove` | src/server.ts:37-55 | adding a record and then removing its id gives the old registry with that id removed |
| `Registry.Store.constructor` | src/server.ts:27 | the registry starts empty and valid |
| `Registry.Store.List` | src/server.ts:32-34 | same length and order as the registry; id, platform, owner and name kept; no token other than `***` in the output |
| `Registry.Store.Add` | src/server.ts:37-48 | the new registry is the old one plus the derived record as its last element, even when the id is a duplicate; the reply is success with that record, token `***`; validity is kept |
| `Registry.Store.Remove` | src/server.ts:51-55 | the new registry is the old one with every record of that id removed; the reply is always success; validity is kept |
| `Registry.Store.Find` | src/server.ts:60-64 | the result is the first record with the id, or not found, exactly as `Registry.FindFirst` states |
| `Registry.Store.FindByOwnerName` | src/server.ts:37-63 | in a valid store with slash-free owners, looking up `owner/name` succeeds exactly when that repository is registered and returns a record of that owner and name |
| `Seqs.Count` | src/server.ts:83 | the count of matching elements is at most the length; it is 0 exactly when none match and the length exactly when all match |
| `Seqs.CountAppend` | src/server.ts:114 | counting a concatenation adds the counts of its parts |
| `Js.Or` | src/server.ts:89 | the JavaScript `or` of `a` and `b` gives `a` when it is truthy and `b` otherwise; the result is truthy exactly when one of them is |
| `Js.ErrorText` | src/server.ts:137 | an `Error` gives its message; any other thrown value gives `Unknown error` |
| `Js.OrElse` | src/server.ts:166 | falling back to a non-empty literal with `or` always gives a non-empty string: `a` when it is truthy, otherwise the literal |
| `Upstream.Seconds` | src/server.ts:90 | the duration is the floor of the elapsed milliseconds divided by 1000, and may be negative |
| `Detail.SuccessRate` | src/server.ts:93 | 0 for an empty list; otherwise the integer within half a point of `100*s/n`, with halves rounded up; at most 100 when `s <= n` |
| `Detail.RoundHalfUp` | src/server.ts:124 | `(200*s + n) / (2*n)` is the round-half-up of `100*s/n` and is at most 100 when `s <= n` |
| `Detail.SuccessRateUnique` | src/server.ts:93 | any integer within half a point of the percentage, with halves rounded up, equals the success rate |
| `Detail.Normalize` | src/server.ts:81-132 | `lastRun` is absent exactly when nothing was fetched and otherwise shows element 0; the rate is in 0..100 and rounds the success share; `runs` has length `min(n, 5)` and shows the first elements in upstream order |
| `Detail.GitHubView` | src/server.ts:87-99 | a run's status is its conclusion when that is truthy, otherwise its status; id, timestamp and duration come from the run |
| `Detail.GitLabView` | src/server.ts:118-130 | a pipeline's status is its own status field; id, timestamp and duration come from the pipeline |
| `Detail.GitHubSucceeded` | src/server.ts:83 | a run counted as a success is one the dashboard shows with status `success` |
| `Detail.GitLabSucceeded` | src/server.ts:114 | a pipeline is counted as a success exactly when the dashboard shows it with status `success` |
| `Detail.GitHubStatus` | src/server.ts:81-101 | platform `github`; a missing `workflow_runs` behaves as an empty list, giving no last run, rate 0 and no history |
| `Detail.GitLabStatus` | src/server.ts:112-132 | platform `gitlab`; a falsy body behaves as an empty list, giving no last run, rate 0 and no history |
| `Detail.GetStatus` | src/server.ts:58-139 | 404 with the text `Repository not found` exactly when no record has the id; a 500 only for a registered id; any non-empty status object is for github or gitlab |
| `Detail.NotFoundWithoutRequest` | src/server.ts:60-64 | for an unknown id the response is 404 whatever the services would answer |
| `Detail.StatusDependsOnFirstMatch` | src/server.ts:60-79 | the response depends only on the first matching record and on the answer to its ten-run request |
| `Detail.UnknownPlatformEmpty` | src/server.ts:67 | a record with any other platform gets `{}` with status 200 |
| `Detail.AnswerIsNormalised` | src/server.ts:69-132 | a request that answers gives status 200 with the answer of the first matching record normalised for its platform |
| `Detail.FailureIsServerError` | src/server.ts:136-138 | a request that throws gives a 500 carrying the error text |
| `Detail.DuplicateShadowed` | src/server.ts:46-60 | re-registering an existing id does not change that id's status response |
| `Detail.TwoOfThree` | src/server.ts:83-93 | conclusions success, success, failure give a rate of 67 |
| `Detail.NoPipelines` | src/server.ts:112-124 | zero pipelines give rate 0, no last run and no history |
| `Detail.HistoryOfTen` | src/server.ts:94 | ten fetched runs give exactly five history entries: the five most recent |
| `Summary.GitHubLatestStatus` | src/server.ts:160-166 | the status is never empty: the latest run's conclusion if truthy, else its status if truthy, else `unknown` |
| `Summary.GitLabLatestStatus` | src/server.ts:179-185 | the status is never empty: the latest pipeline's status if truthy, else `unknown` |
| `Summary.LatestUpdatedAt` | src/server.ts:167 | `latest?.updated_at`: absent when there is no latest run, otherwise that run's `updated_at` |
| `Summary.First` | src/server.ts:160 | `xs?.[0]` is present exactly when the array is present and non-empty, and is then its first element |
| `Summary.EntryFor` | src/server.ts:144-200 | `{}` exactly for a platform other than github or gitlab; otherwise the entry carries the record's id, platform, owner and name; it is an error entry exactly when that record's request threw, and then carries the error text; otherwise its status is the latest run's status chain ending in `unknown` and its timestamp is the latest run's `updated_at` |
| `Summary.AllStatuses` | src/server.ts:143-204 | one entry per record, in registry order, each built from the request made for that position; entry `i` carries record `i`'s id, platform, owner and name |
| `Summary.EntryIsolated` | src/server.ts:143-202 | entry `i` depends only on the answer to the request made for position `i` |
| `Summary.FailureContained` | src/server.ts:191-200 | making the request for position `j` throw turns entry `j` into an error entry with the thrown text and leaves every other entry unchanged, even one holding the same record |
| `Summary.OneFailsOneSucceeds` | src/server.ts:143-202 | with one failing and one answering request, the batch returns both entries, with `error` only for the failing one, even when both hold the same record |
| `Summary.GitHubSummaryMatchesDetail` | src/server.ts:166 | the summary status equals the detailed view's `lastRun.status`, or `unknown` when there is no run or that status is falsy |
| `Summary.GitLabSummaryMatchesDetail` | src/server.ts:185 | the same agreement for GitLab pipelines |
| `Client.StatusClass` | src/server.ts:298-300 | `success` is pass; `failure` or `failed` is fail; `running` or `pending` is running; anything else, a missing status included, is unknown; each in both directions |
| `Client.EntryBucket` | src/server.ts:297-300 | a card for an error entry or `{}` is unknown; a card for a status entry takes the bucket of its status |
| `Client.ErrorsAndUnknownsShowUnknown` | src/server.ts:297-300 | error entries, `{}` entries and `unknown` statuses show as unknown |
| `Client.GitHubConclusionDecides` | src/server.ts:298-300 | a GitHub repository whose latest run concluded `success` shows pass and one that concluded `failure` shows fail; a run still `in_progress` shows unknown |

## Left out

- Express routing, CORS, JSON body parsing, the port and `app.listen` are
  framework I/O.
- The HTTP requests are not modelled: URLs, `encodeURIComponent`, auth
  headers and `per_page` handling on the server side. Their outcomes are
  the `Upstream` parameter.
- `Promise.all` concurrency is not modelled. The summary is a sequential
  map with per-entry capture, which yields the same array.
- A response body that is malformed is not modelled. A TypeError thrown
  while reading it inside the `try` is not modelled either. Bodies are
  typed records, and status fields are strings or null.
- Registry.Store.Add: the request fields are strings. A body missing
  `owner` or `name` gives an id such as `undefined/x` in the source, and a
  body with non-string values behaves differently again. Neither case is
  modelled.
- Date parsing is not modelled. Raw records carry the millisecond values
  `getTime()` would return, and invalid dates (NaN durations) are not
  modelled.
- Detail.SuccessRate: the model computes the exact round-half-up of
  `100*s/n`. JavaScript first computes `(s/n)*100` in binary floating
  point. For the at most ten runs requested, a percentage ending in .5
  arises only for n = 8, where that computation is exact, but rounding
  error for larger lists is not modelled.
- The HTML page, the DOM rendering and the 30-second refresh are
  presentation and are not modelled. The client's `statusMap` join by id
  (src/server.ts:293-297) is not modelled either; only `statusClass` is.
