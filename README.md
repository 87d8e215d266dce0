# webtask-pullrequests in Dafny

A model of the web task in `index.js`, which tidies up GitHub pull requests.
The task is given a pull-request URL and a token. It parses the URL into
owner, repository and number, then fetches the pull request. If the title
follows the `type(feature):` convention (type being `chore`, `fix` or
`feature`), it adds three labels and a welcome comment. It then reports one
of four messages to `done`, whose error argument is always `null`.

The source is pure decision logic around HTTP calls, so every part is
modelled as a function or a lemma.

- `JsStrings` (`js_strings.dfy`) covers the JavaScript string behaviour the
  code relies on:
  - the line terminators that `.` refuses and the ASCII digits of `\d`;
  - `String.prototype.trim`;
  - how a template literal renders an integer.
- `TitleParser` (`title_parser.dfy`) models `parseTitle`, and
  `TitleParserFacts` proves properties of it.
  - The regular expression is stated declaratively: `TitleMatchAt` says
    where a match can start, which alternative matches and where it ends.
    `IsFirstTitleMatch` picks the match the backtracking engine reports
    first: the leftmost start, then the earliest alternative, then the
    longest greedy `.+`.
  - `ParseTitle` is a constructive search, proved to return exactly that
    match.
- `UrlParser` (`url_parser.dfy`) and `UrlParserFacts` do the same for
  `parseUrl`. Its pattern is anchored at the start, so the first match is
  the one with the longest owner, then the longest repository, then the most
  digits.
- `Github` (`github_api.dfy`) models the `GithubApi` client:
  - the three resource paths;
  - the shared request builder `_httpRequest`, with its URL, headers,
    payload and status check;
  - the `{title, userName}` projection in `getPullRequest`.
- `Handler` (`handler.dfy`) models the labels, the welcome comment, the
  four messages, `updatePullRequest` and `webTaskHandler`. `HandlerFacts`
  proves, path by path, which requests each run sends and what it reports.
- `Options` (`options.dfy`) holds the `Option` type.

Nothing in the model does I/O. Each GitHub call takes the reply it gets
(a transport error, or a status code and a possibly empty body) as a
parameter. It returns the request it sends and how its promise settles. A
run of the handler is therefore a function of the token, the URL and the
three replies.

The token and the URL are plain strings. A missing URL is `None`.

Where the code and its own documentation disagree, the model follows the
code:

- `prNumber` stays the matched digit string, not a number. So `007` and `0`
  are kept as they are.
- A response counts as a success when the decimal form of its status code
  starts with `2`. That covers every 2xx code, and also codes such as 2, 20
  and 2000 (`Github.StatusAcceptedRange`, `Github.UnusualAcceptedStatus`).
- The dot in `github.com` in the URL pattern is not escaped. So any single
  character that is not a line terminator is accepted there
  (`UrlParserFacts.ExampleAnyHostCharacter`).

## Model

| member | source | states |
|---|---|---|
| JsStrings.Trim | index.js:163 | the input is the result with only trimmable characters (white space and line terminators) around it, and the result neither starts nor ends with one |
| JsStrings.TrimIdempotent | index.js:163 | trimming a trimmed URL changes nothing |
| JsStrings.IntToDecimal | index.js:78 | the template-literal rendering of a status code starts with `-` exactly for negative codes |
| JsStrings.NatToDecimalValue | index.js:78 | the decimal digits rendered for a number denote that number, and start with `0` only for 0 |
| JsStrings.LeadsWithTwo | index.js:78 | a natural number's decimal form starts with `2` exactly when the number lies in some range [2·10^k, 3·10^k) |
| TitleParser.TitleMatchIsText | index.js:97 | a match at a position is exactly an occurrence there of `type(feature):` whose feature is non-empty and has no line terminator |
| TitleParser.ParseTitle | index.js:95-104 | a result is the type and feature of the first match in the engine's order (leftmost start, then the earlier alternative, then the longest feature); `null` exactly when the pattern matches nowhere |
| TitleParserFacts.FirstTitleMatchUnique | index.js:97 | there is only one first match |
| TitleParserFacts.ParseTitleIsFirstMatch | index.js:95-104 | `parseTitle` returns `{type, feature}` if and only if that pair is the first match's |
| TitleParserFacts.ParsedTitleOccurs | index.js:97-102 | a returned type and feature occur in the title as `type(feature):` |
| TitleParserFacts.UnclassifiedIffNoOccurrence | index.js:98-103 | `null` exactly when no `type(feature):` with a non-empty one-line feature occurs anywhere in the title |
| TitleParserFacts.ParsedFeatureIsOneLine | index.js:97 | a returned feature is non-empty and contains no line terminator |
| TitleParserFacts.LeadingMatchClassifies | index.js:97 | a title starting with `type(feature):` and with no `)` on the rest of that line classifies as exactly that type and feature |
| TitleParserFacts.ClassifiedTitleHasParenthesis | index.js:97 | only a title containing `(` can classify |
| TitleParserFacts.ExampleGreedyFeature | index.js:97 | `fix(a): chore(b):` gives type `fix` and feature `a): chore(b`: the feature runs to the last `):` on the line |
| TitleParserFacts.ExampleFeatureTitle | index.js:97-103 | `feature(oauth): add login` gives type `feature` and feature `oauth` |
| TitleParserFacts.ExampleUnclassifiedTitle | index.js:100-103 | `random text` gives `null` |
| UrlParser.UrlMatchIsText | index.js:112 | a match is exactly a prefix `https://github?com/owner/repository/pull/digits`, with a host character `?`, owner and repository free of line terminators and a non-empty digit number |
| UrlParser.ParseUrl | index.js:111-119 | a result holds the groups of the first match in the engine's order (longest owner, then longest repository, then most digits); `null` exactly when the pattern matches no prefix |
| UrlParserFacts.FirstUrlMatchUnique | index.js:112 | there is only one first match |
| UrlParserFacts.ParseUrlIsFirstMatch | index.js:111-119 | `parseUrl` returns a reference if and only if it holds the first match's groups |
| UrlParserFacts.UnparsableIffNoPrefix | index.js:112-118 | `null` exactly when the URL has no prefix of the pattern's form |
| UrlParserFacts.EmptyUrlIsInvalid | index.js:113-118 | the empty string does not parse |
| UrlParserFacts.ParsedUrlShape | index.js:112-118 | a parsed URL starts with `https://github?com/owner/repository/pull/prNumber`; owner and repository are non-empty and on one line; the number is non-empty digits and is not followed by a further digit |
| UrlParserFacts.LeadingUrlParses | index.js:112 | a URL that starts with the pattern's text, with a slash-free repository, a maximal digit run and no further `/pull/<digit>` on its first line, parses to exactly those groups |
| UrlParserFacts.ExamplePullRequestUrl | index.js:112 | `https://github.com/acme/widgets/pull/42` parses to acme, widgets, `42` |
| UrlParserFacts.ExampleFilesTabUrl | index.js:112 | text after the number, such as `/files`, is ignored |
| UrlParserFacts.ExampleGreedyOwner | index.js:112 | `https://github.com/a/b/c/pull/7` has owner `a/b` and repository `c` |
| UrlParserFacts.ExampleAnyHostCharacter | index.js:112 | `https://githubXcom/acme/widgets/pull/1` parses, because of the unescaped dot |
| UrlParserFacts.PlainHttpIsInvalid | index.js:112 | a URL starting with `http://` never parses |
| Github.PullPath | index.js:36 | the fetch path lies under `/repos/owner/repository/pulls/` |
| Github.LabelsPath | index.js:22 | the labels path lies under the issue path `/repos/owner/repository/issues/n` |
| Github.CommentsPath | index.js:56 | the comments path lies under the issue path `/repos/owner/repository/issues/n` |
| Github.EndpointsDistinct | index.js:20-59 | the fetch, labels and comments paths of one pull request are pairwise different |
| Github.Headers | index.js:69-73 | three headers: `Authorization` carrying `token ` and then the client's token, `User-Agent: webtask-hack` and `Content-Type: application/json` |
| Github.StatusAccepted | index.js:78 | the status test accepts every 2xx code and nothing below 2 |
| Github.StatusAcceptedRange | index.js:78 | the status test accepts exactly the non-negative codes in some range [2·10^k, 3·10^k) |
| Github.ThreeDigitStatus | index.js:78 | among three-digit codes the status test accepts exactly 200..299 |
| Github.NegativeStatusRejected | index.js:78 | a negative code is never accepted |
| Github.UnusualAcceptedStatus | index.js:78 | the codes 2, 20 and 2000 are accepted |
| Github.Send | index.js:64-85 | the request goes to host + path with the client's headers, verb and payload; it fulfils with the response body exactly when a response came back whose code lies in some range [2·10^k, 3·10^k), and is rejected otherwise |
| Github.GetPullRequest | index.js:34-44 | a GET of the pull-request path; it fulfils, with the body's title and `user.login`, exactly when the send fulfils and the body holds a user |
| Github.AddLabel | index.js:20-25 | a POST of the labels to the labels path, fulfilled exactly when the reply passes the status test |
| Github.CreateComment | index.js:54-59 | a POST of `{"body": comment}` to the comments path, fulfilled exactly when the reply passes the status test |
| Handler.InvalidUrlMessage | index.js:184 | the message starts with `The provided url (` |
| Handler.Labels | index.js:138-142 | three labels, the last being `Review PR` |
| Handler.WelcomeComment | index.js:133-135 | the comment opens with `Hi @user,` and a line break |
| Handler.UpdatePullRequest | index.js:131-158 | nothing is sent exactly when the title does not classify, and then the promise is rejected with the guidelines message; a classified title sends exactly two requests, the POST of its three labels to the labels path and the POST of the welcome comment for its author to the comments path, both with the client's headers; it resolves, with the success message, exactly when both posts are accepted, and is rejected with `Oops, something went wrong :(` otherwise |
| Handler.UrlOf | index.js:162 | the URL read is the one given when present, and is empty exactly when it is missing or empty |
| Handler.FetchAccepted | index.js:38-42 | the fetch succeeds exactly on a response that passes the status test of index.js:78, i.e. whose code lies in some range [2·10^k, 3·10^k), and whose body holds a user |
| Handler.FetchAndUpdate | index.js:175-185 | one request or three are sent, the first being the GET of the pull-request path; there is no message exactly when the fetch fails; after a successful fetch the message is the one `UpdatePullRequest` settles with, resolved or rejected, for the fetched title and author, and the requests after the GET are the ones it sends |
| Handler.WebTaskHandler | index.js:160-189 | `done` never gets an error; nothing is sent exactly when the trimmed URL does not parse; at most three requests are sent |
| HandlerFacts.LabelsInjective | index.js:138-142 | the labels determine the type and feature they were made from |
| HandlerFacts.WelcomeCommentInjective | index.js:133-135 | the comment determines the user it greets |
| HandlerFacts.InvalidUrlMessageInjective | index.js:184 | the invalid-URL message determines the URL it echoes |
| HandlerFacts.ResultMessagesDistinct | index.js:150-187 | the four reported messages are pairwise different |
| HandlerFacts.InvalidUrlSendsNothing | index.js:162-188 | when the trimmed URL does not parse, nothing is sent and the untrimmed URL is reported invalid |
| HandlerFacts.MissingUrlIsInvalid | index.js:162 | a missing URL is treated as `''`: nothing is sent and `The provided url () is invalid.` is reported |
| HandlerFacts.FetchFailsWhen | index.js:38-42 | the fetch is rejected exactly when the reply is refused, the body is empty or it holds no user |
| HandlerFacts.FailedFetchReportsInvalidUrl | index.js:175-185 | when the URL parses but the fetch fails, only the GET of that pull request is sent, and the untrimmed URL is reported invalid |
| HandlerFacts.UnclassifiedTitleSendsOnlyFetch | index.js:144-156 | when the fetched title does not classify, only the GET is sent and the guidelines message is reported |
| HandlerFacts.ClassifiedTitleIsLabelled | index.js:144-156 | when the fetched title classifies, three requests are sent: the GET, the POST of exactly its three labels and the POST of the welcome comment for its author; success is reported if both posts are accepted, failure otherwise |
| HandlerFacts.PostsOnlyWhenClassified | index.js:144-156 | the two POSTs are sent exactly when the URL parses, the fetch succeeds and the title classifies; otherwise at most the GET is sent |
| HandlerFacts.SuccessIffEveryStepSucceeds | index.js:144-188 | success is reported exactly when the URL parses, the fetch succeeds with a user, the title classifies and both posts are accepted |
| HandlerFacts.SurroundingSpaceIgnored | index.js:162-163 | white space around the URL does not change the requests that are sent |

## Left out

- The `request` library and the network (index.js:76-84). Each call takes
  its reply as a parameter. Rejection reasons (`error || response`) are not
  kept, because no caller reads them.
- JSON. `JSON.stringify` of a request body is modelled as a typed payload.
  A response body is modelled as already parsed, or empty. So `JSON.parse`
  throwing on a malformed body, which happens inside the request callback,
  is not modelled.
- A request that never gets a reply. The code sets no time-out, so `done`
  is never called when the GET hangs, or when one POST hangs and the other
  is accepted or hangs too. When one POST hangs and the other is refused,
  `Promise.all` still rejects (index.js:146-153), and `done` receives the
  failure message. In the model every call receives a reply, so every run
  ends in `done`.
- Promise scheduling and `Promise.all` (index.js:146-153). Both posts are
  always issued, labels first, and the outcome depends only on whether both
  succeed. There is no interleaving to model.
- `Object.assign` also copies `path` and `method` into the request options
  (index.js:66-74). Only the fields that describe the request are kept:
  verb, URL, headers and payload.
- The `console.log` in the exported wrapper (index.js:191-197). It is
  logging only.
- Non-string inputs:
  - a `pullRequestUrl` that is not a string, on which `url.trim()` throws;
  - a title that is not a string, on which `title.match` throws and
    `done` would receive the exception;
  - a `user` object without `login`, which would greet `@undefined`.
  In the model the title and `login` are strings, and the only missing
  field is `user`.
- Strings are sequences of Unicode scalar values, whereas JavaScript
  strings are UTF-16 code units. So `.` here matches a whole character
  outside the Basic Multilingual Plane, where JavaScript would match half of
  a surrogate pair.
