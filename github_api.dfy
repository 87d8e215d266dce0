/**
 * The `GithubApi` client: the three REST calls the handler makes, each a
 * request built from the client's host name and token, and the way the
 * reply to a request settles the call's promise.
 *
 * The network is not modelled: each call takes the reply it receives as a
 * parameter and returns the request it sends together with how its
 * promise settles.
 */
module Github {
  import opened Options
  import opened JsStrings

  /** A client: where the API lives and the token it authenticates with. */
  datatype GithubApi = GithubApi(hostName: string, token: string)

  datatype HttpMethod = Get | Post

  /** What a request carries: nothing, a list of label names, or a comment `{"body": ...}`. */
  datatype Payload = NoPayload | LabelsPayload(labels: seq<string>) | CommentPayload(body: string)

  datatype HttpRequest = HttpRequest(verb: HttpMethod, url: string, headers: seq<(string, string)>, payload: Payload)

  /**
   * What comes back for a request: a transport error, or a response with a
   * status code and a body that is either empty or a parsed JSON value.
   */
  datatype Reply<T> = TransportError | Response(statusCode: int, body: Option<T>)

  /** How a promise settles. Rejection reasons are never inspected, so they are not kept. */
  datatype Settled<T> = Fulfilled(value: T) | Rejected

  /** A call: the request it sends and how its promise settles. */
  datatype Call<T> = Call(request: HttpRequest, outcome: Settled<T>)

  /** The parts of a pull request's JSON that the client reads. */
  datatype UserJson = UserJson(login: string)
  datatype PullJson = PullJson(title: string, user: Option<UserJson>)

  /** What `getPullRequest` hands on: the title and the author's login. */
  datatype PullRequestSummary = PullRequestSummary(title: string, userName: string)

  /** The headers every request carries. */
  function Headers(token: string): (h: seq<(string, string)>)
    ensures |h| == 3 && h[0].0 == "Authorization" && h[1].0 == "User-Agent" && h[2].0 == "Content-Type"
    ensures StartsWith(h[0].1, "token ") && h[0].1[6..] == token
    ensures h[1].1 == "webtask-hack" && h[2].1 == "application/json"
  {
    assert ("token " + token)[..6] == "token ";
    [("Authorization", "token " + token), ("User-Agent", "webtask-hack"), ("Content-Type", "application/json")]
  }

  function RepositoryPath(owner: string, repository: string): string {
    "/repos/" + owner + "/" + repository
  }

  function PullPath(owner: string, repository: string, prNumber: string): (p: string)
    ensures StartsWith(p, RepositoryPath(owner, repository) + "/pulls/")
  {
    var p := RepositoryPath(owner, repository) + "/pulls/" + prNumber;
    assert p[..|RepositoryPath(owner, repository) + "/pulls/"|] == RepositoryPath(owner, repository) + "/pulls/";
    p
  }

  function IssuePath(owner: string, repository: string, issueNumber: string): string {
    RepositoryPath(owner, repository) + "/issues/" + issueNumber
  }

  function LabelsPath(owner: string, repository: string, issueNumber: string): (p: string)
    ensures StartsWith(p, IssuePath(owner, repository, issueNumber))
  {
    var p := IssuePath(owner, repository, issueNumber) + "/labels";
    assert p[..|IssuePath(owner, repository, issueNumber)|] == IssuePath(owner, repository, issueNumber);
    p
  }

  function CommentsPath(owner: string, repository: string, issueNumber: string): (p: string)
    ensures StartsWith(p, IssuePath(owner, repository, issueNumber))
  {
    var p := IssuePath(owner, repository, issueNumber) + "/comments";
    assert p[..|IssuePath(owner, repository, issueNumber)|] == IssuePath(owner, repository, issueNumber);
    p
  }

  /**
   * The status test: the code's decimal rendering starts with `2`. It
   * accepts every 2xx code and nothing below 2.
   */
  predicate StatusAccepted(statusCode: int)
    ensures StatusAccepted(statusCode) ==> statusCode >= 2
    ensures 200 <= statusCode <= 299 ==> StatusAccepted(statusCode)
  {
    LeadingTwoBounds(statusCode);
    IntToDecimal(statusCode)[0] == '2'
  }

  /** A rendering that starts with `2` is of a code of at least 2, and every 2xx code renders so. */
  lemma LeadingTwoBounds(n: int)
    ensures IntToDecimal(n)[0] == '2' ==> n >= 2
    ensures 200 <= n <= 299 ==> IntToDecimal(n)[0] == '2'
  {
    if 0 <= n < 10 {
      assert IntToDecimal(n) == [DigitChar(n)];
    } else if 200 <= n <= 299 {
      assert NatToDecimal(n)[0] == NatToDecimal(n / 10)[0];
      assert NatToDecimal(n / 10)[0] == DigitChar(n / 100);
    }
  }

  /**
   * The status test accepts exactly the codes in a range [2 * 10^k, 3 * 10^k):
   * every 2xx code, but also 2, 20..29, 2000..2999 and so on.
   */
  lemma StatusAcceptedRange(statusCode: int)
    ensures StatusAccepted(statusCode) <==>
      statusCode >= 0 && exists k: nat :: 2 * Pow10(k) <= statusCode < 3 * Pow10(k)
  {
    if statusCode >= 0 {
      LeadsWithTwo(statusCode);
    }
  }

  /** Among three-digit codes the status test accepts exactly 200..299. */
  lemma ThreeDigitStatus(statusCode: int)
    requires 100 <= statusCode <= 999
    ensures StatusAccepted(statusCode) <==> 200 <= statusCode <= 299
  {
    var n: nat := statusCode;
    var t := n / 10;
    var h := t / 10;
    assert NatToDecimal(n)[0] == NatToDecimal(t)[0];
    assert NatToDecimal(t)[0] == DigitChar(h);
    assert h == 2 <==> 200 <= n <= 299;
    assert DigitChar(h) == '2' <==> h == 2;
  }

  /** A negative status code never passes: its rendering starts with `-`. */
  lemma NegativeStatusRejected(statusCode: int)
    requires statusCode < 0
    ensures !StatusAccepted(statusCode)
  {
  }

  /** Codes outside 2xx that the status test still accepts. */
  lemma UnusualAcceptedStatus()
    ensures StatusAccepted(2) && StatusAccepted(20) && StatusAccepted(2000)
  {
    assert IntToDecimal(2) == "2";
    assert IntToDecimal(20) == "20";
    assert IntToDecimal(2000) == "2000";
  }

  /**
   * `_httpRequest`: send `path` on the client's host with its headers; the
   * promise fulfils with the (possibly empty) body exactly when a response
   * came back whose status lies in a range [2 * 10^k, 3 * 10^k), and is
   * rejected otherwise.
   */
  function Send<T>(api: GithubApi, verb: HttpMethod, path: string, payload: Payload, reply: Reply<T>): (c: Call<Option<T>>)
    ensures c.request.url == api.hostName + path && c.request.headers == Headers(api.token)
    ensures c.request.verb == verb && c.request.payload == payload
    ensures c.outcome.Fulfilled? <==>
      reply.Response? && reply.statusCode >= 0 && exists k: nat :: 2 * Pow10(k) <= reply.statusCode < 3 * Pow10(k)
    ensures c.outcome.Fulfilled? ==> c.outcome.value == reply.body
  {
    var request := HttpRequest(verb, api.hostName + path, Headers(api.token), payload);
    StatusAcceptedRange(if reply.Response? then reply.statusCode else 0);
    if reply.Response? && StatusAccepted(reply.statusCode) then Call(request, Fulfilled(reply.body))
    else Call(request, Rejected)
  }

  /**
   * `getPullRequest`: a GET of the pull request; it fulfils with the title
   * and the author's login when the reply is accepted and its body holds a
   * user, and is rejected otherwise (an empty body or a missing user makes
   * the projection throw).
   */
  function GetPullRequest(api: GithubApi, owner: string, repository: string, prNumber: string, reply: Reply<PullJson>): (c: Call<PullRequestSummary>)
    ensures c.request == Send(api, Get, PullPath(owner, repository, prNumber), NoPayload, reply).request
    ensures c.outcome.Fulfilled? <==>
      Send(api, Get, PullPath(owner, repository, prNumber), NoPayload, reply).outcome.Fulfilled?
      && reply.body.Some? && reply.body.value.user.Some?
    ensures c.outcome.Fulfilled? ==>
      c.outcome.value.title == reply.body.value.title && c.outcome.value.userName == reply.body.value.user.value.login
  {
    var sent: Call<Option<PullJson>> := Send(api, Get, PullPath(owner, repository, prNumber), NoPayload, reply);
    match sent.outcome
    case Fulfilled(Some(PullJson(title, Some(UserJson(login))))) =>
      Call(sent.request, Fulfilled(PullRequestSummary(title, login)))
    case _ => Call(sent.request, Rejected)
  }

  /** `addLabel`: a POST of the label names to the issue's labels. */
  function AddLabel<T>(api: GithubApi, owner: string, repository: string, issueNumber: string, labels: seq<string>, reply: Reply<T>): (c: Call<Option<T>>)
    ensures c.request.verb == Post && c.request.payload == LabelsPayload(labels)
    ensures c.request.url == api.hostName + LabelsPath(owner, repository, issueNumber)
    ensures c.outcome.Fulfilled? <==> reply.Response? && StatusAccepted(reply.statusCode)
  {
    StatusAcceptedRange(if reply.Response? then reply.statusCode else 0);
    Send(api, Post, LabelsPath(owner, repository, issueNumber), LabelsPayload(labels), reply)
  }

  /** `createComment`: a POST of `{"body": comment}` to the issue's comments. */
  function CreateComment<T>(api: GithubApi, owner: string, repository: string, issueNumber: string, comment: string, reply: Reply<T>): (c: Call<Option<T>>)
    ensures c.request.verb == Post && c.request.payload == CommentPayload(comment)
    ensures c.request.url == api.hostName + CommentsPath(owner, repository, issueNumber)
    ensures c.outcome.Fulfilled? <==> reply.Response? && StatusAccepted(reply.statusCode)
  {
    StatusAcceptedRange(if reply.Response? then reply.statusCode else 0);
    Send(api, Post, CommentsPath(owner, repository, issueNumber), CommentPayload(comment), reply)
  }

  /** The three endpoints of one pull request are pairwise different. */
  lemma EndpointsDistinct(owner: string, repository: string, prNumber: string)
    ensures PullPath(owner, repository, prNumber) != LabelsPath(owner, repository, prNumber)
    ensures PullPath(owner, repository, prNumber) != CommentsPath(owner, repository, prNumber)
    ensures LabelsPath(owner, repository, prNumber) != CommentsPath(owner, repository, prNumber)
  {
    var n := |RepositoryPath(owner, repository)|;
    assert |PullPath(owner, repository, prNumber)| == n + 7 + |prNumber|;
    assert |LabelsPath(owner, repository, prNumber)| == n + 8 + |prNumber| + 7;
    assert |CommentsPath(owner, repository, prNumber)| == n + 8 + |prNumber| + 9;
  }
}
