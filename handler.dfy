/**
 * The web task: read the pull request's URL, fetch the pull request, and
 * when its title follows the `type(feature):` convention label it and
 * welcome its author.
 *
 * Each GitHub call takes the reply it receives as a parameter, so a run of
 * the handler is a function of its inputs and of the three replies; it
 * returns the requests it sends, in order, and what it passes to `done`.
 */
module Handler {
  import opened Options
  import opened JsStrings
  import opened TitleParser
  import opened UrlParser
  import opened Github

  /** The API the handler talks to. */
  const ApiHost := "https://api.github.com"

  const SuccessMessage := "The PR was successfully updated!"
  const FailureMessage := "Oops, something went wrong :("
  const GuidelinesMessage := "The provided PR did not follow the contribution guidelines, no action was taken!"

  function InvalidUrlMessage(url: string): (m: string)
    ensures StartsWith(m, "The provided url (")
  {
    var m := "The provided url (" + url + ") is invalid.";
    assert m[..18] == "The provided url (";
    m
  }

  /** The three labels given to a pull request whose title classifies. */
  function Labels(info: TitleInfo): (labels: seq<string>)
    ensures |labels| == 3 && labels[2] == "Review PR"
  {
    ["type: " + KindName(info.kind), "feature: " + info.feature, "Review PR"]
  }

  /** The lines after the greeting, with the template's twelve-space indentation. */
  const WelcomeBody: string :=
    "            Thanks for creating a pull request. We'll review this PR as soon as possible, please be patient.\n"
    + "            Remember that PR's are reserved for issues and feature requests only."

  /** The comment that welcomes the author of a classified pull request. */
  function WelcomeComment(userName: string): (c: string)
    ensures StartsWith(c, "Hi @" + userName + ",\n")
  {
    var c := "Hi @" + userName + ",\n" + WelcomeBody;
    assert c[..|"Hi @" + userName + ",\n"|] == "Hi @" + userName + ",\n";
    c
  }

  /** How `updatePullRequest`'s promise settles: resolved or rejected with a message. */
  datatype Outcome = Resolve(message: string) | Reject(message: string)

  datatype UpdateRun = UpdateRun(requests: seq<HttpRequest>, outcome: Outcome)

  /**
   * `updatePullRequest`: a title that does not classify is rejected with
   * the guidelines message and nothing is sent; otherwise the labels and
   * the comment are both posted, and the promise resolves exactly when both
   * posts are accepted.
   */
  function UpdatePullRequest<L, C>(api: GithubApi, pr: PullRequestSummary, owner: string, repository: string, prNumber: string,
                                   labelReply: Reply<L>, commentReply: Reply<C>): (u: UpdateRun)
    ensures u.requests == [] <==> ParseTitle(pr.title).None?
    ensures ParseTitle(pr.title).None? ==> u.outcome == Reject(GuidelinesMessage)
    ensures u.outcome.Resolve? <==>
      ParseTitle(pr.title).Some?
      && labelReply.Response? && StatusAccepted(labelReply.statusCode)
      && commentReply.Response? && StatusAccepted(commentReply.statusCode)
    ensures u.outcome.Resolve? ==> u.outcome.message == SuccessMessage
    ensures ParseTitle(pr.title).Some? && !u.outcome.Resolve? ==> u.outcome == Reject(FailureMessage)
    ensures ParseTitle(pr.title).Some? ==>
      && |u.requests| == 2
      && u.requests[0].verb == Post
      && u.requests[0].url == api.hostName + LabelsPath(owner, repository, prNumber)
      && u.requests[0].headers == Headers(api.token)
      && u.requests[0].payload == LabelsPayload(Labels(ParseTitle(pr.title).value))
      && u.requests[1].verb == Post
      && u.requests[1].url == api.hostName + CommentsPath(owner, repository, prNumber)
      && u.requests[1].headers == Headers(api.token)
      && u.requests[1].payload == CommentPayload(WelcomeComment(pr.userName))
  {
    match ParseTitle(pr.title)
    case None => UpdateRun([], Reject(GuidelinesMessage))
    case Some(info) =>
      var labelling := AddLabel(api, owner, repository, prNumber, Labels(info), labelReply);
      var commenting := CreateComment(api, owner, repository, prNumber, WelcomeComment(pr.userName), commentReply);
      UpdateRun([labelling.request, commenting.request],
        if labelling.outcome.Fulfilled? && commenting.outcome.Fulfilled? then Resolve(SuccessMessage) else Reject(FailureMessage))
  }

  /** The two arguments given to `done`. */
  datatype Done = Done(error: Option<string>, result: string)

  datatype Run = Run(done: Done, requests: seq<HttpRequest>)

  /** The URL as read from the context: a missing one counts as empty. */
  function UrlOf(pullRequestUrl: Option<string>): (url: string)
    ensures pullRequestUrl.Some? ==> url == pullRequestUrl.value
    ensures url == "" <==> pullRequestUrl.None? || pullRequestUrl.value == ""
  {
    if pullRequestUrl.Some? then pullRequestUrl.value else ""
  }

  /** What the promise chain after a parsable URL produces: its requests, and the message unless the fetch failed. */
  datatype Progress = Progress(requests: seq<HttpRequest>, message: Option<string>)

  /** The pull-request fetch is accepted and its body holds a user. */
  predicate FetchAccepted(fetchReply: Reply<PullJson>)
    ensures FetchAccepted(fetchReply) <==>
      && fetchReply.Response?
      && fetchReply.statusCode >= 0 && (exists k: nat :: 2 * Pow10(k) <= fetchReply.statusCode < 3 * Pow10(k))
      && fetchReply.body.Some? && fetchReply.body.value.user.Some?
  {
    StatusAcceptedRange(if fetchReply.Response? then fetchReply.statusCode else 0);
    fetchReply.Response? && StatusAccepted(fetchReply.statusCode) && fetchReply.body.Some? && fetchReply.body.value.user.Some?
  }

  /**
   * The fetch and what follows it: a failed fetch yields no message; a
   * successful one hands the pull request to `UpdatePullRequest` and yields
   * the message its promise settles with, resolved or rejected alike.
   */
  function FetchAndUpdate<L, C>(githubToken: string, ref: PullRequestRef,
                                fetchReply: Reply<PullJson>, labelReply: Reply<L>, commentReply: Reply<C>): (p: Progress)
    ensures |p.requests| == 1 || |p.requests| == 3
    ensures p.requests[0] == GetPullRequest(GithubApi(ApiHost, githubToken), ref.owner, ref.repository, ref.prNumber, fetchReply).request
    ensures p.message.None? <==> !FetchAccepted(fetchReply)
    ensures p.message.None? ==> |p.requests| == 1
    ensures p.message.Some? ==> p.message.value in {SuccessMessage, FailureMessage, GuidelinesMessage}
    ensures FetchAccepted(fetchReply) ==>
      var pr := PullRequestSummary(fetchReply.body.value.title, fetchReply.body.value.user.value.login);
      var update := UpdatePullRequest(GithubApi(ApiHost, githubToken), pr, ref.owner, ref.repository, ref.prNumber, labelReply, commentReply);
      && p.message == Some(update.outcome.message)
      && p.requests[1..] == update.requests
  {
    var api := GithubApi(ApiHost, githubToken);
    var fetch := GetPullRequest(api, ref.owner, ref.repository, ref.prNumber, fetchReply);
    StatusAcceptedRange(if fetchReply.Response? then fetchReply.statusCode else 0);
    match fetch.outcome
    case Rejected => Progress([fetch.request], None)
    case Fulfilled(pr) =>
      var update := UpdatePullRequest(api, pr, ref.owner, ref.repository, ref.prNumber, labelReply, commentReply);
      Progress([fetch.request] + update.requests, Some(update.outcome.message))
  }

  /**
   * `webTaskHandler`: parse the trimmed URL, fetch the pull request and
   * hand it to `UpdatePullRequest`. An unparsable URL and a failed fetch both
   * report the URL, as given, invalid; whatever happens, `done` gets no error.
   */
  function WebTaskHandler<L, C>(githubToken: string, pullRequestUrl: Option<string>,
                                fetchReply: Reply<PullJson>, labelReply: Reply<L>, commentReply: Reply<C>): (r: Run)
    ensures r.done.error == None
    ensures r.requests == [] <==> ParseUrl(Trim(UrlOf(pullRequestUrl))).None?
    ensures |r.requests| <= 3
  {
    var url := UrlOf(pullRequestUrl);
    match ParseUrl(Trim(url))
    case None => Run(Done(None, InvalidUrlMessage(url)), [])
    case Some(ref) =>
      var progress := FetchAndUpdate(githubToken, ref, fetchReply, labelReply, commentReply);
      var result := if progress.message.Some? then progress.message.value else InvalidUrlMessage(url);
      Run(Done(None, result), progress.requests)
  }
}

/** What a run of the handler sends and reports, path by path. */
module HandlerFacts {
  import opened Options
  import opened JsStrings
  import opened TitleParser
  import opened UrlParser
  import opened Github
  import opened Handler
  import UrlParserFacts

  /** The labels determine the classification they were made from. */
  lemma LabelsInjective(a: TitleInfo, b: TitleInfo)
    requires Labels(a) == Labels(b)
    ensures a == b
  {
    var ta, tb := Labels(a)[0], Labels(b)[0];
    assert |KindName(a.kind)| == |ta| - 6 == |tb| - 6 == |KindName(b.kind)|;
    assert KindName(a.kind) == ta[6..] == tb[6..] == KindName(b.kind);
    assert a.feature == Labels(a)[1][9..] == Labels(b)[1][9..] == b.feature;
  }

  /** The welcome comment determines the user it greets. */
  lemma WelcomeCommentInjective(u: string, v: string)
    requires WelcomeComment(u) == WelcomeComment(v)
    ensures u == v
  {
    var c := WelcomeComment(u);
    assert |u| == |v|;
    assert u == c[4..4 + |u|] == v;
  }

  /** The invalid-URL message echoes the URL it was given. */
  lemma InvalidUrlMessageInjective(u: string, v: string)
    requires InvalidUrlMessage(u) == InvalidUrlMessage(v)
    ensures u == v
  {
    var m := InvalidUrlMessage(u);
    assert |u| == |v|;
    assert u == m[18..18 + |u|] == v;
  }

  /** The four results the handler can report are pairwise different. */
  lemma ResultMessagesDistinct(url: string)
    ensures InvalidUrlMessage(url) != SuccessMessage
    ensures InvalidUrlMessage(url) != FailureMessage
    ensures InvalidUrlMessage(url) != GuidelinesMessage
    ensures SuccessMessage != FailureMessage && SuccessMessage != GuidelinesMessage && FailureMessage != GuidelinesMessage
  {
    var m := InvalidUrlMessage(url);
    assert m[|m| - 1] == '.';
    assert SuccessMessage[|SuccessMessage| - 1] == '!' && GuidelinesMessage[|GuidelinesMessage| - 1] == '!';
    assert FailureMessage[|FailureMessage| - 1] == '(';
    assert |SuccessMessage| == 32 && |GuidelinesMessage| == 80;
  }

  /** A URL that does not parse once trimmed: nothing is sent and the raw URL is reported. */
  lemma InvalidUrlSendsNothing<L, C>(githubToken: string, pullRequestUrl: Option<string>,
                                     fetchReply: Reply<PullJson>, labelReply: Reply<L>, commentReply: Reply<C>)
    requires ParseUrl(Trim(UrlOf(pullRequestUrl))).None?
    ensures var r := WebTaskHandler(githubToken, pullRequestUrl, fetchReply, labelReply, commentReply);
      r.requests == [] && r.done == Done(None, InvalidUrlMessage(UrlOf(pullRequestUrl)))
  {
  }

  /** A missing URL is reported as the empty URL being invalid. */
  lemma MissingUrlIsInvalid<L, C>(githubToken: string, fetchReply: Reply<PullJson>, labelReply: Reply<L>, commentReply: Reply<C>)
    ensures var r := WebTaskHandler(githubToken, None, fetchReply, labelReply, commentReply);
      r.requests == [] && r.done == Done(None, InvalidUrlMessage(""))
  {
    assert Trim("") == "";
    UrlParserFacts.EmptyUrlIsInvalid();
  }

  /** The GET that a parsable URL leads to: the pull request it names, on the API host, with the token. */
  predicate FetchesPullRequest(request: HttpRequest, githubToken: string, ref: PullRequestRef) {
    && request.verb == Get
    && request.url == ApiHost + PullPath(ref.owner, ref.repository, ref.prNumber)
    && request.headers == Headers(githubToken)
    && request.payload == NoPayload
  }

  /** The fetch fails exactly when the reply is refused or its body holds no user. */
  lemma FetchFailsWhen(api: GithubApi, ref: PullRequestRef, fetchReply: Reply<PullJson>)
    ensures GetPullRequest(api, ref.owner, ref.repository, ref.prNumber, fetchReply).outcome.Rejected? <==> !FetchAccepted(fetchReply)
  {
    StatusAcceptedRange(if fetchReply.Response? then fetchReply.statusCode else 0);
  }

  /** A parsable URL whose fetch fails: only the GET is sent and the URL, as given, is reported invalid. */
  lemma FailedFetchReportsInvalidUrl<L, C>(githubToken: string, pullRequestUrl: Option<string>,
                                           fetchReply: Reply<PullJson>, labelReply: Reply<L>, commentReply: Reply<C>, ref: PullRequestRef)
    requires ParseUrl(Trim(UrlOf(pullRequestUrl))) == Some(ref)
    requires !FetchAccepted(fetchReply)
    ensures var r := WebTaskHandler(githubToken, pullRequestUrl, fetchReply, labelReply, commentReply);
      && |r.requests| == 1 && FetchesPullRequest(r.requests[0], githubToken, ref)
      && r.done == Done(None, InvalidUrlMessage(UrlOf(pullRequestUrl)))
  {
    FetchFailsWhen(GithubApi(ApiHost, githubToken), ref, fetchReply);
  }

  /** A fetched pull request whose title does not classify: only the GET is sent. */
  lemma UnclassifiedTitleSendsOnlyFetch<L, C>(githubToken: string, pullRequestUrl: Option<string>,
                                              fetchReply: Reply<PullJson>, labelReply: Reply<L>, commentReply: Reply<C>, ref: PullRequestRef)
    requires ParseUrl(Trim(UrlOf(pullRequestUrl))) == Some(ref)
    requires FetchAccepted(fetchReply)
    requires ParseTitle(fetchReply.body.value.title).None?
    ensures var r := WebTaskHandler(githubToken, pullRequestUrl, fetchReply, labelReply, commentReply);
      && |r.requests| == 1 && FetchesPullRequest(r.requests[0], githubToken, ref)
      && r.done == Done(None, GuidelinesMessage)
  {
    FetchFailsWhen(GithubApi(ApiHost, githubToken), ref, fetchReply);
  }

  /** The label POST for a classified pull request. */
  predicate PostsLabels(request: HttpRequest, githubToken: string, ref: PullRequestRef, info: TitleInfo) {
    && request.verb == Post
    && request.url == ApiHost + LabelsPath(ref.owner, ref.repository, ref.prNumber)
    && request.headers == Headers(githubToken)
    && request.payload == LabelsPayload(Labels(info))
  }

  /** The comment POST for a classified pull request. */
  predicate PostsWelcome(request: HttpRequest, githubToken: string, ref: PullRequestRef, userName: string) {
    && request.verb == Post
    && request.url == ApiHost + CommentsPath(ref.owner, ref.repository, ref.prNumber)
    && request.headers == Headers(githubToken)
    && request.payload == CommentPayload(WelcomeComment(userName))
  }

  /**
   * A fetched pull request whose title classifies: the GET, the labels and
   * the comment are sent, and success is reported exactly when both posts
   * are accepted, failure otherwise.
   */
  lemma ClassifiedTitleIsLabelled<L, C>(githubToken: string, pullRequestUrl: Option<string>,
                                        fetchReply: Reply<PullJson>, labelReply: Reply<L>, commentReply: Reply<C>,
                                        ref: PullRequestRef, info: TitleInfo)
    requires ParseUrl(Trim(UrlOf(pullRequestUrl))) == Some(ref)
    requires FetchAccepted(fetchReply)
    requires ParseTitle(fetchReply.body.value.title) == Some(info)
    ensures var r := WebTaskHandler(githubToken, pullRequestUrl, fetchReply, labelReply, commentReply);
      && |r.requests| == 3
      && FetchesPullRequest(r.requests[0], githubToken, ref)
      && PostsLabels(r.requests[1], githubToken, ref, info)
      && PostsWelcome(r.requests[2], githubToken, ref, fetchReply.body.value.user.value.login)
      && r.done.error == None
      && r.done.result == (if labelReply.Response? && StatusAccepted(labelReply.statusCode)
                              && commentReply.Response? && StatusAccepted(commentReply.statusCode)
                           then SuccessMessage else FailureMessage)
  {
    FetchFailsWhen(GithubApi(ApiHost, githubToken), ref, fetchReply);
  }

  /**
   * Labels and a comment are posted only for a pull request that follows
   * the contribution guidelines: the two POSTs after the GET are sent
   * exactly when the URL parses, the fetch succeeds and the title
   * classifies; otherwise at most the GET is sent.
   */
  lemma PostsOnlyWhenClassified<L, C>(githubToken: string, pullRequestUrl: Option<string>,
                                      fetchReply: Reply<PullJson>, labelReply: Reply<L>, commentReply: Reply<C>)
    ensures var rs := WebTaskHandler(githubToken, pullRequestUrl, fetchReply, labelReply, commentReply).requests;
      && (|rs| == 3 <==>
            && ParseUrl(Trim(UrlOf(pullRequestUrl))).Some?
            && FetchAccepted(fetchReply)
            && ParseTitle(fetchReply.body.value.title).Some?)
      && (|rs| != 3 ==> |rs| <= 1 && (rs != [] ==> rs[0].verb == Get))
  {
    match ParseUrl(Trim(UrlOf(pullRequestUrl)))
    case None =>
    case Some(ref) =>
      if !FetchAccepted(fetchReply) {
        FailedFetchReportsInvalidUrl(githubToken, pullRequestUrl, fetchReply, labelReply, commentReply, ref);
      } else if ParseTitle(fetchReply.body.value.title).None? {
        UnclassifiedTitleSendsOnlyFetch(githubToken, pullRequestUrl, fetchReply, labelReply, commentReply, ref);
      } else {
        ClassifiedTitleIsLabelled(githubToken, pullRequestUrl, fetchReply, labelReply, commentReply, ref,
                                  ParseTitle(fetchReply.body.value.title).value);
      }
  }

  /**
   * Success is reported exactly when every step succeeds: the URL parses,
   * the fetch is accepted with a user, the title classifies and both posts
   * are accepted.
   */
  lemma SuccessIffEveryStepSucceeds<L, C>(githubToken: string, pullRequestUrl: Option<string>,
                                          fetchReply: Reply<PullJson>, labelReply: Reply<L>, commentReply: Reply<C>)
    ensures WebTaskHandler(githubToken, pullRequestUrl, fetchReply, labelReply, commentReply).done.result == SuccessMessage <==>
      && ParseUrl(Trim(UrlOf(pullRequestUrl))).Some?
      && FetchAccepted(fetchReply)
      && ParseTitle(fetchReply.body.value.title).Some?
      && labelReply.Response? && StatusAccepted(labelReply.statusCode)
      && commentReply.Response? && StatusAccepted(commentReply.statusCode)
  {
    ResultMessagesDistinct(UrlOf(pullRequestUrl));
    match ParseUrl(Trim(UrlOf(pullRequestUrl)))
    case None =>
      InvalidUrlSendsNothing(githubToken, pullRequestUrl, fetchReply, labelReply, commentReply);
    case Some(ref) =>
      if !FetchAccepted(fetchReply) {
        FailedFetchReportsInvalidUrl(githubToken, pullRequestUrl, fetchReply, labelReply, commentReply, ref);
      } else if ParseTitle(fetchReply.body.value.title).None? {
        UnclassifiedTitleSendsOnlyFetch(githubToken, pullRequestUrl, fetchReply, labelReply, commentReply, ref);
      } else {
        ClassifiedTitleIsLabelled(githubToken, pullRequestUrl, fetchReply, labelReply, commentReply, ref,
                                  ParseTitle(fetchReply.body.value.title).value);
      }
  }

  /** White space around the URL changes nothing that is sent. */
  lemma SurroundingSpaceIgnored<L, C>(githubToken: string, url: string,
                                      fetchReply: Reply<PullJson>, labelReply: Reply<L>, commentReply: Reply<C>)
    ensures WebTaskHandler(githubToken, Some(url), fetchReply, labelReply, commentReply).requests
         == WebTaskHandler(githubToken, Some(Trim(url)), fetchReply, labelReply, commentReply).requests
  {
    TrimIdempotent(url);
  }
}
