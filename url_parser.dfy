/**
 * `PullRequestParser.parseUrl`: the match of
 * `^https:\/\/github.com\/(.+)\/(.+)\/pull\/(\d+)` at the start of a URL.
 * The dot in `github.com` is not escaped, so it stands for any character
 * other than a line terminator. The engine tries the greedy groups from
 * their longest extent down, owner first, then repository, then digits.
 *
 * A candidate match is named by three positions: `a`, the `/` that ends
 * the owner; `b`, where `/pull/` starts; and `z`, where the digits end.
 * The owner is `url[OwnerStart..a]`, the repository `url[a + 1..b]` and the
 * number `url[b + 6..z]`.
 */
module UrlParser {
  import opened Options
  import opened JsStrings

  /** The `{owner, repository, prNumber}` object; the number stays a digit string. */
  datatype PullRequestRef = PullRequestRef(owner: string, repository: string, prNumber: string)

  /** Length of `https://github` followed by the host character and `com/`. */
  const OwnerStart: nat := 19

  /** The text the pattern matches for a host character `c` and the three groups. */
  function UrlMatchText(c: char, owner: string, repository: string, prNumber: string): string {
    "https://github" + [c] + "com/" + owner + "/" + repository + "/pull/" + prNumber
  }

  /** The fixed head of the pattern, up to the owner, matches. */
  predicate HeadMatches(url: string) {
    && |url| >= OwnerStart
    && StartsWith(url, "https://github")
    && !IsLineTerminator(url[14])
    && url[15..OwnerStart] == "com/"
  }

  /** `/pull/` starts at `b`. */
  predicate PullAt(s: string, b: nat) {
    b + 6 <= |s| && s[b..b + 6] == "/pull/"
  }

  /**
   * The pattern matches a prefix of `url` with the owner ending at the `/`
   * at `a`, the repository ending where `/pull/` starts at `b`, and the
   * digits ending at `z`. Neither `.+` group crosses a line terminator.
   */
  ghost predicate UrlMatchAt(url: string, a: nat, b: nat, z: nat) {
    && HeadMatches(url)
    && OwnerStart < a && a + 1 < b && b + 6 < z <= |url|
    && url[a] == '/'
    && PullAt(url, b)
    && (forall k :: OwnerStart <= k < b ==> !IsLineTerminator(url[k]))
    && (forall k :: b + 6 <= k < z ==> IsDigit(url[k]))
  }

  /** The groups of the match (a, b, z). */
  function RefOf(url: string, a: nat, b: nat, z: nat): PullRequestRef
    requires OwnerStart <= a < b && b + 6 <= z <= |url|
  {
    PullRequestRef(url[OwnerStart..a], url[a + 1..b], url[b + 6..z])
  }

  /**
   * The engine tries (a', b', z') before (a, b, z): a longer owner first,
   * then a longer repository, then more digits.
   */
  ghost predicate UrlTriedBefore(a': nat, b': nat, z': nat, a: nat, b: nat, z: nat) {
    || a' > a
    || (a' == a && b' > b)
    || (a' == a && b' == b && z' > z)
  }

  /** (a, b, z) is a match and no match is tried before it. */
  ghost predicate IsFirstUrlMatch(url: string, a: nat, b: nat, z: nat) {
    && UrlMatchAt(url, a, b, z)
    && forall a': nat, b': nat, z': nat :: UrlMatchAt(url, a', b', z') ==> !UrlTriedBefore(a', b', z', a, b, z)
  }

  /** `p` followed by `q` starts `s` exactly when `p` does and `q` follows it. */
  lemma StartsWithConcat(s: string, p: string, q: string)
    ensures StartsWith(s, p + q) <==> StartsWith(s, p) && StartsWith(s[|p|..], q)
  {
    if StartsWith(s, p) && StartsWith(s[|p|..], q) {
      assert s[..|p + q|] == s[..|p|] + s[|p|..][..|q|];
    }
    if StartsWith(s, p + q) {
      assert s[..|p|] == s[..|p + q|][..|p|];
      assert s[|p|..][..|q|] == s[..|p + q|][|p|..];
    }
  }

  /** A prefix of the pattern's form with a one-line host character, groups and a digit number. */
  predicate LeadsWithUrlText(url: string, o: string, r: string, d: string) {
    && |url| > 14 && !IsLineTerminator(url[14])
    && |o| > 0 && NoLineTerminator(o)
    && |r| > 0 && NoLineTerminator(r)
    && |d| > 0 && AllDigits(d)
    && StartsWith(url, UrlMatchText(url[14], o, r, d))
  }

  /**
   * A match in this sense is exactly a prefix of the form
   * `https://github?com/owner/repository/pull/digits` whose host character
   * and groups have no line terminator and whose number is non-empty digits.
   */
  lemma UrlMatchIsText(url: string, o: string, r: string, d: string)
    requires |url| > 14
    ensures
      var a := OwnerStart + |o|;
      var b := a + 1 + |r|;
      var z := b + 6 + |d|;
      LeadsWithUrlText(url, o, r, d) <==> (UrlMatchAt(url, a, b, z) && RefOf(url, a, b, z) == PullRequestRef(o, r, d))
  {
    var a := OwnerStart + |o|;
    var b := a + 1 + |r|;
    var z := b + 6 + |d|;
    if LeadsWithUrlText(url, o, r, d) {
      SplitUrlText(url, o, r, d);
      SplitTextIsMatch(url, a, b, z);
    }
    if UrlMatchAt(url, a, b, z) && RefOf(url, a, b, z) == PullRequestRef(o, r, d) {
      JoinUrlText(url, a, b, z);
    }
  }

  /** The groups of a textual match, located in the URL. */
  lemma SplitUrlText(url: string, o: string, r: string, d: string)
    requires |url| > 14 && StartsWith(url, UrlMatchText(url[14], o, r, d))
    ensures
      var a := OwnerStart + |o|;
      var b := a + 1 + |r|;
      && b + 6 + |d| <= |url|
      && StartsWith(url, "https://github") && url[15..OwnerStart] == "com/"
      && url[OwnerStart..a] == o && url[a] == '/'
      && url[a + 1..b] == r && PullAt(url, b)
      && url[b + 6..b + 6 + |d|] == d
  {
    var a := OwnerStart + |o|;
    var b := a + 1 + |r|;
    var h := "https://github" + [url[14]] + "com/";
    StartsWithConcat(url, h + o + "/" + r + "/pull/", d);
    StartsWithConcat(url, h + o + "/" + r, "/pull/");
    StartsWithConcat(url, h + o + "/", r);
    StartsWithConcat(url, h + o, "/");
    StartsWithConcat(url, h, o);
    StartsWithConcat(url, "https://github" + [url[14]], "com/");
    StartsWithConcat(url, "https://github", [url[14]]);
    assert url[15..OwnerStart] == url[15..][..4];
    assert url[OwnerStart..a] == url[OwnerStart..][..|o|];
    assert url[a] == url[a..][..1][0];
    assert url[a + 1..b] == url[a + 1..][..|r|];
    assert url[b..b + 6] == url[b..][..6];
    assert url[b + 6..b + 6 + |d|] == url[b + 6..][..|d|];
  }

  /** The located pieces of a textual match satisfy `UrlMatchAt`. */
  lemma SplitTextIsMatch(url: string, a: nat, b: nat, z: nat)
    requires OwnerStart < a && a + 1 < b && b + 6 < z <= |url|
    requires StartsWith(url, "https://github") && !IsLineTerminator(url[14]) && url[15..OwnerStart] == "com/"
    requires NoLineTerminator(url[OwnerStart..a]) && url[a] == '/'
    requires NoLineTerminator(url[a + 1..b]) && PullAt(url, b)
    requires AllDigits(url[b + 6..z])
    ensures UrlMatchAt(url, a, b, z)
  {
    var o, r, d := url[OwnerStart..a], url[a + 1..b], url[b + 6..z];
    forall k | OwnerStart <= k < b ensures !IsLineTerminator(url[k]) {
      if k < a {
        assert url[k] == o[k - OwnerStart];
      } else if a < k {
        assert url[k] == r[k - a - 1];
      }
    }
    forall k | b + 6 <= k < z ensures IsDigit(url[k]) {
      assert url[k] == d[k - b - 6];
    }
  }

  /** The groups of a match put together again as text. */
  lemma JoinUrlText(url: string, a: nat, b: nat, z: nat)
    requires UrlMatchAt(url, a, b, z)
    ensures
      var ref := RefOf(url, a, b, z);
      && LeadsWithUrlText(url, ref.owner, ref.repository, ref.prNumber)
      && |UrlMatchText(url[14], ref.owner, ref.repository, ref.prNumber)| == z
  {
    var o, r, d := url[OwnerStart..a], url[a + 1..b], url[b + 6..z];
    forall k | 0 <= k < |o| ensures !IsLineTerminator(o[k]) {
      assert o[k] == url[OwnerStart + k];
    }
    forall k | 0 <= k < |r| ensures !IsLineTerminator(r[k]) {
      assert r[k] == url[a + 1 + k];
    }
    forall k | 0 <= k < |d| ensures IsDigit(d[k]) {
      assert d[k] == url[b + 6 + k];
    }
    var p := UrlMatchText(url[14], o, r, d);
    assert url[..14] == "https://github";
    assert url[..z] == url[..14] + [url[14]] + url[15..OwnerStart] + o + [url[a]] + r + url[b..b + 6] + d;
    assert url[..|p|] == p;
  }

  /** `/pull/` followed by a digit starts at `b`. */
  predicate PullMarkerAt(s: string, b: nat) {
    PullAt(s, b) && b + 6 < |s| && IsDigit(s[b + 6])
  }

  /** The greatest `b` with `lo <= b < hi` at which a pull marker starts. */
  function LastPullMarker(s: string, lo: nat, hi: nat): (r: Option<nat>)
    ensures r.Some? ==> lo <= r.value < hi && PullMarkerAt(s, r.value)
    decreases hi
  {
    if hi <= lo then None
    else if PullMarkerAt(s, hi - 1) then Some(hi - 1)
    else LastPullMarker(s, lo, hi - 1)
  }

  /** No pull marker in the range lies after the one `LastPullMarker` finds. */
  lemma {:induction false} LastPullMarkerIsLast(s: string, lo: nat, hi: nat, b: nat)
    requires lo <= b < hi && PullMarkerAt(s, b)
    ensures LastPullMarker(s, lo, hi).Some? && b <= LastPullMarker(s, lo, hi).value
    decreases hi
  {
    if b < hi - 1 && !PullMarkerAt(s, hi - 1) {
      LastPullMarkerIsLast(s, lo, hi - 1, b);
    }
  }

  /** The greatest `a` with `lo <= a < hi` that holds a `/`. */
  function LastSlash(s: string, lo: nat, hi: nat): (r: Option<nat>)
    requires hi <= |s|
    ensures r.Some? ==> lo <= r.value < hi && s[r.value] == '/'
    decreases hi
  {
    if hi <= lo then None
    else if s[hi - 1] == '/' then Some(hi - 1)
    else LastSlash(s, lo, hi - 1)
  }

  /** No `/` in the range lies after the one `LastSlash` finds. */
  lemma {:induction false} LastSlashIsLast(s: string, lo: nat, hi: nat, a: nat)
    requires lo <= a < hi <= |s| && s[a] == '/'
    ensures LastSlash(s, lo, hi).Some? && a <= LastSlash(s, lo, hi).value
    decreases hi
  {
    if a < hi - 1 && s[hi - 1] != '/' {
      LastSlashIsLast(s, lo, hi - 1, a);
    }
  }

  /** Every match has its `/pull/` followed by a digit, on the first line. */
  lemma MatchMarkerOnFirstLine(url: string, a: nat, b: nat, z: nat)
    requires UrlMatchAt(url, a, b, z)
    ensures PullMarkerAt(url, b)
    ensures OwnerStart + 3 <= b < LineEnd(url, OwnerStart)
  {
    assert url[b] == url[b..b + 6][0];
    LineEndBeyond(url, OwnerStart, b);
  }

  /** The third group of a match is always a run of digits the scan can reach. */
  lemma MatchDigitsWithinRun(url: string, a: nat, b: nat, z: nat)
    requires UrlMatchAt(url, a, b, z)
    ensures z <= DigitRunEnd(url, b + 6)
  {
    DigitRunReaches(url, b + 6, z);
  }

  /**
   * `parseUrl`: the groups of the first match in the engine's order, or
   * `None` exactly when the pattern does not match.
   */
  function ParseUrl(url: string): (res: Option<PullRequestRef>)
    ensures res.Some? ==> exists a: nat, b: nat, z: nat ::
      IsFirstUrlMatch(url, a, b, z) && res.value == RefOf(url, a, b, z)
    ensures res.None? <==> forall a: nat, b: nat, z: nat :: !UrlMatchAt(url, a, b, z)
  {
    if !HeadMatches(url) then None
    else
      var e := LineEnd(url, OwnerStart);
      match LastPullMarker(url, OwnerStart + 3, e)
      case None =>
        NoMarkerNoMatch(url);
        None
      case Some(b) =>
        match LastSlash(url, OwnerStart + 1, b - 1)
        case None =>
          NoSlashNoMatch(url, b);
          None
        case Some(a) =>
          var z := DigitRunEnd(url, b + 6);
          FirstUrlMatchFound(url, a, b, z);
          Some(RefOf(url, a, b, z))
  }

  lemma NoMarkerNoMatch(url: string)
    requires HeadMatches(url)
    requires LastPullMarker(url, OwnerStart + 3, LineEnd(url, OwnerStart)).None?
    ensures forall a: nat, b: nat, z: nat :: !UrlMatchAt(url, a, b, z)
  {
    forall a: nat, b: nat, z: nat | UrlMatchAt(url, a, b, z) ensures false {
      MatchMarkerOnFirstLine(url, a, b, z);
      LastPullMarkerIsLast(url, OwnerStart + 3, LineEnd(url, OwnerStart), b);
    }
  }

  /** Every match uses a pull marker no later than the last one on the first line. */
  lemma MarkerBoundsMatch(url: string, b: nat, a': nat, b': nat, z': nat)
    requires HeadMatches(url)
    requires LastPullMarker(url, OwnerStart + 3, LineEnd(url, OwnerStart)) == Some(b)
    requires UrlMatchAt(url, a', b', z')
    ensures b' <= b
  {
    MatchMarkerOnFirstLine(url, a', b', z');
    LastPullMarkerIsLast(url, OwnerStart + 3, LineEnd(url, OwnerStart), b');
  }

  lemma NoSlashNoMatch(url: string, b: nat)
    requires HeadMatches(url)
    requires LastPullMarker(url, OwnerStart + 3, LineEnd(url, OwnerStart)) == Some(b)
    requires LastSlash(url, OwnerStart + 1, b - 1).None?
    ensures forall a: nat, b': nat, z: nat :: !UrlMatchAt(url, a, b', z)
  {
    forall a: nat, b': nat, z: nat | UrlMatchAt(url, a, b', z) ensures false {
      MarkerBoundsMatch(url, b, a, b', z);
      LastSlashIsLast(url, OwnerStart + 1, b - 1, a);
    }
  }

  /** The groups `ParseUrl` cuts out form the first match. */
  lemma FirstUrlMatchFound(url: string, a: nat, b: nat, z: nat)
    requires HeadMatches(url)
    requires LastPullMarker(url, OwnerStart + 3, LineEnd(url, OwnerStart)) == Some(b)
    requires LastSlash(url, OwnerStart + 1, b - 1) == Some(a)
    requires z == DigitRunEnd(url, b + 6)
    ensures IsFirstUrlMatch(url, a, b, z)
  {
    FoundIsMatch(url, a, b, z);
    forall a': nat, b': nat, z': nat | UrlMatchAt(url, a', b', z')
      ensures !UrlTriedBefore(a', b', z', a, b, z)
    {
      FoundComesFirst(url, a, b, z, a', b', z');
    }
  }

  lemma FoundIsMatch(url: string, a: nat, b: nat, z: nat)
    requires HeadMatches(url)
    requires LastPullMarker(url, OwnerStart + 3, LineEnd(url, OwnerStart)) == Some(b)
    requires LastSlash(url, OwnerStart + 1, b - 1) == Some(a)
    requires z == DigitRunEnd(url, b + 6)
    ensures UrlMatchAt(url, a, b, z)
  {
    var e := LineEnd(url, OwnerStart);
    assert z > b + 6 by {
      assert IsDigit(url[b + 6]);
    }
    var d := url[b + 6..z];
    forall k | b + 6 <= k < z ensures IsDigit(url[k]) {
      assert url[k] == d[k - b - 6];
    }
  }

  lemma FoundComesFirst(url: string, a: nat, b: nat, z: nat, a': nat, b': nat, z': nat)
    requires HeadMatches(url)
    requires LastPullMarker(url, OwnerStart + 3, LineEnd(url, OwnerStart)) == Some(b)
    requires LastSlash(url, OwnerStart + 1, b - 1) == Some(a)
    requires z == DigitRunEnd(url, b + 6)
    requires UrlMatchAt(url, a', b', z')
    ensures !UrlTriedBefore(a', b', z', a, b, z)
  {
    MarkerBoundsMatch(url, b, a', b', z');
    LastSlashIsLast(url, OwnerStart + 1, b - 1, a');
    if a' == a && b' == b {
      MatchDigitsWithinRun(url, a', b', z');
    }
  }
}

module UrlParserFacts {
  import opened Options
  import opened JsStrings
  import opened UrlParser

  /** The engine's order is strict, so there is only one first match. */
  lemma FirstUrlMatchUnique(url: string, a: nat, b: nat, z: nat, a': nat, b': nat, z': nat)
    requires IsFirstUrlMatch(url, a, b, z) && IsFirstUrlMatch(url, a', b', z')
    ensures a == a' && b == b' && z == z'
  {
    assert !UrlTriedBefore(a', b', z', a, b, z) && !UrlTriedBefore(a, b, z, a', b', z');
  }

  /** `parseUrl` returns exactly the groups of the first match. */
  lemma ParseUrlIsFirstMatch(url: string, ref: PullRequestRef)
    ensures ParseUrl(url) == Some(ref)
        <==> exists a: nat, b: nat, z: nat :: IsFirstUrlMatch(url, a, b, z) && ref == RefOf(url, a, b, z)
  {
    if a: nat, b: nat, z: nat :| IsFirstUrlMatch(url, a, b, z) && ref == RefOf(url, a, b, z) {
      var res := ParseUrl(url);
      assert res.Some?;
      var a': nat, b': nat, z': nat :| IsFirstUrlMatch(url, a', b', z') && res.value == RefOf(url, a', b', z');
      FirstUrlMatchUnique(url, a, b, z, a', b', z');
    }
  }

  /** `parseUrl` returns `null` exactly when the URL has no prefix of the pattern's form. */
  lemma UnparsableIffNoPrefix(url: string)
    ensures ParseUrl(url).None? <==> forall o, r, d :: !LeadsWithUrlText(url, o, r, d)
  {
    if ParseUrl(url).Some? {
      var ref := ParseUrl(url).value;
      var a: nat, b: nat, z: nat :| IsFirstUrlMatch(url, a, b, z) && ref == RefOf(url, a, b, z);
      JoinUrlText(url, a, b, z);
      assert LeadsWithUrlText(url, ref.owner, ref.repository, ref.prNumber);
    } else {
      forall o, r, d | |url| > 14 ensures !LeadsWithUrlText(url, o, r, d) {
        UrlMatchIsText(url, o, r, d);
      }
    }
  }

  /** The empty string is not a pull-request URL. */
  lemma EmptyUrlIsInvalid()
    ensures ParseUrl("") == None
  {
  }

  /**
   * What `parseUrl` returns is a non-empty owner and repository without line
   * terminators and a non-empty digit string that together spell a prefix
   * of the URL, and the digit run is maximal: the character after it, if
   * any, is not a digit.
   */
  lemma ParsedUrlShape(url: string)
    ensures ParseUrl(url).Some? ==>
      var ref := ParseUrl(url).value;
      var n := |UrlMatchText(url[14], ref.owner, ref.repository, ref.prNumber)|;
      && |url| > 14 && StartsWith(url, UrlMatchText(url[14], ref.owner, ref.repository, ref.prNumber))
      && |ref.owner| > 0 && NoLineTerminator(ref.owner)
      && |ref.repository| > 0 && NoLineTerminator(ref.repository)
      && |ref.prNumber| > 0 && AllDigits(ref.prNumber)
      && (n < |url| ==> !IsDigit(url[n]))
  {
    if ParseUrl(url).Some? {
      var ref := ParseUrl(url).value;
      var a: nat, b: nat, z: nat :| IsFirstUrlMatch(url, a, b, z) && ref == RefOf(url, a, b, z);
      JoinUrlText(url, a, b, z);
      FirstMatchDigitsMaximal(url, a, b, z);
    }
  }

  /** The first match takes every digit that follows `/pull/`. */
  lemma FirstMatchDigitsMaximal(url: string, a: nat, b: nat, z: nat)
    requires IsFirstUrlMatch(url, a, b, z)
    ensures z < |url| ==> !IsDigit(url[z])
  {
    if z < |url| && IsDigit(url[z]) {
      DigitExtendsMatch(url, a, b, z);
    }
  }

  /** A match followed by a digit extends to a match with one more digit. */
  lemma DigitExtendsMatch(url: string, a: nat, b: nat, z: nat)
    requires UrlMatchAt(url, a, b, z) && z < |url| && IsDigit(url[z])
    ensures UrlMatchAt(url, a, b, z + 1)
  {
  }

  /**
   * A URL that starts with a match, whose repository has no `/`, whose digit
   * run ends the match, and whose first line has no further pull marker,
   * parses to exactly those groups: text after the digit run is ignored.
   */
  lemma LeadingUrlParses(url: string, c: char, o: string, r: string, d: string, rest: string)
    requires !IsLineTerminator(c)
    requires |o| > 0 && NoLineTerminator(o)
    requires |r| > 0 && NoLineTerminator(r) && '/' !in r
    requires |d| > 0 && AllDigits(d)
    requires url == UrlMatchText(c, o, r, d) + rest
    requires rest != [] ==> !IsDigit(rest[0])
    requires forall q :: 0 <= q < LineEnd(rest, 0) ==> !PullMarkerAt(rest, q)
    ensures ParseUrl(url) == Some(PullRequestRef(o, r, d))
  {
    var p := UrlMatchText(c, o, r, d);
    var a := OwnerStart + |o|;
    var b := a + 1 + |r|;
    var z := b + 6 + |d|;
    LeadingFacts(url, c, o, r, d, rest);
    forall a': nat, b': nat, z': nat | UrlMatchAt(url, a', b', z') ensures !UrlTriedBefore(a', b', z', a, b, z) {
      MatchMarkerOnFirstLine(url, a', b', z');
      LeadingComesFirst(url, a, b, z, a', b', z');
    }
    ParseUrlIsFirstMatch(url, PullRequestRef(o, r, d));
  }

  /** The leading match, and the facts about the URL that make it the first. */
  lemma LeadingFacts(url: string, c: char, o: string, r: string, d: string, rest: string)
    requires !IsLineTerminator(c)
    requires |o| > 0 && NoLineTerminator(o)
    requires |r| > 0 && NoLineTerminator(r) && '/' !in r
    requires |d| > 0 && AllDigits(d)
    requires url == UrlMatchText(c, o, r, d) + rest
    requires rest != [] ==> !IsDigit(rest[0])
    requires forall q :: 0 <= q < LineEnd(rest, 0) ==> !PullMarkerAt(rest, q)
    ensures
      var a := OwnerStart + |o|;
      var b := a + 1 + |r|;
      var z := b + 6 + |d|;
      && UrlMatchAt(url, a, b, z) && RefOf(url, a, b, z) == PullRequestRef(o, r, d)
      && (forall k :: a < k < b ==> url[k] != '/')
      && (z < |url| ==> !IsDigit(url[z]))
      && (forall q: nat :: PullMarkerAt(url, q) && OwnerStart <= q < LineEnd(url, OwnerStart) ==> q <= b)
  {
    var p := UrlMatchText(c, o, r, d);
    var a := OwnerStart + |o|;
    var b := a + 1 + |r|;
    assert url[..|p|] == p;
    assert url[14] == c;
    UrlMatchIsText(url, o, r, d);
    SplitUrlText(url, o, r, d);
    NoSlashInside(url, a, b);
    NoDigitAfter(url, p, rest);
    LeadingMarkerIsLast(url, c, o, r, d, rest);
  }

  /** No pull marker on the first line lies after the one of the leading match. */
  lemma LeadingMarkerIsLast(url: string, c: char, o: string, r: string, d: string, rest: string)
    requires |d| > 0 && AllDigits(d)
    requires url == UrlMatchText(c, o, r, d) + rest
    requires forall q :: 0 <= q < LineEnd(rest, 0) ==> !PullMarkerAt(rest, q)
    ensures forall q: nat :: PullMarkerAt(url, q) && OwnerStart <= q < LineEnd(url, OwnerStart) ==> q <= OwnerStart + |o| + 1 + |r|
  {
    forall q: nat | PullMarkerAt(url, q) && OwnerStart <= q < LineEnd(url, OwnerStart)
      ensures q <= OwnerStart + |o| + 1 + |r|
    {
      MarkerNotAfterMatch(url, c, o, r, d, rest, q);
    }
  }

  /**
   * The order argument of `LeadingUrlParses`: a match whose marker is not
   * later, whose owner cannot end inside the repository, and whose digits
   * cannot run past `z` is not tried before (a, b, z).
   */
  lemma LeadingComesFirst(url: string, a: nat, b: nat, z: nat, a': nat, b': nat, z': nat)
    requires UrlMatchAt(url, a', b', z') && b + 6 <= z && b <= |url|
    requires b' <= b
    requires forall k :: a < k < b ==> url[k] != '/'
    requires z < |url| ==> !IsDigit(url[z])
    ensures !UrlTriedBefore(a', b', z', a, b, z)
  {
  }

  /** A stretch of the URL without `/` holds no `/` at any of its positions. */
  lemma NoSlashInside(url: string, a: nat, b: nat)
    requires a < b <= |url| && '/' !in url[a + 1..b]
    ensures forall k :: a < k < b ==> url[k] != '/'
  {
    forall k | a < k < b ensures url[k] != '/' {
      assert url[k] == url[a + 1..b][k - a - 1];
    }
  }

  /** The character after the leading text is the first character of the rest. */
  lemma NoDigitAfter(url: string, p: string, rest: string)
    requires url == p + rest && (rest != [] ==> !IsDigit(rest[0]))
    ensures |p| < |url| ==> !IsDigit(url[|p|])
  {
    if |p| < |url| {
      assert url[|p|] == rest[0];
    }
  }

  /** The last pull marker on the first line is the one of the leading match. */
  lemma MarkerNotAfterMatch(url: string, c: char, o: string, r: string, d: string, rest: string, q: nat)
    requires |d| > 0 && AllDigits(d)
    requires url == UrlMatchText(c, o, r, d) + rest
    requires forall m :: 0 <= m < LineEnd(rest, 0) ==> !PullMarkerAt(rest, m)
    requires PullMarkerAt(url, q) && OwnerStart <= q < LineEnd(url, OwnerStart)
    ensures q <= OwnerStart + |o| + 1 + |r|
  {
    var p := UrlMatchText(c, o, r, d);
    var n := |p|;
    assert url[..n] == p;
    assert url[q] == url[q..q + 6][0] == '/';
    assert url[q + 1] == url[q..q + 6][1] == 'p';
    MarkerInRest(url, p, rest, q);
  }

  /** A pull marker on the first line past the leading text is one on the first line of the rest. */
  lemma MarkerInRest(url: string, p: string, rest: string, q: nat)
    requires url == p + rest && OwnerStart <= |p|
    requires PullMarkerAt(url, q) && OwnerStart <= q < LineEnd(url, OwnerStart)
    ensures q >= |p| ==> q - |p| < LineEnd(rest, 0) && PullMarkerAt(rest, q - |p|)
  {
    var n := |p|;
    if q >= n {
      var m := q - n;
      forall k | 0 <= k <= m ensures !IsLineTerminator(rest[k]) {
        assert rest[k] == url[n + k];
      }
      LineEndBeyond(rest, 0, m);
      assert rest[m..m + 6] == url[q..q + 6];
      assert rest[m + 6] == url[q + 6];
    }
  }

  /** `https://github.com/acme/widgets/pull/42` names pull request 42 of acme/widgets. */
  lemma ExamplePullRequestUrl(url: string)
    requires url == UrlMatchText('.', "acme", "widgets", "42")
    ensures ParseUrl(url) == Some(PullRequestRef("acme", "widgets", "42"))
  {
    assert url == UrlMatchText('.', "acme", "widgets", "42") + "";
    LeadingUrlParses(url, '.', "acme", "widgets", "42", "");
  }

  /** A path after the number, such as the `/files` tab, is ignored. */
  lemma ExampleFilesTabUrl(url: string)
    requires url == UrlMatchText('.', "acme", "widgets", "42") + "/files"
    ensures ParseUrl(url) == Some(PullRequestRef("acme", "widgets", "42"))
  {
    LeadingUrlParses(url, '.', "acme", "widgets", "42", "/files");
  }

  /** The owner group is greedy: in `https://github.com/a/b/c/pull/7` the owner is `a/b`. */
  lemma ExampleGreedyOwner(url: string)
    requires url == UrlMatchText('.', "a/b", "c", "7")
    ensures ParseUrl(url) == Some(PullRequestRef("a/b", "c", "7"))
  {
    assert url == UrlMatchText('.', "a/b", "c", "7") + "";
    LeadingUrlParses(url, '.', "a/b", "c", "7", "");
  }

  /** The unescaped dot in the pattern accepts any character there, as in `githubXcom`. */
  lemma ExampleAnyHostCharacter(url: string)
    requires url == UrlMatchText('X', "acme", "widgets", "1")
    ensures ParseUrl(url) == Some(PullRequestRef("acme", "widgets", "1"))
  {
    assert url == UrlMatchText('X', "acme", "widgets", "1") + "";
    LeadingUrlParses(url, 'X', "acme", "widgets", "1", "");
  }

  /** Plain `http` never matches: the pattern is anchored on `https://github`. */
  lemma PlainHttpIsInvalid(url: string)
    requires StartsWith(url, "http://")
    ensures ParseUrl(url) == None
  {
    assert url[4] == ':' != "https://github"[4];
  }
}
