/**
 * `PullRequestParser.parseTitle`: the first match of the pattern
 * `(chore|fix|feature)\((.+)\):` anywhere in a title, as the JavaScript
 * regular-expression engine finds it. The engine tries start positions
 * from left to right, the three alternatives in their listed order, and
 * the greedy `.+` from its longest extent down; the result is the first
 * candidate in that order that completes a match.
 *
 * A candidate match is named by where it starts, which alternative it
 * takes, and where the `):` that closes the feature sits. The feature is
 * the text between the `(` and that `):`.
 */
module TitleParser {
  import opened Options
  import opened JsStrings

  /** The closed set of pull-request types named in the pattern. */
  datatype Kind = Chore | Fix | Feature

  function KindName(k: Kind): string {
    match k
    case Chore => "chore"
    case Fix => "fix"
    case Feature => "feature"
  }

  /** The position of the type in the pattern's alternation. */
  function KindIndex(k: Kind): nat {
    match k
    case Chore => 0
    case Fix => 1
    case Feature => 2
  }

  /** The `{type, feature}` object that `parseTitle` returns. */
  datatype TitleInfo = TitleInfo(kind: Kind, feature: string)

  /** The text the whole pattern matches for a given type and feature. */
  function TitleMatchText(k: Kind, feature: string): string {
    KindName(k) + "(" + feature + "):"
  }

  /** Where the feature of a match at `i` with type `k` begins: after the `(`. */
  function FeatureStart(i: nat, k: Kind): nat {
    i + |KindName(k)| + 1
  }

  /** `s` continues with `):` at position `m`. */
  predicate CloserAt(s: string, m: nat) {
    m + 1 < |s| && s[m] == ')' && s[m + 1] == ':'
  }

  /**
   * The pattern matches at position `i` of `title` with the first group
   * `KindName(k)` and the second group `title[FeatureStart(i, k)..m]`:
   * the type and `(`, then at least one character that is not a line
   * terminator, then `):` at `m`.
   */
  ghost predicate TitleMatchAt(title: string, i: nat, k: Kind, m: nat) {
    && i <= |title|
    && StartsWith(title[i..], KindName(k) + "(")
    && FeatureStart(i, k) < m
    && CloserAt(title, m)
    && forall j :: FeatureStart(i, k) <= j < m ==> !IsLineTerminator(title[j])
  }

  /** The engine tries the candidate (j, k', m') before the candidate (i, k, m). */
  ghost predicate TriedBefore(j: nat, k': Kind, m': nat, i: nat, k: Kind, m: nat) {
    || j < i
    || (j == i && KindIndex(k') < KindIndex(k))
    || (j == i && k' == k && m' > m)
  }

  /** (i, k, m) is a match and no match is tried before it. */
  ghost predicate IsFirstTitleMatch(title: string, i: nat, k: Kind, m: nat) {
    && TitleMatchAt(title, i, k, m)
    && forall j: nat, k', m': nat :: TitleMatchAt(title, j, k', m') ==> !TriedBefore(j, k', m', i, k, m)
  }

  /**
   * A match in this sense is exactly an occurrence of the text
   * `type(feature):` whose feature is non-empty and stays on one line.
   */
  lemma TitleMatchIsText(title: string, i: nat, k: Kind, f: string)
    requires i <= |title|
    ensures
      (|f| > 0 && NoLineTerminator(f) && StartsWith(title[i..], TitleMatchText(k, f)))
      <==>
      (&& TitleMatchAt(title, i, k, FeatureStart(i, k) + |f|)
       && title[FeatureStart(i, k)..FeatureStart(i, k) + |f|] == f)
  {
    var start, m := FeatureStart(i, k), FeatureStart(i, k) + |f|;
    if |f| > 0 && NoLineTerminator(f) && StartsWith(title[i..], TitleMatchText(k, f)) {
      SplitText(title, i, k, f);
    }
    if TitleMatchAt(title, i, k, m) && title[start..m] == f {
      JoinText(title, i, k, f);
    }
  }

  lemma SplitText(title: string, i: nat, k: Kind, f: string)
    requires i <= |title| && |f| > 0 && NoLineTerminator(f)
    requires StartsWith(title[i..], TitleMatchText(k, f))
    ensures TitleMatchAt(title, i, k, FeatureStart(i, k) + |f|)
    ensures title[FeatureStart(i, k)..FeatureStart(i, k) + |f|] == f
  {
    var n := |KindName(k)| + 1;
    var p := TitleMatchText(k, f);
    var w := title[i..i + |p|];
    assert w == title[i..][..|p|] == p;
    assert p[..n] == KindName(k) + "(";
    assert title[i..][..n] == w[..n];
    assert |p| == n + |f| + 2;
    var x := title[i + n..i + n + |f|];
    forall q | 0 <= q < |f| ensures x[q] == f[q] {
      assert x[q] == w[n + q] == p[n + q];
    }
    assert x == f;
    assert title[i + n + |f|] == p[n + |f|] == ')';
    assert title[i + n + |f| + 1] == p[n + |f| + 1] == ':';
    forall j | i + n <= j < i + n + |f| ensures !IsLineTerminator(title[j]) {
      assert title[j] == x[j - i - n];
    }
  }

  lemma JoinText(title: string, i: nat, k: Kind, f: string)
    requires i <= |title| && TitleMatchAt(title, i, k, FeatureStart(i, k) + |f|)
    requires title[FeatureStart(i, k)..FeatureStart(i, k) + |f|] == f
    ensures |f| > 0 && NoLineTerminator(f) && StartsWith(title[i..], TitleMatchText(k, f))
  {
    var start, m := FeatureStart(i, k), FeatureStart(i, k) + |f|;
    var p := TitleMatchText(k, f);
    forall q | 0 <= q < |f| ensures !IsLineTerminator(f[q]) {
      assert f[q] == title[start + q];
    }
    assert title[i..][..|p|] == title[i..start] + title[start..m] + title[m..m + 2];
    assert title[i..start] == title[i..][..|KindName(k)| + 1] == KindName(k) + "(";
    assert title[m..m + 2] == "):";
  }

  /** At most one of the three alternatives, followed by `(`, starts a string. */
  lemma AlternativeIsUnique(t: string, a: Kind)
    requires StartsWith(t, KindName(a) + "(")
    ensures forall b :: StartsWith(t, KindName(b) + "(") ==> b == a
  {
    forall b | StartsWith(t, KindName(b) + "(") ensures b == a {
      assert t[0] == (KindName(a) + "(")[0] == (KindName(b) + "(")[0];
      assert t[1] == (KindName(a) + "(")[1] == (KindName(b) + "(")[1];
    }
  }

  /** The alternative, followed by `(`, that matches at position `i`, if any. */
  function KindAt(s: string, i: nat): (r: Option<Kind>)
    requires i <= |s|
    ensures r.Some? ==> StartsWith(s[i..], KindName(r.value) + "(")
  {
    if StartsWith(s[i..], "chore(") then Some(Chore)
    else if StartsWith(s[i..], "fix(") then Some(Fix)
    else if StartsWith(s[i..], "feature(") then Some(Feature)
    else None
  }

  /** `KindAt` finds whichever alternative starts at `i`. */
  lemma KindAtFinds(s: string, i: nat, k: Kind)
    requires i <= |s| && StartsWith(s[i..], KindName(k) + "(")
    ensures KindAt(s, i) == Some(k)
  {
    AlternativeIsUnique(s[i..], k);
  }

  /** The greatest `m` with `lo <= m < hi` at which `s` continues with `):`. */
  function LastCloser(s: string, lo: nat, hi: nat): (r: Option<nat>)
    ensures r.Some? ==> lo <= r.value < hi && CloserAt(s, r.value)
    decreases hi
  {
    if hi <= lo then None
    else if CloserAt(s, hi - 1) then Some(hi - 1)
    else LastCloser(s, lo, hi - 1)
  }

  /** No `):` in the range lies after the one `LastCloser` finds. */
  lemma {:induction false} LastCloserIsLast(s: string, lo: nat, hi: nat, m: nat)
    requires lo <= m < hi && CloserAt(s, m)
    ensures LastCloser(s, lo, hi).Some? && m <= LastCloser(s, lo, hi).value
    decreases hi
  {
    if m < hi - 1 && !CloserAt(s, hi - 1) {
      LastCloserIsLast(s, lo, hi - 1, m);
    }
  }

  /** A match at `i` takes the alternative `KindAt` finds and closes on the feature's line. */
  lemma MatchShape(s: string, i: nat, k: Kind, m: nat)
    requires TitleMatchAt(s, i, k, m)
    ensures KindAt(s, i) == Some(k)
    ensures m < LineEnd(s, FeatureStart(i, k))
  {
    KindAtFinds(s, i, k);
    LineEndBeyond(s, FeatureStart(i, k), m);
  }

  /** A match together with the position where it starts. */
  datatype Located = Located(position: nat, kind: Kind, end: nat)

  /**
   * The match the engine finds at position `i`, if any: the alternative
   * that starts there, and the last `):` on the feature's line.
   */
  function MatchAt(s: string, i: nat): (r: Option<Located>)
    requires i <= |s|
    ensures r.Some? ==> r.value.position == i && TitleMatchAt(s, i, r.value.kind, r.value.end)
    ensures r.Some? ==> forall k, m: nat :: TitleMatchAt(s, i, k, m) ==> k == r.value.kind && m <= r.value.end
    ensures r.None? ==> forall k, m: nat :: !TitleMatchAt(s, i, k, m)
  {
    match KindAt(s, i)
    case None =>
      NoAlternativeNoMatch(s, i);
      None
    case Some(k) =>
      var start := FeatureStart(i, k);
      var e := LineEnd(s, start);
      var closer := LastCloser(s, start + 1, e);
      MatchesEndByLastCloser(s, i, k);
      match closer
      case None => None
      case Some(m) => Some(Located(i, k, m))
  }

  lemma NoAlternativeNoMatch(s: string, i: nat)
    requires i <= |s| && KindAt(s, i).None?
    ensures forall k, m: nat :: !TitleMatchAt(s, i, k, m)
  {
    forall k, m: nat | TitleMatchAt(s, i, k, m) ensures false {
      MatchShape(s, i, k, m);
    }
  }

  /**
   * With the alternative fixed, the match at `i` is the one that closes at
   * the last `):` on the line, and there is none when the line has no `):`.
   */
  lemma MatchesEndByLastCloser(s: string, i: nat, k: Kind)
    requires i <= |s| && KindAt(s, i) == Some(k)
    ensures
      var start := FeatureStart(i, k);
      var closer := LastCloser(s, start + 1, LineEnd(s, start));
      && (closer.Some? ==> TitleMatchAt(s, i, k, closer.value))
      && (forall k', m: nat :: TitleMatchAt(s, i, k', m) ==> k' == k && closer.Some? && m <= closer.value)
  {
    LastCloserMatches(s, i, k);
    forall k', m: nat | TitleMatchAt(s, i, k', m)
      ensures k' == k
      ensures
        var start := FeatureStart(i, k);
        var closer := LastCloser(s, start + 1, LineEnd(s, start));
        closer.Some? && m <= closer.value
    {
      NoMatchBeyondLastCloser(s, i, k, k', m);
    }
  }

  lemma LastCloserMatches(s: string, i: nat, k: Kind)
    requires i <= |s| && KindAt(s, i) == Some(k)
    ensures
      var start := FeatureStart(i, k);
      var closer := LastCloser(s, start + 1, LineEnd(s, start));
      closer.Some? ==> TitleMatchAt(s, i, k, closer.value)
  {
  }

  lemma NoMatchBeyondLastCloser(s: string, i: nat, k: Kind, k': Kind, m: nat)
    requires i <= |s| && KindAt(s, i) == Some(k)
    requires TitleMatchAt(s, i, k', m)
    ensures k' == k
    ensures
      var start := FeatureStart(i, k);
      var closer := LastCloser(s, start + 1, LineEnd(s, start));
      closer.Some? && m <= closer.value
  {
    MatchShape(s, i, k', m);
    LastCloserIsLast(s, FeatureStart(i, k) + 1, LineEnd(s, FeatureStart(i, k)), m);
  }

  /** No match starts at `from` or later. */
  ghost predicate NoTitleMatchFrom(s: string, from: nat) {
    forall j: nat, k, m: nat :: from <= j && TitleMatchAt(s, j, k, m) ==> false
  }

  /** No match starting at `from` or later is tried before (i, k, m). */
  ghost predicate NoneTriedBeforeFrom(s: string, from: nat, i: nat, k: Kind, m: nat) {
    forall j: nat, k', m': nat :: from <= j && TitleMatchAt(s, j, k', m') ==> !TriedBefore(j, k', m', i, k, m)
  }

  /** The first match at a position `from` or later. */
  function FindTitleFrom(s: string, from: nat): (r: Option<Located>)
    requires from <= |s|
    ensures r.Some? ==> from <= r.value.position <= |s|
    ensures r.Some? ==> TitleMatchAt(s, r.value.position, r.value.kind, r.value.end)
    ensures r.Some? ==> NoneTriedBeforeFrom(s, from, r.value.position, r.value.kind, r.value.end)
    ensures r.None? ==> NoTitleMatchFrom(s, from)
    decreases |s| - from
  {
    match MatchAt(s, from)
    case Some(loc) =>
      FirstAtStart(s, from, loc);
      Some(loc)
    case None =>
      if from == |s| then None
      else
        var r := FindTitleFrom(s, from + 1);
        if r.Some? then
          NoneTriedBeforeStep(s, from, r.value.position, r.value.kind, r.value.end);
          r
        else
          NoTitleMatchStep(s, from);
          r
  }

  /** The match `MatchAt` finds at `from` comes before every later one. */
  lemma FirstAtStart(s: string, from: nat, loc: Located)
    requires from <= |s| && MatchAt(s, from) == Some(loc)
    ensures NoneTriedBeforeFrom(s, from, from, loc.kind, loc.end)
  {
  }

  lemma NoneTriedBeforeStep(s: string, from: nat, i: nat, k: Kind, m: nat)
    requires from < |s| && MatchAt(s, from).None?
    requires NoneTriedBeforeFrom(s, from + 1, i, k, m)
    ensures NoneTriedBeforeFrom(s, from, i, k, m)
  {
  }

  lemma NoTitleMatchStep(s: string, from: nat)
    requires from < |s| && MatchAt(s, from).None?
    requires NoTitleMatchFrom(s, from + 1)
    ensures NoTitleMatchFrom(s, from)
  {
  }

  /** The feature of a match: the text between the `(` and the `):`. */
  function FeatureOf(title: string, loc: Located): string
    requires FeatureStart(loc.position, loc.kind) <= loc.end <= |title|
  {
    title[FeatureStart(loc.position, loc.kind)..loc.end]
  }

  /**
   * `parseTitle`: the type and feature of the first match in the engine's
   * order, or `None` exactly when the pattern matches nowhere.
   */
  function ParseTitle(title: string): (r: Option<TitleInfo>)
    ensures r.Some? ==> exists i: nat, m: nat ::
      && IsFirstTitleMatch(title, i, r.value.kind, m)
      && r.value.feature == title[FeatureStart(i, r.value.kind)..m]
    ensures r.None? <==> forall i: nat, k, m: nat :: !TitleMatchAt(title, i, k, m)
  {
    match FindTitleFrom(title, 0)
    case None =>
      assert NoTitleMatchFrom(title, 0);
      None
    case Some(loc) =>
      assert IsFirstTitleMatch(title, loc.position, loc.kind, loc.end);
      Some(TitleInfo(loc.kind, FeatureOf(title, loc)))
  }
}

module TitleParserFacts {
  import opened Options
  import opened JsStrings
  import opened TitleParser

  /** The engine's order is strict, so there is only one first match. */
  lemma FirstTitleMatchUnique(title: string, i: nat, k: Kind, m: nat, i': nat, k': Kind, m': nat)
    requires IsFirstTitleMatch(title, i, k, m) && IsFirstTitleMatch(title, i', k', m')
    ensures i == i' && k == k' && m == m'
  {
    assert !TriedBefore(i', k', m', i, k, m) && !TriedBefore(i, k, m, i', k', m');
    assert KindIndex(k) == KindIndex(k');
  }

  /**
   * `parseTitle` returns `{type, feature}` exactly for the first match in the
   * engine's order.
   */
  lemma ParseTitleIsFirstMatch(title: string, k: Kind, f: string)
    ensures ParseTitle(title) == Some(TitleInfo(k, f))
        <==> exists i: nat, m: nat :: IsFirstTitleMatch(title, i, k, m) && f == title[FeatureStart(i, k)..m]
  {
    if i: nat, m: nat :| IsFirstTitleMatch(title, i, k, m) && f == title[FeatureStart(i, k)..m] {
      var r := ParseTitle(title);
      assert r.Some?;
      var i': nat, m': nat :| IsFirstTitleMatch(title, i', r.value.kind, m') && r.value.feature == title[FeatureStart(i', r.value.kind)..m'];
      FirstTitleMatchUnique(title, i, k, m, i', r.value.kind, m');
    }
  }

  /** A returned type and feature occur in the title as the text `type(feature):`. */
  lemma ParsedTitleOccurs(title: string)
    ensures ParseTitle(title).Some? ==>
      var r := ParseTitle(title).value;
      exists i: nat :: i <= |title| && StartsWith(title[i..], TitleMatchText(r.kind, r.feature))
  {
    if ParseTitle(title).Some? {
      var r := ParseTitle(title).value;
      var i: nat, m: nat :| IsFirstTitleMatch(title, i, r.kind, m) && r.feature == title[FeatureStart(i, r.kind)..m];
      MatchOccurs(title, i, r.kind, m);
      assert i <= |title| && StartsWith(title[i..], TitleMatchText(r.kind, r.feature));
    }
  }

  /** A match is an occurrence of `type(feature):` with its feature. */
  lemma MatchOccurs(title: string, i: nat, k: Kind, m: nat)
    requires TitleMatchAt(title, i, k, m)
    ensures var f := title[FeatureStart(i, k)..m];
      |f| > 0 && NoLineTerminator(f) && StartsWith(title[i..], TitleMatchText(k, f))
  {
    JoinText(title, i, k, title[FeatureStart(i, k)..m]);
  }

  /**
   * `parseTitle` returns `null` exactly when no `type(feature):` with a
   * non-empty one-line feature occurs anywhere in the title.
   */
  lemma UnclassifiedIffNoOccurrence(title: string)
    ensures ParseTitle(title).None? <==>
      forall i: nat, k, f :: i <= |title| && |f| > 0 && NoLineTerminator(f) ==> !StartsWith(title[i..], TitleMatchText(k, f))
  {
    if ParseTitle(title).Some? {
      var r := ParseTitle(title).value;
      var i: nat, m: nat :| IsFirstTitleMatch(title, i, r.kind, m) && r.feature == title[FeatureStart(i, r.kind)..m];
      MatchOccurs(title, i, r.kind, m);
    } else {
      forall i: nat, k, f | i <= |title| && |f| > 0 && NoLineTerminator(f) && StartsWith(title[i..], TitleMatchText(k, f))
        ensures TitleMatchAt(title, i, k, FeatureStart(i, k) + |f|)
      {
        SplitText(title, i, k, f);
      }
    }
  }

  /** The feature `parseTitle` returns is non-empty and lies on one line. */
  lemma ParsedFeatureIsOneLine(title: string)
    ensures ParseTitle(title).Some? ==>
      var f := ParseTitle(title).value.feature;
      |f| > 0 && NoLineTerminator(f)
  {
    if ParseTitle(title).Some? {
      var r := ParseTitle(title).value;
      var i: nat, m: nat :| IsFirstTitleMatch(title, i, r.kind, m) && r.feature == title[FeatureStart(i, r.kind)..m];
      MatchFeatureIsOneLine(title, i, r.kind, m);
    }
  }

  lemma MatchFeatureIsOneLine(title: string, i: nat, k: Kind, m: nat)
    requires TitleMatchAt(title, i, k, m)
    ensures |title[FeatureStart(i, k)..m]| > 0 && NoLineTerminator(title[FeatureStart(i, k)..m])
  {
    var f := title[FeatureStart(i, k)..m];
    forall q | 0 <= q < |f| ensures !IsLineTerminator(f[q]) {
      assert f[q] == title[FeatureStart(i, k) + q];
    }
  }

  /**
   * A title that starts with `type(feature):` and has no `)` on the rest of
   * that line classifies as that type and feature: the greedy feature cannot
   * be extended.
   */
  lemma LeadingMatchClassifies(title: string, k: Kind, f: string, rest: string)
    requires |f| > 0 && NoLineTerminator(f)
    requires title == TitleMatchText(k, f) + rest
    requires ')' !in rest[..LineEnd(rest, 0)]
    ensures ParseTitle(title) == Some(TitleInfo(k, f))
  {
    var m := FeatureStart(0, k) + |f|;
    assert title[0..] == title;
    assert title[..|TitleMatchText(k, f)|] == TitleMatchText(k, f);
    TitleMatchIsText(title, 0, k, f);
    assert TitleMatchAt(title, 0, k, m);
    forall j: nat, k', m': nat | TitleMatchAt(title, j, k', m') ensures !TriedBefore(j, k', m', 0, k, m) {
      if j == 0 {
        KindAtFinds(title, 0, k);
        KindAtFinds(title, 0, k');
        if m' > m {
          LongerFeatureNeedsCloser(title, k, f, rest, m');
        }
      }
    }
    ParseTitleIsFirstMatch(title, k, f);
  }

  /**
   * The step of `LeadingMatchClassifies` that rules out a longer feature:
   * one would need a `)` on the first line after the leading match.
   */
  lemma LongerFeatureNeedsCloser(title: string, k: Kind, f: string, rest: string, m': nat)
    requires title == TitleMatchText(k, f) + rest
    requires TitleMatchAt(title, 0, k, m') && m' > FeatureStart(0, k) + |f|
    ensures ')' in rest[..LineEnd(rest, 0)]
  {
    var p := TitleMatchText(k, f);
    var m := FeatureStart(0, k) + |f|;
    assert title[m + 1] == p[m + 1] == ':';
    assert m' >= |p|;
    var q := m' - |p|;
    assert rest == title[|p|..];
    forall r | 0 <= r <= q ensures !IsLineTerminator(rest[r]) {
      assert rest[r] == title[|p| + r];
    }
    LineEndBeyond(rest, 0, q);
    assert rest[..LineEnd(rest, 0)][q] == ')';
  }

  /** Only a title with a `(` can follow the convention. */
  lemma ClassifiedTitleHasParenthesis(title: string)
    ensures ParseTitle(title).Some? ==> '(' in title
  {
    if ParseTitle(title).Some? {
      var r := ParseTitle(title).value;
      var i: nat, m: nat :| IsFirstTitleMatch(title, i, r.kind, m) && r.feature == title[FeatureStart(i, r.kind)..m];
      MatchHasParenthesis(title, i, r.kind, m);
    }
  }

  lemma MatchHasParenthesis(title: string, i: nat, k: Kind, m: nat)
    requires TitleMatchAt(title, i, k, m)
    ensures '(' in title
  {
    var n := |KindName(k)|;
    assert title[i + n] == title[i..][..n + 1][n] == '(';
  }

  /** The feature is greedy: it runs to the last `):` on the line. */
  lemma ExampleGreedyFeature(title: string)
    requires title == "fix(a): chore(b):"
    ensures ParseTitle(title) == Some(TitleInfo(Fix, "a): chore(b"))
  {
    assert title == TitleMatchText(Fix, "a): chore(b") + "";
    LeadingMatchClassifies(title, Fix, "a): chore(b", "");
  }

  /** Text after the closing `):` does not take part in the match. */
  lemma ExampleFeatureTitle(title: string)
    requires title == "feature(oauth): add login"
    ensures ParseTitle(title) == Some(TitleInfo(Feature, "oauth"))
  {
    assert title == TitleMatchText(Feature, "oauth") + " add login";
    LeadingMatchClassifies(title, Feature, "oauth", " add login");
  }

  /** A title without the convention, such as `random text`, does not classify. */
  lemma ExampleUnclassifiedTitle(title: string)
    requires title == "random text"
    ensures ParseTitle(title) == None
  {
    assert '(' !in title by {
      forall k | 0 <= k < |title| ensures title[k] != '(' { }
    }
    ClassifiedTitleHasParenthesis(title);
  }
}
