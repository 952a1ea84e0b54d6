/**
 What the question flow makes of an exception raised by the language-model
 chain: a three-way classification by case-insensitive substring tests, and,
 for rate limits only, the suggested wait read from a `retry_delay` annotation.
 */
module UpstreamErrors {
  import opened Outcomes
  import opened Text

  datatype ErrorClass = RateLimit | ModelNotFound | Other

  /** The rate-limit test, shared by the question flow and model selection:
      the lower-cased message mentions a quota or a rate limit. */
  predicate IsRateLimitMessage(msg: string) {
    Contains(Lower(msg), "quota") || Contains(Lower(msg), "rate_limit")
  }

  predicate MentionsMissingModel(msg: string) {
    Contains(Lower(msg), "model_not_found")
  }

  /** The branch the question flow takes for an error message: rate limits first,
      then a missing model, else everything else. */
  function Classify(msg: string): (c: ErrorClass)
    ensures c == RateLimit <==> IsRateLimitMessage(msg)
    ensures c == ModelNotFound <==> !IsRateLimitMessage(msg) && MentionsMissingModel(msg)
    ensures c == Other <==> !IsRateLimitMessage(msg) && !MentionsMissingModel(msg)
  {
    if IsRateLimitMessage(msg) then RateLimit
    else if MentionsMissingModel(msg) then ModelNotFound
    else Other
  }

  /** The tests are case-insensitive: messages equal up to ASCII case are classified alike. */
  lemma ClassifyIgnoresCase(a: string, b: string)
    requires Lower(a) == Lower(b)
    ensures Classify(a) == Classify(b)
  {
  }

  /** A lower-case marker anywhere in a message, in any letter case, survives lower-casing. */
  lemma {:induction false} MarkerSurvives(p: string, m: string, q: string, marker: string)
    requires Lower(m) == marker
    ensures Contains(Lower(p + m + q), marker)
  {
    LowerAppend(p + m, q);
    LowerAppend(p, m);
    assert Contains(marker, marker) by { assert OccursAt(marker, marker, 0); }
    ContainsInfix(Lower(p), marker, Lower(q), marker);
  }

  /** Rate limiting takes priority: a message naming a rate limit is a rate limit
      even when it also reports a missing model. */
  lemma {:induction false} RateLimitWins(p: string, q: string)
    requires MentionsMissingModel(q)
    ensures MentionsMissingModel(p + "rate_limit" + q)
    ensures Classify(p + "rate_limit" + q) == RateLimit
  {
    var head := p + "rate_limit";
    RateLimitMarkerIsLower("rate_limit");
    MarkerSurvives(p, "rate_limit", q, "rate_limit");
    LowerAppend(head, q);
    ContainsInfix(Lower(head), Lower(q), [], "model_not_found");
    assert Lower(head) + Lower(q) + [] == Lower(head + q);
  }

  /** The rate-limit marker is already in lower case. */
  lemma RateLimitMarkerIsLower(m: string)
    requires m == "rate_limit"
    ensures Lower(m) == m
  {
    assert forall j | 0 <= j < |m| :: !IsUpper(m[j]);
    LowerOfLowerCase(m);
  }

  /** A quota complaint in capitals is still a rate limit. */
  lemma {:induction false} QuotaInCapitals(p: string, q: string)
    ensures Classify(p + "QUOTA" + q) == RateLimit
  {
    MarkerSurvives(p, "QUOTA", q, "quota");
  }

  /** The upstream "model_not_found: gemini-x" message is a missing model, not a rate limit. */
  lemma ModelNotFoundExample(m: string)
    requires m == "model_not_found: gemini-x"
    ensures Classify(m) == ModelNotFound
  {
    assert forall j | 0 <= j < |m| :: !IsUpper(m[j]) && m[j] != 'q' && m[j] != 'r';
    LowerOfLowerCase(m);
    NoOccurrenceWithoutLead(m, "quota");
    NoOccurrenceWithoutLead(m, "rate_limit");
    assert OccursAt(m, "model_not_found", 0);
  }

  /** A pattern whose first character never appears in s does not occur in s. */
  lemma NoOccurrenceWithoutLead(s: string, pat: string)
    requires |pat| > 0
    requires forall j | 0 <= j < |s| :: s[j] != pat[0]
    ensures !Contains(s, pat)
  {
    forall i | 0 <= i <= |s|
      ensures !OccursAt(s, pat, i)
    {
      if i + |pat| <= |s| {
        assert s[i + 0] != pat[0];
      }
    }
  }

  // ---------------------------------------------------------------------------
  // The retry delay: re.search(r'retry_delay\s*{\s*seconds:\s*(\d+)', msg)
  // ---------------------------------------------------------------------------

  const RETRY_KEY: string := "retry_delay"
  const SECONDS_KEY: string := "seconds:"

  /** The end of the digit run starting at k (greedy `\d+` without its non-empty check). */
  function SkipDigits(s: string, k: nat): (e: nat)
    requires k <= |s|
    ensures k <= e <= |s| && DigitsBetween(s, k, e)
    ensures e == |s| || !IsDigit(s[e])
    decreases |s| - k
  {
    if k < |s| && IsDigit(s[k]) then SkipDigits(s, k + 1) else k
  }

  /** The only end a run of whitespace from k can have. */
  lemma SkipSpacesExact(s: string, k: nat, e: nat)
    requires k <= e <= |s| && SpacesBetween(s, k, e)
    requires e == |s| || !IsSpace(s[e])
    ensures SkipSpaces(s, k) == e
  {
  }

  /** The only end a run of digits from k can have. */
  lemma SkipDigitsExact(s: string, k: nat, e: nat)
    requires k <= e <= |s| && DigitsBetween(s, k, e)
    requires e == |s| || !IsDigit(s[e])
    ensures SkipDigits(s, k) == e
  {
  }

  /** One piece of the pattern before its digit group: a literal or `\s*`. */
  datatype Token = Lit(text: string) | Spaces

  /** The tokens of a pattern, first to last. */
  datatype Pattern = Empty | Then(first: Token, rest: Pattern)

  /** `retry_delay\s*{\s*seconds:\s*`, which the digit group `(\d+)` follows. */
  const DELAY_PREFIX: Pattern :=
    Then(Lit(RETRY_KEY), Then(Spaces, Then(Lit("{"), Then(Spaces, Then(Lit(SECONDS_KEY), Then(Spaces, Empty))))))

  /** The total length of the pattern's literals: the least text any match consumes. */
  function LiteralLength(p: Pattern): nat {
    match p
    case Empty => 0
    case Then(Lit(t), rest) => |t| + LiteralLength(rest)
    case Then(Spaces, rest) => LiteralLength(rest)
  }

  /** Where matching p from position k ends, each `\s*` taking its longest run. For
      DELAY_PREFIX followed by `(\d+)` the longest runs are the only way to match: each
      `\s*` is followed by a literal or a digit, neither of which is whitespace. */
  function MatchPrefix(s: string, k: nat, p: Pattern): (r: Option<nat>)
    requires k <= |s|
    ensures r.Some? ==> k + LiteralLength(p) <= r.value <= |s|
    ensures p.Then? && p.first.Lit? && r.Some? ==> OccursAt(s, p.first.text, k)
    decreases p
  {
    match p
    case Empty => Some(k)
    case Then(Lit(t), rest) => if OccursAt(s, t, k) then MatchPrefix(s, k + |t|, rest) else None
    case Then(Spaces, rest) => MatchPrefix(s, SkipSpaces(s, k), rest)
  }

  /** The value of `(\d+)` at position c: the longest digit run there, if it is not empty. */
  function GroupAt(s: string, c: nat): (r: Option<nat>)
    requires c <= |s|
    ensures r.Some? <==> c < |s| && IsDigit(s[c])
  {
    var d := SkipDigits(s, c);
    if d == c then None
    else
      assert AllDigits(s[c..d]) by {
        assert forall j | 0 <= j < d - c :: s[c..d][j] == s[c + j];
      }
      Some(DecimalValue(s[c..d]))
  }

  /** The value of group 1 when the prefix p and then `(\d+)` match at position i. */
  function MatchAt(s: string, i: nat, p: Pattern): Option<nat>
    requires i <= |s|
  {
    match MatchPrefix(s, i, p)
    case None => None
    case Some(c) => GroupAt(s, c)
  }

  /** A match starts with the pattern's leading literal. */
  lemma MatchStartsWithLiteral(s: string, i: nat, p: Pattern)
    requires i <= |s| && p.Then? && p.first.Lit?
    ensures MatchAt(s, i, p).Some? ==> OccursAt(s, p.first.text, i)
  {
  }

  /** The leftmost position at or after i where the pattern matches (`re.search`). */
  function FirstMatch(s: string, i: nat, p: Pattern): (r: Option<nat>)
    requires i <= |s|
    ensures r.Some? ==> i <= r.value <= |s| && MatchAt(s, r.value, p).Some?
    ensures r.Some? ==> forall j | i <= j < r.value :: MatchAt(s, j, p).None?
    ensures r.None? ==> forall j | i <= j <= |s| :: MatchAt(s, j, p).None?
    decreases |s| - i
  {
    if MatchAt(s, i, p).Some? then Some(i)
    else if i == |s| then None
    else FirstMatch(s, i + 1, p)
  }

  /** The suggested wait: only for rate-limit messages that contain the exact-case
      `retry_delay`, and only when the annotation pattern matches; the value is the
      digit group of the leftmost match. */
  function RetryDelay(msg: string): (r: Option<nat>)
    ensures r.Some? ==> Classify(msg) == RateLimit && Contains(msg, RETRY_KEY)
    ensures r.Some? ==> exists i | 0 <= i <= |msg| :: MatchAt(msg, i, DELAY_PREFIX) == r
                                  && forall j | 0 <= j < i :: MatchAt(msg, j, DELAY_PREFIX).None?
    ensures Classify(msg) == RateLimit && (exists i | 0 <= i <= |msg| :: MatchAt(msg, i, DELAY_PREFIX).Some?)
            ==> r.Some?
  {
    if Classify(msg) != RateLimit || !Contains(msg, RETRY_KEY) then None
    else
      match FirstMatch(msg, 0, DELAY_PREFIX)
      case None => None
      case Some(i) => MatchAt(msg, i, DELAY_PREFIX)
  }

  /** Position e is the end of s or holds a character that is not a digit. */
  predicate NoDigitAt(s: string, e: nat) {
    e < |s| ==> !IsDigit(s[e])
  }

  /** Position e holds a character that is not whitespace. */
  predicate SolidAt(s: string, e: nat) {
    e < |s| && !IsSpace(s[e])
  }

  /** A text laid out as a pattern expects it: its literals, and the run each `\s*` takes. */
  datatype Layout = Done | Literal(text: string, after: Layout) | Run(run: string, after: Layout)

  /** The pattern a layout fills in. */
  function Shape(l: Layout): Pattern {
    match l
    case Done => Empty
    case Literal(t, after) => Then(Lit(t), Shape(after))
    case Run(_, after) => Then(Spaces, Shape(after))
  }

  /** The text a layout spells. */
  function Flat(l: Layout): string {
    match l
    case Done => []
    case Literal(t, after) => t + Flat(after)
    case Run(w, after) => w + Flat(after)
  }

  /** Every run of the layout is whitespace. */
  predicate RunsAreSpace(l: Layout) {
    match l
    case Done => true
    case Literal(_, after) => RunsAreSpace(after)
    case Run(w, after) => AllSpace(w) && RunsAreSpace(after)
  }

  /** The token after a `\s*`: its literal starts with a non-space. */
  predicate Solid(t: Token) {
    t.Lit? && t.text != [] && !IsSpace(t.text[0])
  }

  /** Patterns for which taking the longest runs is the only way to match: each `\s*`
      is last or followed by a solid literal. */
  predicate GreedySafe(p: Pattern) {
    match p
    case Empty => true
    case Then(t, rest) => (t == Spaces && rest.Then? ==> Solid(rest.first)) && GreedySafe(rest)
  }

  /** Soundness of the prefix matcher, the converse of MatchLayout: where the pattern
      matches, the text is the pattern's literals with whitespace runs in place of its
      `\s*`, and the match ends right after them. */
  lemma {:induction false} MatchPrefixSound(s: string, k: nat, p: Pattern)
    requires k <= |s| && MatchPrefix(s, k, p).Some?
    ensures exists l :: Shape(l) == p && RunsAreSpace(l) && OccursAt(s, Flat(l), k)
                        && MatchPrefix(s, k, p).value == k + |Flat(l)|
    decreases p
  {
    match p
    case Empty =>
      assert Shape(Done) == p && OccursAt(s, Flat(Done), k);
    case Then(Lit(t), rest) =>
      MatchPrefixSound(s, k + |t|, rest);
      var l :| Shape(l) == rest && RunsAreSpace(l) && OccursAt(s, Flat(l), k + |t|)
               && MatchPrefix(s, k + |t|, rest).value == k + |t| + |Flat(l)|;
      OccursJoin(s, t, Flat(l), k);
      assert Shape(Literal(t, l)) == p && Flat(Literal(t, l)) == t + Flat(l);
    case Then(Spaces, rest) =>
      var e := SkipSpaces(s, k);
      MatchPrefixSound(s, e, rest);
      var l :| Shape(l) == rest && RunsAreSpace(l) && OccursAt(s, Flat(l), e)
               && MatchPrefix(s, e, rest).value == e + |Flat(l)|;
      var w := s[k..e];
      assert AllSpace(w) by {
        assert forall j | 0 <= j < |w| :: w[j] == s[k + j];
      }
      assert OccursAt(s, w, k) by {
        assert forall j | 0 <= j < |w| :: w[j] == s[k + j];
      }
      OccursJoin(s, w, Flat(l), k);
      assert Shape(Run(w, l)) == p && Flat(Run(w, l)) == w + Flat(l);
  }

  /** Where a layout that starts with a solid literal, or is empty, occurs with a
      non-space after it, its first position holds a non-space. */
  lemma SolidStart(s: string, e: nat, l: Layout)
    requires l.Literal? ==> Solid(Lit(l.text))
    requires !l.Run?
    requires OccursAt(s, Flat(l), e) && SolidAt(s, e + |Flat(l)|)
    ensures SolidAt(s, e)
  {
    if l.Literal? {
      assert s[e] == Flat(l)[0];
    }
  }

  /** The conditions of MatchLayout, for a layout l at position k. */
  predicate Laid(s: string, k: nat, l: Layout) {
    && GreedySafe(Shape(l)) && RunsAreSpace(l)
    && OccursAt(s, Flat(l), k) && SolidAt(s, k + |Flat(l)|)
  }

  /** Stepping over a leading literal: the rest of the layout follows it. */
  lemma MatchLiteralStep(s: string, k: nat, t: string, after: Layout)
    requires Laid(s, k, Literal(t, after))
    ensures Laid(s, k + |t|, after) && k + |t| + |Flat(after)| == k + |Flat(Literal(t, after))|
    ensures MatchPrefix(s, k, Shape(Literal(t, after))) == MatchPrefix(s, k + |t|, Shape(after))
  {
    OccursSplit(s, t, Flat(after), k);
  }

  /** Stepping over a leading `\s*`: its run is the whole whitespace run there, because
      a non-space follows it, and the rest of the layout comes after it. */
  lemma MatchRunStep(s: string, k: nat, w: string, after: Layout)
    requires Laid(s, k, Run(w, after))
    ensures Laid(s, k + |w|, after) && k + |w| + |Flat(after)| == k + |Flat(Run(w, after))|
    ensures MatchPrefix(s, k, Shape(Run(w, after))) == MatchPrefix(s, k + |w|, Shape(after))
  {
    OccursSplit(s, w, Flat(after), k);
    OccursSpaces(s, w, k);
    assert !after.Run? && (after.Literal? ==> Solid(Lit(after.text))) by {
      assert Shape(Run(w, after)).rest == Shape(after);
    }
    SolidStart(s, k + |w|, after);
    SkipSpacesExact(s, k, k + |w|);
  }

  /** Round trip for the prefix matcher: where a layout of a safe pattern occurs with a
      non-space after it, matching its pattern from its start ends exactly at its end. */
  lemma {:induction false} MatchLayout(s: string, k: nat, l: Layout)
    requires Laid(s, k, l)
    ensures MatchPrefix(s, k, Shape(l)) == Some(k + |Flat(l)|)
    decreases l
  {
    match l
    case Done =>
    case Literal(t, after) =>
      MatchLiteralStep(s, k, t, after);
      MatchLayout(s, k + |t|, after);
    case Run(w, after) =>
      MatchRunStep(s, k, w, after);
      MatchLayout(s, k + |w|, after);
  }

  /** A maximal non-empty digit run is read as the group's value. */
  lemma GroupAtRun(s: string, c: nat, ds: string)
    requires |ds| > 0 && AllDigits(ds) && OccursAt(s, ds, c) && NoDigitAt(s, c + |ds|)
    ensures GroupAt(s, c) == Some(DecimalValue(ds))
  {
    OccursDigits(s, ds, c);
    SkipDigitsExact(s, c, c + |ds|);
    assert s[c..c + |ds|] == ds by {
      assert forall j | 0 <= j < |ds| :: s[c..c + |ds|][j] == ds[j];
    }
  }

  /** The layout of the annotation text before its digits:
      `retry_delay<w1>{<w2>seconds:<w3>`. */
  function AnnotationLayout(w1: string, w2: string, w3: string): (l: Layout)
    ensures Shape(l) == DELAY_PREFIX
    ensures RunsAreSpace(l) <==> AllSpace(w1) && AllSpace(w2) && AllSpace(w3)
  {
    var run3 := Run(w3, Done);
    assert Shape(run3) == Then(Spaces, Empty) && (RunsAreSpace(run3) <==> AllSpace(w3));
    var seconds := Literal(SECONDS_KEY, run3);
    assert Shape(seconds) == Then(Lit(SECONDS_KEY), Shape(run3)) && RunsAreSpace(seconds) == RunsAreSpace(run3);
    var run2 := Run(w2, seconds);
    assert Shape(run2) == Then(Spaces, Shape(seconds)) && (RunsAreSpace(run2) <==> AllSpace(w2) && RunsAreSpace(seconds));
    var brace := Literal("{", run2);
    assert Shape(brace) == Then(Lit("{"), Shape(run2)) && RunsAreSpace(brace) == RunsAreSpace(run2);
    var run1 := Run(w1, brace);
    assert Shape(run1) == Then(Spaces, Shape(brace)) && (RunsAreSpace(run1) <==> AllSpace(w1) && RunsAreSpace(brace));
    Literal(RETRY_KEY, run1)
  }

  /** The text of the annotation layout: the key, w1, the brace, w2, `seconds:`, w3. */
  lemma AnnotationSpelling(w1: string, w2: string, w3: string)
    ensures Flat(AnnotationLayout(w1, w2, w3)) == RETRY_KEY + w1 + "{" + w2 + SECONDS_KEY + w3
  {
    var tail := Literal(SECONDS_KEY, Run(w3, Done));
    assert Flat(Run(w3, Done)) == w3 by { assert w3 + [] == w3; }
    assert Flat(tail) == SECONDS_KEY + w3;
    var mid := Literal("{", Run(w2, tail));
    assert Flat(mid) == "{" + (w2 + Flat(tail));
    assert Flat(AnnotationLayout(w1, w2, w3)) == RETRY_KEY + (w1 + Flat(mid));
  }

  /** The annotation `retry_delay<w1>{<w2>seconds:<w3><digits>` as the upstream error spells it. */
  function Annotation(w1: string, w2: string, w3: string, ds: string): string {
    Flat(AnnotationLayout(w1, w2, w3)) + ds
  }

  /** The retry-delay prefix has the safe shape. */
  lemma DelayPrefixIsSafe()
    ensures GreedySafe(DELAY_PREFIX)
  {
    assert SECONDS_KEY[0] == 's';
  }

  /** A safe layout followed by a digit run: the pattern matches and reads the whole run. */
  lemma LayoutGroup(s: string, i: nat, l: Layout, ds: string)
    requires GreedySafe(Shape(l)) && RunsAreSpace(l) && |ds| > 0 && AllDigits(ds)
    requires OccursAt(s, Flat(l) + ds, i) && NoDigitAt(s, i + |Flat(l) + ds|)
    ensures MatchAt(s, i, Shape(l)) == Some(DecimalValue(ds))
  {
    OccursSplit(s, Flat(l), ds, i);
    var c := i + |Flat(l)|;
    assert s[c + 0] == ds[0];
    assert Laid(s, i, l);
    MatchLayout(s, i, l);
    GroupAtRun(s, c, ds);
  }

  /** The pattern matches where an annotation starts and reads its whole digit run. */
  lemma DelayAtAnnotation(s: string, i: nat, w1: string, w2: string, w3: string, ds: string)
    requires AllSpace(w1) && AllSpace(w2) && AllSpace(w3) && |ds| > 0 && AllDigits(ds)
    requires OccursAt(s, Annotation(w1, w2, w3, ds), i)
    requires NoDigitAt(s, i + |Annotation(w1, w2, w3, ds)|)
    ensures MatchAt(s, i, DELAY_PREFIX) == Some(DecimalValue(ds))
  {
    DelayPrefixIsSafe();
    LayoutGroup(s, i, AnnotationLayout(w1, w2, w3), ds);
  }

  /** An annotation starts with the key. */
  lemma AnnotationStartsWithKey(s: string, i: nat, w1: string, w2: string, w3: string, ds: string)
    requires OccursAt(s, Annotation(w1, w2, w3, ds), i)
    ensures OccursAt(s, RETRY_KEY, i)
  {
    var l := AnnotationLayout(w1, w2, w3);
    assert l.Literal? && l.text == RETRY_KEY;
    OccursSplit(s, Flat(l), ds, i);
    OccursSplit(s, RETRY_KEY, Flat(l.after), i);
  }

  /** No position inside p can match when s is p followed by the key, and p together
      with the first ten characters of the key holds no `retry_delay`. */
  lemma NoEarlierMatch(s: string, p: string)
    requires OccursAt(s, p, 0) && OccursAt(s, RETRY_KEY, |p|)
    requires !Contains(p + RETRY_KEY[..10], RETRY_KEY)
    ensures forall j | 0 <= j < |p| :: MatchAt(s, j, DELAY_PREFIX).None?
  {
    var h := p + RETRY_KEY[..10];
    forall j | 0 <= j < |p|
      ensures !OccursAt(s, RETRY_KEY, j)
    {
      assert !OccursAt(h, RETRY_KEY, j);
      var m :| 0 <= m < |RETRY_KEY| && h[j + m] != RETRY_KEY[m];
      if j + m < |p| {
        assert s[0 + (j + m)] == p[j + m] == h[j + m];
      } else {
        var d := j + m - |p|;
        assert s[|p| + d] == RETRY_KEY[d] == h[j + m];
      }
    }
    forall j | 0 <= j < |p|
      ensures MatchAt(s, j, DELAY_PREFIX).None?
    {
      MatchStartsWithLiteral(s, j, DELAY_PREFIX);
    }
  }

  /** FirstMatch skips positions that cannot match. */
  lemma {:induction false} FirstMatchSkips(s: string, i: nat, k: nat, p: Pattern)
    requires i <= k <= |s|
    requires forall j | i <= j < k :: MatchAt(s, j, p).None?
    requires MatchAt(s, k, p).Some?
    ensures FirstMatch(s, i, p) == Some(k)
    decreases k - i
  {
    if i < k {
      FirstMatchSkips(s, i + 1, k, p);
    }
  }

  /** A rate-limit message stays one when text is appended. */
  lemma {:induction false} RateLimitExtends(p: string, tail: string)
    requires IsRateLimitMessage(p)
    ensures IsRateLimitMessage(p + tail)
  {
    LowerAppend(p, tail);
    if Contains(Lower(p), "quota") {
      ContainsExtend(Lower(p), Lower(tail), "quota");
    } else {
      ContainsExtend(Lower(p), Lower(tail), "rate_limit");
    }
  }

  /** Where the first `retry_delay` of a message is an annotation carrying the decimal
      spelling of n, the leftmost match of the pattern is there and its group is n. */
  lemma {:induction false} FirstMatchAtAnnotation(p: string, w1: string, w2: string, w3: string, n: nat, rest: string)
    requires !Contains(p + RETRY_KEY[..10], RETRY_KEY)
    requires AllSpace(w1) && AllSpace(w2) && AllSpace(w3)
    requires rest == [] || !IsDigit(rest[0])
    ensures var s := p + Annotation(w1, w2, w3, DecimalString(n)) + rest;
            && Contains(s, RETRY_KEY)
            && FirstMatch(s, 0, DELAY_PREFIX) == Some(|p|)
            && MatchAt(s, |p|, DELAY_PREFIX) == Some(n)
  {
    var ds := DecimalString(n);
    var ann := Annotation(w1, w2, w3, ds);
    var s := p + ann + rest;
    OccursInConcat(p, ann, rest);
    assert NoDigitAt(s, |p| + |ann|) by {
      assert |p| + |ann| == |s| || s[|p| + |ann|] == rest[0];
    }
    DelayAtAnnotation(s, |p|, w1, w2, w3, ds);
    DecimalRoundTrip(n);
    AnnotationStartsWithKey(s, |p|, w1, w2, w3, ds);
    NoEarlierMatch(s, p);
    FirstMatchSkips(s, 0, |p|, DELAY_PREFIX);
  }

  /** Round trip: a rate-limit message whose first `retry_delay` is an annotation
      carrying the decimal spelling of n yields n, wherever in the message the
      rate-limit marker stands. */
  lemma RetryDelayReadsAnnotation(p: string, w1: string, w2: string, w3: string, n: nat, rest: string)
    requires IsRateLimitMessage(p + Annotation(w1, w2, w3, DecimalString(n)) + rest)
    requires !Contains(p + RETRY_KEY[..10], RETRY_KEY)
    requires AllSpace(w1) && AllSpace(w2) && AllSpace(w3)
    requires rest == [] || !IsDigit(rest[0])
    ensures RetryDelay(p + Annotation(w1, w2, w3, DecimalString(n)) + rest) == Some(n)
  {
    FirstMatchAtAnnotation(p, w1, w2, w3, n, rest);
  }

  /** The annotation is ignored when the message is not a rate limit. */
  lemma NoDelayOutsideRateLimit(msg: string)
    requires Classify(msg) != RateLimit
    ensures RetryDelay(msg) == None
  {
  }

  /** When the pattern matches nowhere, no wait is suggested, whatever the guard says. */
  lemma NoMatchNoDelay(msg: string)
    requires forall j | 0 <= j <= |msg| :: MatchAt(msg, j, DELAY_PREFIX).None?
    ensures RetryDelay(msg) == None
  {
  }

  /** How a failed question is reported: its class, the suggested wait when one
      applies, and the raw message (shown for the `Other` class). */
  datatype Diagnosis = Diagnosis(kind: ErrorClass, retryDelay: Option<nat>, message: string)

  function Diagnose(msg: string): (d: Diagnosis)
    ensures d.kind == Classify(msg) && d.message == msg
    ensures d.retryDelay.Some? ==> d.kind == RateLimit
    ensures d.retryDelay == RetryDelay(msg)
  {
    Diagnosis(Classify(msg), RetryDelay(msg), msg)
  }

  /** The text before the annotation in the example message holds no `retry_delay`,
      not even one that would run into the annotation. */
  lemma ExamplePrefixHasNoKey(p: string)
    requires p == "429 rate_limit exceeded, "
    ensures !Contains(p + RETRY_KEY[..10], RETRY_KEY)
  {
    var h := p + RETRY_KEY[..10];
    forall i | 0 <= i <= |h|
      ensures !OccursAt(h, RETRY_KEY, i)
    {
      if i + |RETRY_KEY| <= |h| {
        assert RETRY_KEY[0] == 'r' && RETRY_KEY[1] == 'e';
        assert h[i] != 'r' || h[i + 1] != 'e';
      }
    }
  }

  /** The annotation of the example message, with single spaces. */
  lemma ExampleAnnotation()
    ensures Annotation(" ", " ", " ", DecimalString(37)) == "retry_delay { seconds: " + "37"
  {
    AnnotationSpelling(" ", " ", " ");
    assert RETRY_KEY + " " + "{" + " " + SECONDS_KEY + " " == "retry_delay { seconds: ";
    assert DecimalString(37) == "37";
  }

  /** The text before the annotation in the example message is a rate limit. */
  lemma ExamplePrefixIsRateLimit(p: string)
    requires p == "429 rate_limit exceeded, "
    ensures IsRateLimitMessage(p)
  {
    var lead, marker, gap := "429 ", "rate_limit", " exceeded, ";
    assert p == lead + marker + gap;
    RateLimitMarkerIsLower(marker);
    MarkerSurvives(lead, marker, gap, "rate_limit");
  }

  /** The example message is its prefix followed by the annotation. */
  lemma ExampleSpelling(msg: string)
    requires msg == "429 rate_limit exceeded, retry_delay { seconds: 37 }"
    ensures msg == msg[..25] + ("retry_delay { seconds: " + "37") + " }"
  {
  }

  /** The example message: "... rate_limit ... retry_delay { seconds: 37 }" suggests 37 seconds. */
  lemma RetryDelayExample(msg: string)
    requires msg == "429 rate_limit exceeded, retry_delay { seconds: 37 }"
    ensures Diagnose(msg) == Diagnosis(RateLimit, Some(37), msg)
  {
    var p := msg[..25];
    var ann := Annotation(" ", " ", " ", DecimalString(37));
    ExamplePrefixIsRateLimit(p);
    ExamplePrefixHasNoKey(p);
    ExampleSpelling(msg);
    ExampleAnnotation();
    RateLimitExtends(p, ann);
    RateLimitExtends(p + ann, " }");
    RetryDelayReadsAnnotation(p, " ", " ", " ", 37, " }");
  }

  /** The malformed example message names a quota. */
  lemma MalformedIsRateLimit(msg: string)
    requires msg == "quota: retry_delay seconds: 5"
    ensures IsRateLimitMessage(msg)
  {
    var marker, tail := msg[..5], msg[5..];
    assert marker == "quota";
    assert msg == [] + marker + tail;
    assert forall j | 0 <= j < |marker| :: !IsUpper(marker[j]);
    LowerOfLowerCase(marker);
    MarkerSurvives([], marker, tail, "quota");
  }

  /** In the malformed example message `retry_delay` occurs only at position 7. */
  lemma MalformedKeyOnlyAt7(msg: string)
    requires msg == "quota: retry_delay seconds: 5"
    ensures OccursAt(msg, RETRY_KEY, 7)
    ensures forall j | 0 <= j <= |msg| && j != 7 :: !OccursAt(msg, RETRY_KEY, j)
  {
    forall j | 0 <= j <= |msg| && j != 7
      ensures !OccursAt(msg, RETRY_KEY, j)
    {
      if j + |RETRY_KEY| <= |msg| {
        assert RETRY_KEY[0] == 'r' && RETRY_KEY[1] == 'e';
        assert msg[j] != 'r' || msg[j + 1] != 'e';
      }
    }
  }

  /** At position 7 the key is followed by a space and then `s` where `{` belongs. */
  lemma MalformedNoBrace(msg: string)
    requires msg == "quota: retry_delay seconds: 5"
    ensures MatchAt(msg, 7, DELAY_PREFIX).None?
  {
    MalformedKeyOnlyAt7(msg);
    assert SpacesBetween(msg, 18, 19) && !IsSpace(msg[19]);
    SkipSpacesExact(msg, 18, 19);
    assert !OccursAt(msg, "{", 19) by {
      assert msg[19 + 0] != "{"[0];
    }
    assert MatchPrefix(msg, 7, DELAY_PREFIX) == MatchPrefix(msg, 18, DELAY_PREFIX.rest);
    assert MatchPrefix(msg, 18, DELAY_PREFIX.rest) == MatchPrefix(msg, 19, DELAY_PREFIX.rest.rest);
  }

  /** A rate limit containing `retry_delay` whose annotation lacks the `{`: the guard
      passes, the pattern matches nowhere, and no wait is suggested. */
  lemma MalformedAnnotationExample(msg: string)
    requires msg == "quota: retry_delay seconds: 5"
    ensures Classify(msg) == RateLimit && Contains(msg, RETRY_KEY)
    ensures RetryDelay(msg) == None
  {
    MalformedIsRateLimit(msg);
    MalformedKeyOnlyAt7(msg);
    MalformedNoBrace(msg);
    forall j | 0 <= j <= |msg|
      ensures MatchAt(msg, j, DELAY_PREFIX).None?
    {
      if j != 7 {
        MatchStartsWithLiteral(msg, j, DELAY_PREFIX);
      }
    }
    NoMatchNoDelay(msg);
  }
}
