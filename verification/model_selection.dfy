/**
 Choosing the chat model at start-up (`get_llm`): the ids are tried in order;
 a construction that raises a rate-limit error moves on to the next id, any
 other error ends the walk at a `return llm` whose variable was never bound,
 and when every id is rate-limited the first id is constructed once more.
 The client constructor itself is an external library call, so each id's
 outcome is a parameter.
 */
module ModelSelection {
  import opened UpstreamErrors

  const MODELS_TO_TRY: seq<string> := ["gemini-1.5-flash", "gemini-1.5-pro", "gemini-1.0-pro"]

  /** The id constructed when every id in the list was rate-limited. */
  const LAST_RESORT_MODEL: string := "gemini-1.5-flash"

  /** What constructing a client for one model id did. */
  datatype Construction = Built | Raised(message: string)

  predicate RateLimited(c: Construction) {
    c.Raised? && IsRateLimitMessage(c.message)
  }

  /** Every id in models[lo..hi) was rate-limited. */
  ghost predicate AllRateLimited(models: seq<string>, construct: string -> Construction, lo: nat, hi: nat)
    requires lo <= hi <= |models|
  {
    forall j | lo <= j < hi :: RateLimited(construct(models[j]))
  }

  /** Where the loop over the ids stopped. */
  datatype Walk = Chose(index: nat) | Unbound(index: nat) | Exhausted

  /** The loop `for model in models_to_try`, from position k on. */
  function WalkFrom(models: seq<string>, construct: string -> Construction, k: nat): (w: Walk)
    requires k <= |models|
    ensures w.Chose? ==> k <= w.index < |models| && construct(models[w.index]).Built?
                         && AllRateLimited(models, construct, k, w.index)
    ensures w.Unbound? ==> k <= w.index < |models| && construct(models[w.index]).Raised?
                           && !RateLimited(construct(models[w.index]))
                           && AllRateLimited(models, construct, k, w.index)
    ensures w.Exhausted? <==> AllRateLimited(models, construct, k, |models|)
    decreases |models| - k
  {
    if k == |models| then Exhausted
    else
      match construct(models[k])
      case Built => Chose(k)
      case Raised(msg) =>
        if IsRateLimitMessage(msg) then WalkFrom(models, construct, k + 1)
        else Unbound(k)
  }

  /** Why no model was selected; either way the exception escapes `get_llm`. */
  datatype SelectionError =
    | UnboundLlm(model: string, cause: string)   // `return llm` after a non-rate-limit error
    | LastResortFailed(cause: string)            // the final construction raised

  datatype Selection = Selected(model: string) | NotSelected(error: SelectionError)

  /** `get_llm()`: construct is the outcome of constructing each listed id during the
      loop, lastResort that of the final construction after the loop. */
  function GetLlm(construct: string -> Construction, lastResort: Construction): (s: Selection)
    ensures s.Selected? ==> s.model in MODELS_TO_TRY
    ensures forall k | 0 <= k < |MODELS_TO_TRY| ::
      construct(MODELS_TO_TRY[k]).Built? && AllRateLimited(MODELS_TO_TRY, construct, 0, k)
      ==> s == Selected(MODELS_TO_TRY[k])
    ensures forall k | 0 <= k < |MODELS_TO_TRY| ::
      construct(MODELS_TO_TRY[k]).Raised? && !RateLimited(construct(MODELS_TO_TRY[k]))
      && AllRateLimited(MODELS_TO_TRY, construct, 0, k)
      ==> s == NotSelected(UnboundLlm(MODELS_TO_TRY[k], construct(MODELS_TO_TRY[k]).message))
    ensures AllRateLimited(MODELS_TO_TRY, construct, 0, |MODELS_TO_TRY|) ==>
      s == (if lastResort.Built? then Selected(LAST_RESORT_MODEL)
            else NotSelected(LastResortFailed(lastResort.message)))
  {
    match WalkFrom(MODELS_TO_TRY, construct, 0)
    case Chose(k) => Selected(MODELS_TO_TRY[k])
    case Unbound(k) => NotSelected(UnboundLlm(MODELS_TO_TRY[k], construct(MODELS_TO_TRY[k]).message))
    case Exhausted =>
      if lastResort.Built? then Selected(LAST_RESORT_MODEL)
      else NotSelected(LastResortFailed(lastResort.message))
  }

  /** When every listed id is rate-limited and the retry succeeds, the FIRST id is
      used, not the last one of the list. */
  lemma AllRateLimitedFallsBackToFirst(construct: string -> Construction)
    requires forall m | m in MODELS_TO_TRY :: RateLimited(construct(m))
    ensures GetLlm(construct, Built) == Selected(MODELS_TO_TRY[0])
    ensures GetLlm(construct, Built) != Selected(MODELS_TO_TRY[|MODELS_TO_TRY| - 1])
  {
    assert AllRateLimited(MODELS_TO_TRY, construct, 0, |MODELS_TO_TRY|) by {
      forall j | 0 <= j < |MODELS_TO_TRY|
        ensures RateLimited(construct(MODELS_TO_TRY[j]))
      {
        assert MODELS_TO_TRY[j] in MODELS_TO_TRY;
      }
    }
  }

  /** A model that constructs on the first try is used. */
  lemma FirstModelUsedWhenAvailable(construct: string -> Construction, lastResort: Construction)
    requires construct(MODELS_TO_TRY[0]).Built?
    ensures GetLlm(construct, lastResort) == Selected("gemini-1.5-flash")
  {
    assert AllRateLimited(MODELS_TO_TRY, construct, 0, 0);
  }

  /** A non-rate-limit error on the first id selects nothing, whatever the later ids would do. */
  lemma OtherErrorSelectsNothing(construct: string -> Construction, lastResort: Construction)
    requires construct(MODELS_TO_TRY[0]).Raised?
    requires !IsRateLimitMessage(construct(MODELS_TO_TRY[0]).message)
    ensures GetLlm(construct, lastResort).NotSelected?
  {
    assert AllRateLimited(MODELS_TO_TRY, construct, 0, 0);
  }

  /** The selection depends only on the outcomes of the ids up to the first one that
      is not rate-limited: two constructors agreeing there select alike. */
  lemma {:induction false} WalkDependsOnPrefix(models: seq<string>, c1: string -> Construction,
                                               c2: string -> Construction, k: nat)
    requires k <= |models|
    requires WalkFrom(models, c1, k).Chose? || WalkFrom(models, c1, k).Unbound?
    requires forall j | k <= j <= WalkFrom(models, c1, k).index :: c1(models[j]) == c2(models[j])
    ensures WalkFrom(models, c2, k) == WalkFrom(models, c1, k)
    decreases |models| - k
  {
    var w := WalkFrom(models, c1, k);
    assert c1(models[k]) == c2(models[k]);
    if w.index > k {
      assert RateLimited(c1(models[k]));
      assert WalkFrom(models, c1, k) == WalkFrom(models, c1, k + 1);
      assert WalkFrom(models, c2, k) == WalkFrom(models, c2, k + 1);
      WalkDependsOnPrefix(models, c1, c2, k + 1);
    }
  }
}
