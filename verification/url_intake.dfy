/**
 The sidebar's URL fields: the user picks how many fields to show (1 to 10)
 and every field whose stripped text is non-empty is kept, as typed, in order.
 */
module UrlIntake {
  import opened Text

  const MIN_URLS: nat := 1
  const MAX_URLS: nat := 10

  /** `url.strip()` is non-empty: the field holds some character that is not whitespace. */
  function IsFilled(url: string): (b: bool)
    ensures b <==> exists j | 0 <= j < |url| :: !IsSpace(url[j])
  {
    Strip(url) != []
  }

  /** The fields kept by the intake loop, in order. */
  function KeepFilled(fields: seq<string>): (urls: seq<string>)
    ensures |urls| <= |fields|
    ensures forall u | u in urls :: IsFilled(u)
  {
    if fields == [] then []
    else
      var last := fields[|fields| - 1];
      var init := fields[..|fields| - 1];
      assert fields == init + [last];
      KeepFilled(init) + (if IsFilled(last) then [last] else [])
  }

  /** a can be obtained from b by deleting elements: order is preserved. */
  predicate IsSubsequence<T(==)>(a: seq<T>, b: seq<T>)
    decreases |b|
  {
    if a == [] then true
    else if b == [] then false
    else (a[|a| - 1] == b[|b| - 1] && IsSubsequence(a[..|a| - 1], b[..|b| - 1]))
         || IsSubsequence(a, b[..|b| - 1])
  }

  /** The intake loop over the `num_urls` fields. */
  method CollectUrls(fields: seq<string>) returns (urls: seq<string>)
    requires MIN_URLS <= |fields| <= MAX_URLS
    ensures urls == KeepFilled(fields)
    ensures |urls| <= MAX_URLS
  {
    urls := [];
    var i := 0;
    while i < |fields|
      invariant 0 <= i <= |fields|
      invariant urls == KeepFilled(fields[..i])
    {
      var url := fields[i];
      assert fields[..i + 1][..i] == fields[..i];
      if IsFilled(url) {
        urls := urls + [url];
      }
      i := i + 1;
    }
    assert fields[..i] == fields;
  }

  /** A URL is kept exactly when it was typed into some field and is not blank. */
  lemma {:induction false} KeepFilledMembers(fields: seq<string>)
    ensures forall u :: u in KeepFilled(fields) <==> u in fields && IsFilled(u)
    decreases |fields|
  {
    if fields != [] {
      var init := fields[..|fields| - 1];
      var last := fields[|fields| - 1];
      assert fields == init + [last];
      KeepFilledMembers(init);
    }
  }

  /** When every field is blank nothing is kept, so the processing gate refuses. */
  lemma NothingKeptFromBlankFields(fields: seq<string>)
    requires forall i | 0 <= i < |fields| :: !IsFilled(fields[i])
    ensures KeepFilled(fields) == []
  {
    KeepFilledMembers(fields);
  }

  /** The kept URLs are the filled fields in their original order, unstripped. */
  lemma {:induction false} KeepFilledIsSubsequence(fields: seq<string>)
    ensures IsSubsequence(KeepFilled(fields), fields)
    decreases |fields|
  {
    if fields != [] {
      var init := fields[..|fields| - 1];
      var last := fields[|fields| - 1];
      KeepFilledIsSubsequence(init);
      var k := KeepFilled(fields);
      if IsFilled(last) {
        assert k[..|k| - 1] == KeepFilled(init);
      } else {
        assert k == KeepFilled(init);
        assert fields == init + [last];
        SubsequenceOfPrefix(k, init, last);
      }
    }
  }

  /** A subsequence of a prefix is a subsequence of the whole. */
  lemma {:induction false} SubsequenceOfPrefix<T>(a: seq<T>, b: seq<T>, x: T)
    requires IsSubsequence(a, b)
    ensures IsSubsequence(a, b + [x])
  {
    assert (b + [x])[..|b|] == b;
  }

  /** Each filled field is kept as often as it occurs; blank fields are never kept. */
  lemma {:induction false} KeepFilledCounts(fields: seq<string>)
    ensures forall u :: multiset(KeepFilled(fields))[u] == if IsFilled(u) then multiset(fields)[u] else 0
    decreases |fields|
  {
    if fields != [] {
      var init := fields[..|fields| - 1];
      var last := fields[|fields| - 1];
      assert fields == init + [last];
      KeepFilledCounts(init);
    }
  }

  /** Filtering twice keeps what filtering once kept. */
  lemma {:induction false} KeepFilledIdempotent(fields: seq<string>)
    ensures KeepFilled(KeepFilled(fields)) == KeepFilled(fields)
    decreases |fields|
  {
    if fields != [] {
      var init := fields[..|fields| - 1];
      var last := fields[|fields| - 1];
      KeepFilledIdempotent(init);
      var k := KeepFilled(fields);
      if IsFilled(last) {
        assert k == KeepFilled(init) + [last];
        assert k[..|k| - 1] == KeepFilled(init) && k[|k| - 1] == last;
      } else {
        assert k == KeepFilled(init);
      }
    }
  }

  /** A field of spaces and tabs is dropped; a URL with surrounding spaces is kept as typed. */
  lemma IntakeExample(blank: string, padded: string)
    requires blank == " \t " && padded == "  https://example.com/a "
    ensures KeepFilled([blank, padded]) == [padded]
  {
    assert !IsSpace(padded[2]);
    assert [blank, padded][..1] == [blank];
    assert [blank, padded][..0] == [];
  }
}
