/**
 How the answer's source documents are listed: numbered from 1 in retrieval
 order, labelled with their `source` metadata (or "Unknown source"), each
 with a preview of at most the first 200 characters followed by "...".
 */
module Sources {

  /** A retrieved document: its text and its string-valued metadata. */
  datatype Document = Document(pageContent: string, metadata: map<string, string>)

  /** One line of the "Sources:" list and its preview. */
  datatype SourceEntry = SourceEntry(number: nat, source: string, preview: string)

  const PREVIEW_CHARS: nat := 200
  const ELLIPSIS: string := "..."
  const SOURCE_KEY: string := "source"
  const UNKNOWN_SOURCE: string := "Unknown source"

  function Min(a: int, b: int): int {
    if a <= b then a else b
  }

  /** `content[:200] + "..."`: the ellipsis is appended even to short content. */
  function Preview(content: string): (p: string)
    ensures |p| == Min(PREVIEW_CHARS, |content|) + |ELLIPSIS| <= PREVIEW_CHARS + |ELLIPSIS|
    ensures p[..|p| - |ELLIPSIS|] == content[..Min(PREVIEW_CHARS, |content|)]
    ensures p[|p| - |ELLIPSIS|..] == ELLIPSIS
  {
    var shown := if |content| <= PREVIEW_CHARS then content else content[..PREVIEW_CHARS];
    assert (shown + ELLIPSIS)[..|shown|] == shown;
    shown + ELLIPSIS
  }

  /** Content of at most 200 characters is shown whole, and can be read back from its preview. */
  lemma PreviewShowsShortContent(content: string)
    requires |content| <= PREVIEW_CHARS
    ensures Preview(content) == content + ELLIPSIS
    ensures var p := Preview(content); p[..|p| - |ELLIPSIS|] == content
  {
  }

  /** The first 200 characters of the content begin the preview. */
  lemma PreviewStartsWithHead(content: string)
    ensures content[..Min(PREVIEW_CHARS, |content|)] <= Preview(content)
  {
    var p := Preview(content);
    assert p[..|p| - |ELLIPSIS|] == content[..Min(PREVIEW_CHARS, |content|)];
  }

  /** Two documents that agree on their first 200 characters have the same preview. */
  lemma PreviewDependsOnlyOnHead(a: string, b: string)
    requires |a| >= PREVIEW_CHARS && |b| >= PREVIEW_CHARS
    requires a[..PREVIEW_CHARS] == b[..PREVIEW_CHARS]
    ensures Preview(a) == Preview(b)
  {
    var pa := Preview(a);
    var pb := Preview(b);
    assert pa == pa[..|pa| - |ELLIPSIS|] + pa[|pa| - |ELLIPSIS|..];
    assert pb == pb[..|pb| - |ELLIPSIS|] + pb[|pb| - |ELLIPSIS|..];
  }

  /** `doc.metadata.get('source', 'Unknown source')`. */
  function SourceLabel(doc: Document): (l: string)
    ensures SOURCE_KEY in doc.metadata ==> l == doc.metadata[SOURCE_KEY]
    ensures SOURCE_KEY !in doc.metadata ==> l == UNKNOWN_SOURCE
  {
    if SOURCE_KEY in doc.metadata then doc.metadata[SOURCE_KEY] else UNKNOWN_SOURCE
  }

  /** The entries of docs, numbered from `first` on. */
  function EntriesFrom(docs: seq<Document>, first: nat): (es: seq<SourceEntry>)
    ensures |es| == |docs|
    ensures forall i | 0 <= i < |docs| ::
      es[i] == SourceEntry(first + i, SourceLabel(docs[i]), Preview(docs[i].pageContent))
  {
    if docs == [] then []
    else [SourceEntry(first, SourceLabel(docs[0]), Preview(docs[0].pageContent))]
         + EntriesFrom(docs[1..], first + 1)
  }

  /** `for i, doc in enumerate(source_docs)`: one entry per retrieved document, in
      retrieval order, the i-th (from 0) numbered i + 1. */
  function SourceEntries(docs: seq<Document>): (es: seq<SourceEntry>)
    ensures |es| == |docs|
    ensures forall i | 0 <= i < |docs| ::
      es[i].number == i + 1
      && es[i].source == SourceLabel(docs[i])
      && es[i].preview == Preview(docs[i].pageContent)
  {
    EntriesFrom(docs, 1)
  }

  /** Listing is compositional: the sources of a longer retrieval extend those of a shorter one,
      the new documents numbered after the old. */
  lemma {:induction false} EntriesAppend(a: seq<Document>, b: seq<Document>)
    ensures SourceEntries(a + b) == SourceEntries(a) + EntriesFrom(b, |a| + 1)
  {
    var l := SourceEntries(a + b);
    var r := SourceEntries(a) + EntriesFrom(b, |a| + 1);
    assert |l| == |r|;
    forall i | 0 <= i < |l|
      ensures l[i] == r[i]
    {
      if i < |a| {
        assert (a + b)[i] == a[i];
      } else {
        assert (a + b)[i] == b[i - |a|];
      }
    }
  }
}
