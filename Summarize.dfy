/** summarize.py: `summarize_text` and its nested `chunk_text`. The Hugging Face
    summarisation pipeline is an oracle `summarizer` from a chunk to the outcome of
    one call (its `[0]["summary_text"]` on success, the raised exception otherwise). */
module Summarize {
  import opened Outcomes
  import opened PyText

  /** `chunk_text`'s default `max_tokens`, the only value `summarize_text` uses. */
  const MaxTokens: nat := 500

  const NoSummary: string := "No summary available."
  const ChunkErrorPlaceholder: string := "Error summarizing this part."
  const SummarySeparator: string := "\n\n"

  /** Python's `s[:n]`. */
  function Take<T>(s: seq<T>, n: nat): seq<T>
  {
    if |s| <= n then s else s[..n]
  }

  /** Python's `s[n:]`. */
  function Drop<T>(s: seq<T>, n: nat): seq<T>
  {
    if |s| <= n then [] else s[n..]
  }

  /** The word groups `words[0:n]`, `words[n:2n]`, ... that `chunk_text` visits. */
  function Chunked(words: seq<string>, n: nat): seq<seq<string>>
    requires n > 0
    decreases |words|
  {
    if words == [] then [] else [Take(words, n)] + Chunked(Drop(words, n), n)
  }

  /** `" ".join(group)` for every group, in order. */
  function JoinEach(groups: seq<seq<string>>): (chunks: seq<string>)
    ensures |chunks| == |groups|
  {
    if groups == [] then [] else [JoinWith(" ", groups[0])] + JoinEach(groups[1..])
  }

  /** `text.split()` applied to every chunk, in order. */
  function SplitEach(chunks: seq<string>): (groups: seq<seq<string>>)
    ensures |groups| == |chunks|
    ensures forall k :: 0 <= k < |chunks| ==> groups[k] == Split(chunks[k])
  {
    if chunks == [] then [] else [Split(chunks[0])] + SplitEach(chunks[1..])
  }

  /** The chunk strings `chunk_text(text, n)` returns. */
  function ChunkStrings(text: string, n: nat): seq<string>
    requires n > 0
  {
    ChunksFrom(Split(text), 0, n)
  }

  /** What one chunk contributes to `summaries`: the summary text, or the fixed
      placeholder when the summariser raised. */
  function ChunkSummary(outcome: Outcome<string>): string
  {
    match outcome
    case Ok(summary) => summary
    case Err(_) => ChunkErrorPlaceholder
  }

  /** The list `summaries` after the loop: one entry per chunk, in chunk order. */
  function ChunkSummaries(chunks: seq<string>, summarizer: string -> Outcome<string>): (summaries: seq<string>)
    ensures |summaries| == |chunks|
    ensures forall k :: 0 <= k < |chunks| ==> summaries[k] == ChunkSummary(summarizer(chunks[k]))
  {
    seq(|chunks|, k requires 0 <= k < |chunks| => ChunkSummary(summarizer(chunks[k])))
  }

  // ---------------------------------------------------------------------------
  // Properties of the chunking

  /** The word groups, put back together in order, are the input words. */
  lemma {:induction false} ChunkedFlatten(words: seq<string>, n: nat)
    requires n > 0
    ensures Flatten(Chunked(words, n)) == words
    decreases |words|
  {
    if words != [] {
      var g := Chunked(words, n);
      ChunkedFlatten(Drop(words, n), n);
      assert g[0] == Take(words, n);
      assert g[1..] == Chunked(Drop(words, n), n);
      assert Take(words, n) + Drop(words, n) == words;
    }
  }

  /** No group is empty, none exceeds `n` words, and all but the last have exactly `n`. */
  lemma {:induction false} ChunkedSizes(words: seq<string>, n: nat)
    requires n > 0
    ensures forall k :: 0 <= k < |Chunked(words, n)| ==>
      0 < |Chunked(words, n)[k]| <= n &&
      (k < |Chunked(words, n)| - 1 ==> |Chunked(words, n)[k]| == n)
    decreases |words|
  {
    if words != [] {
      var g := Chunked(words, n);
      ChunkedSizes(Drop(words, n), n);
      assert g[1..] == Chunked(Drop(words, n), n);
      forall k | 0 < k < |g| ensures g[k] == Chunked(Drop(words, n), n)[k - 1] { }
      if |words| <= n {
        assert Drop(words, n) == [];
        assert |g| == 1;
      }
    }
  }

  /** There are ceil(|words| / n) groups: enough to hold every word, and one fewer
      would not be. */
  lemma {:induction false} ChunkedCount(words: seq<string>, n: nat)
    requires n > 0
    ensures words == [] <==> Chunked(words, n) == []
    ensures words != [] ==> (|Chunked(words, n)| - 1) * n < |words| <= |Chunked(words, n)| * n
    decreases |words|
  {
    if words != [] {
      var rest := Drop(words, n);
      ChunkedCount(rest, n);
      var c := |Chunked(rest, n)|;
      assert |Chunked(words, n)| == c + 1;
      if |words| > n {
        assert |words| == |rest| + n;
        assert (c + 1) * n == c * n + n;
        assert c * n == (c - 1) * n + n;
      }
    }
  }

  /** The chunks `chunk_text` appends from index `i` on: `" ".join(words[i:i + n])`,
      then the chunks from `i + n` on. */
  function ChunksFrom(words: seq<string>, i: nat, n: nat): seq<string>
    requires n > 0
    decreases |words| - i
  {
    if i >= |words| then []
    else [JoinWith(" ", words[i..if i + n <= |words| then i + n else |words|])] + ChunksFrom(words, i + n, n)
  }

  /** The chunks from index `i` on are the word groups of `words[i:]`, each joined with spaces. */
  lemma {:induction false} ChunksFromGroups(words: seq<string>, i: nat, n: nat)
    requires n > 0
    ensures ChunksFrom(words, i, n) == JoinEach(Chunked(Drop(words, i), n))
    decreases |words| - i
  {
    if i < |words| {
      ChunksFromGroups(words, i + n, n);
      var rest := Drop(words, i);
      assert rest == words[i..];
      assert Take(rest, n) == words[i..if i + n <= |words| then i + n else |words|];
      assert Drop(rest, n) == Drop(words, i + n);
      var g := Chunked(rest, n);
      assert g[0] == Take(rest, n);
      assert g[1..] == Chunked(Drop(rest, n), n);
    } else {
      assert Drop(words, i) == [];
    }
  }

  lemma ChunkStringsJoinGroups(words: seq<string>, n: nat)
    requires n > 0
    ensures ChunksFrom(words, 0, n) == JoinEach(Chunked(words, n))
  {
    ChunksFromGroups(words, 0, n);
    assert Drop(words, 0) == words;
  }

  /** Every group of words taken from `text.split()` joins to a chunk whose own
      `split()` gives that group back. */
  lemma {:induction false} SplitJoinEach(groups: seq<seq<string>>)
    requires forall k :: 0 <= k < |groups| ==> AllWords(groups[k])
    ensures SplitEach(JoinEach(groups)) == groups
  {
    if groups != [] {
      SplitJoinRoundTrip(groups[0]);
      SplitJoinEach(groups[1..]);
      assert JoinEach(groups)[1..] == JoinEach(groups[1..]);
    }
  }

  lemma ChunkedAreWords(words: seq<string>, n: nat)
    requires n > 0
    requires AllWords(words)
    ensures forall k :: 0 <= k < |Chunked(words, n)| ==> AllWords(Chunked(words, n)[k])
    decreases |words|
  {
    if words != [] {
      ChunkedAreWords(Drop(words, n), n);
      var g := Chunked(words, n);
      forall k | 0 < k < |g| ensures g[k] == Chunked(Drop(words, n), n)[k - 1] { }
    }
  }

  /** Each chunk of `chunk_text`, split back into words, is its word group. */
  lemma ChunksSplitToGroups(text: string, n: nat)
    requires n > 0
    ensures SplitEach(ChunkStrings(text, n)) == Chunked(Split(text), n)
  {
    ChunkStringsJoinGroups(Split(text), n);
    ChunkedAreWords(Split(text), n);
    SplitJoinEach(Chunked(Split(text), n));
  }

  /** Round trip: the words of the chunks, in chunk order, are exactly `text.split()`. */
  lemma ChunksRoundTrip(text: string, n: nat)
    requires n > 0
    ensures Flatten(SplitEach(ChunkStrings(text, n))) == Split(text)
  {
    ChunksSplitToGroups(text, n);
    ChunkedFlatten(Split(text), n);
  }

  /** No chunk is empty, none exceeds `n` words, and all but the last have exactly `n`. */
  lemma ChunkWordCounts(text: string, n: nat)
    requires n > 0
    ensures forall k :: 0 <= k < |ChunkStrings(text, n)| ==>
      0 < |Split(ChunkStrings(text, n)[k])| <= n &&
      (k < |ChunkStrings(text, n)| - 1 ==> |Split(ChunkStrings(text, n)[k])| == n)
  {
    ChunksSplitToGroups(text, n);
    ChunkedSizes(Split(text), n);
  }

  /** `chunk_text` returns no chunk exactly when the text is blank. */
  lemma ChunkStringsEmptyIffBlank(text: string, n: nat)
    requires n > 0
    ensures ChunkStrings(text, n) == [] <==> IsBlank(text)
  {
    BlankIffNoWords(text);
    ChunkStringsJoinGroups(Split(text), n);
    ChunkedCount(Split(text), n);
  }

  /** `chunk_text(text)` returns ceil(w / 500) chunks, where w is the number of words. */
  lemma ChunkCount(text: string)
    ensures |ChunkStrings(text, MaxTokens)| == (|Split(text)| + MaxTokens - 1) / MaxTokens
  {
    ChunkStringsJoinGroups(Split(text), MaxTokens);
    ChunkedCount(Split(text), MaxTokens);
  }

  // ---------------------------------------------------------------------------
  // The two functions of summarize.py

  /** `chunk_text(text, max_tokens)`: split into words, then walk an index `i` in steps
      of `max_tokens`, appending `" ".join(words[i:i + max_tokens])` each time. */
  method ChunkText(text: string, maxTokens: nat) returns (chunks: seq<string>)
    requires maxTokens > 0
    ensures chunks == ChunkStrings(text, maxTokens)
    ensures Flatten(SplitEach(chunks)) == Split(text)
    ensures forall k :: 0 <= k < |chunks| ==> 0 < |Split(chunks[k])| <= maxTokens
  {
    var words := Split(text);
    chunks := [];
    var i: nat := 0;
    while i < |words|
      invariant chunks + ChunksFrom(words, i, maxTokens) == ChunksFrom(words, 0, maxTokens)
      decreases |words| - i
    {
      var chunk := words[i..if i + maxTokens <= |words| then i + maxTokens else |words|];
      ghost var later := ChunksFrom(words, i + maxTokens, maxTokens);
      assert (chunks + [JoinWith(" ", chunk)]) + later == chunks + ([JoinWith(" ", chunk)] + later);
      chunks := chunks + [JoinWith(" ", chunk)];
      i := i + maxTokens;
    }
    assert chunks == ChunkStrings(text, maxTokens);
    ChunksRoundTrip(text, maxTokens);
    ChunkWordCounts(text, maxTokens);
  }

  /** The `for chunk in text_chunks` loop of `summarize_text`: one call of the summariser
      per chunk, in order, appending its summary or, when it raised, the placeholder. */
  method SummarizeChunks(textChunks: seq<string>, summarizer: string -> Outcome<string>)
    returns (summaries: seq<string>)
    ensures summaries == ChunkSummaries(textChunks, summarizer)
  {
    summaries := [];
    for k := 0 to |textChunks|
      invariant |summaries| == k
      invariant forall j :: 0 <= j < k ==> summaries[j] == ChunkSummary(summarizer(textChunks[j]))
    {
      match summarizer(textChunks[k])
      case Ok(s) =>
        summaries := summaries + [s];
      case Err(_) =>
        summaries := summaries + [ChunkErrorPlaceholder];
    }
  }

  /** `summarize_text(cleaned_text)`. Besides the summary it returns `calls`, the
      chunks handed to the summariser, in the order it was called on them. */
  method SummarizeText(cleanedText: string, summarizer: string -> Outcome<string>)
    returns (summary: string, calls: seq<string>)
    ensures calls == ChunkStrings(cleanedText, MaxTokens)
    ensures IsBlank(cleanedText) <==> calls == []
    ensures IsBlank(cleanedText) ==> summary == NoSummary
    ensures !IsBlank(cleanedText) ==> summary == JoinWith(SummarySeparator, ChunkSummaries(calls, summarizer))
    ensures summary == SummaryOf(cleanedText, summarizer)
  {
    if IsBlank(cleanedText) {
      ChunkStringsEmptyIffBlank(cleanedText, MaxTokens);
      return NoSummary, [];
    }
    var textChunks := ChunkText(cleanedText, MaxTokens);
    if |textChunks| == 0 {
      // The second guard of summarize.py cannot fire: a non-blank text has a word.
      ChunkStringsEmptyIffBlank(cleanedText, MaxTokens);
      assert false;
    }
    var summaries := SummarizeChunks(textChunks, summarizer);
    ChunkStringsEmptyIffBlank(cleanedText, MaxTokens);
    return JoinWith(SummarySeparator, summaries), textChunks;
  }

  /** Reference view of `summarize_text`'s result, for the lemmas below. */
  function SummaryOf(cleanedText: string, summarizer: string -> Outcome<string>): string
  {
    if IsBlank(cleanedText) then NoSummary
    else JoinWith(SummarySeparator, ChunkSummaries(ChunkStrings(cleanedText, MaxTokens), summarizer))
  }

  /** Chunk order is kept: the summary of chunk `k` (or the placeholder, if the
      summariser raised on it) sits in the final summary after the entries of all earlier
      chunks, each followed by a blank line. */
  lemma SummaryKeepsChunkOrder(cleanedText: string, summarizer: string -> Outcome<string>, k: nat)
    requires !IsBlank(cleanedText)
    requires k < |ChunkStrings(cleanedText, MaxTokens)|
    ensures var chunks := ChunkStrings(cleanedText, MaxTokens);
      var entries := ChunkSummaries(chunks, summarizer);
      var at := JoinOffset(SummarySeparator, entries, k);
      at + |entries[k]| <= |SummaryOf(cleanedText, summarizer)| &&
      SummaryOf(cleanedText, summarizer)[at..at + |entries[k]|]
        == (if summarizer(chunks[k]).Ok? then summarizer(chunks[k]).value else ChunkErrorPlaceholder)
  {
    var chunks := ChunkStrings(cleanedText, MaxTokens);
    var entries := ChunkSummaries(chunks, summarizer);
    assert SummaryOf(cleanedText, summarizer) == JoinWith(SummarySeparator, entries);
    JoinWithAt(SummarySeparator, entries, k);
    assert entries[k] == ChunkSummary(summarizer(chunks[k]));
  }

  /** With a single chunk (at most 500 words) the result is that chunk's summary alone. */
  lemma SingleChunkSummary(cleanedText: string, summarizer: string -> Outcome<string>)
    requires !IsBlank(cleanedText)
    requires |Split(cleanedText)| <= MaxTokens
    ensures |ChunkStrings(cleanedText, MaxTokens)| == 1
    ensures SummaryOf(cleanedText, summarizer) == ChunkSummary(summarizer(JoinWith(" ", Split(cleanedText))))
  {
    ChunkStringsJoinGroups(Split(cleanedText), MaxTokens);
    ChunkedCount(Split(cleanedText), MaxTokens);
    BlankIffNoWords(cleanedText);
    var words := Split(cleanedText);
    assert Chunked(words, MaxTokens) == [words];
  }
}
