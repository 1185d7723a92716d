/** Cutting an artifact into overlapping embedding documents. Positions are character positions, limits on documents
    are in UTF-8 bytes, so the end of a chunk is found by bisection over a size that only grows. */
module ArtifactChunks {
  import opened Text

  const CHARACTERS: nat := 6000
  const OVERLAP: nat := 600
  const MAX_BYTES: nat := 8000

  // ----- documents and their size -----

  const HEAD: string := "centaur-artifact-chunk-v1\ntitle: "
  const MIDDLE: string := "\ncontent: "

  function Document(title: string, body: string): string {
    HEAD + title + MIDDLE + body
  }

  lemma FixedBytes()
    ensures Bytes(HEAD) == 33 && Bytes(MIDDLE) == 10
  {
    hide Utf8, Encoded;
    AsciiBytes(HEAD);
    AsciiBytes(MIDDLE);
  }

  lemma DocumentBytes(title: string, body: string)
    ensures Bytes(Document(title, body)) == 43 + Bytes(title) + Bytes(body)
  {
    hide Utf8, HEAD, MIDDLE;
    FixedBytes();
    Utf8Concat(HEAD, title);
    Utf8Concat(HEAD + title, MIDDLE);
    Utf8Concat(HEAD + title + MIDDLE, body);
  }

  /** The document of characters [start, end) is small enough. */
  predicate Fits(title: string, content: string, start: nat, end: nat)
    requires start <= end <= |content|
  {
    Bytes(Document(title, content[start..end])) <= MAX_BYTES
  }

  lemma SliceBytes(content: string, start: nat, middle: nat, end: nat)
    requires start <= middle <= end <= |content|
    ensures Bytes(content[start..end]) == Bytes(content[start..middle]) + Bytes(content[middle..end])
  {
    Utf8Concat(content[start..middle], content[middle..end]);
    assert content[start..middle] + content[middle..end] == content[start..end];
  }

  lemma FitsShrinks(title: string, content: string, start: nat, middle: nat, end: nat)
    requires start <= middle <= end <= |content| && Fits(title, content, start, end)
    ensures Fits(title, content, start, middle)
  {
    SliceBytes(content, start, middle, end);
    DocumentBytes(title, content[start..end]);
    DocumentBytes(title, content[start..middle]);
  }

  // ----- where a chunk ends -----

  /** A paragraph break: this position and the one before hold newlines. */
  predicate Break(content: string, i: nat) {
    0 < i < |content| && content[i - 1] == '\n' && content[i] == '\n'
  }

  function Hard(content: string, start: nat): nat {
    if start + CHARACTERS <= |content| then start + CHARACTERS else |content|
  }

  /** How far a chunk may reach: the end of the content, or 6000 characters on, pulled back to the last paragraph
      break of the second half if there is one. */
  ghost predicate IsLimit(content: string, start: nat, limit: nat) {
    var hard := Hard(content, start);
    if hard < |content| && (exists i :: start + CHARACTERS / 2 <= i < hard && Break(content, i))
    then start + CHARACTERS / 2 <= limit < hard && Break(content, limit) && forall i :: limit < i < hard ==>
        !Break(content, i)
    else limit == hard
  }

  /** The greatest end up to `limit` whose document fits; `start` when not even one character does. */
  ghost predicate GreatestFit(title: string, content: string, start: nat, limit: nat, end: nat)
    requires start <= limit <= |content|
  {
    && start <= end <= limit
    && (end > start ==> Fits(title, content, start, end))
    && forall e :: end < e <= limit ==> !Fits(title, content, start, e)
  }

  ghost predicate IsEnd(title: string, content: string, start: nat, end: nat) {
    exists limit: nat :: start <= limit <= |content| && IsLimit(content, start, limit)
        && GreatestFit(title, content, start, limit, end)
  }

  function NextStart(start: nat, end: nat): nat {
    var next := if end >= OVERLAP then end - OVERLAP else 0;
    if next > start + 1 then next else start + 1
  }

  /** Chunk after chunk from the beginning, each with its own end; the last reaches the end of the content or is
      followed by a character that fits no document. */
  ghost predicate Chain(title: string, content: string, chunks: seq<(nat, nat)>) {
    && (|chunks| > 0 ==> chunks[0].0 == 0)
    && (forall k :: 0 <= k < |chunks| ==>
        chunks[k].0 < chunks[k].1 <= |content| && IsEnd(title, content, chunks[k].0, chunks[k].1))
    && (forall k :: 0 <= k < |chunks| - 1 ==>
        chunks[k].1 < |content| && chunks[k + 1].0 == NextStart(chunks[k].0, chunks[k].1))
  }

  /** Where the next chunk would start. */
  function Resume(chunks: seq<(nat, nat)>): nat {
    if chunks == [] then 0 else NextStart(chunks[|chunks| - 1].0, chunks[|chunks| - 1].1)
  }

  ghost predicate Stuck(title: string, content: string, start: nat) {
    start < |content| && IsEnd(title, content, start, start)
  }

  ghost predicate Chunked(title: string, content: string, chunks: seq<(nat, nat)>) {
    && Chain(title, content, chunks)
    && (content == "" ==> chunks == [])
    && (content != "" ==>
        (chunks != [] && chunks[|chunks| - 1].1 == |content|) || Stuck(title, content, Resume(chunks)))
  }

  // ----- the loops -----

  /** The reverse search for a paragraph break. */
  method FindLimit(content: string, start: nat) returns (limit: nat)
    requires start < |content|
    ensures start < limit <= |content| && IsLimit(content, start, limit)
  {
    var hard := Hard(content, start);
    limit := hard;
    if hard < |content| {
      var index := hard;
      while index > start + CHARACTERS / 2
        invariant start + CHARACTERS / 2 <= index <= hard
        invariant forall i :: index <= i < hard ==> !Break(content, i)
      {
        index := index - 1;
        if content[index - 1] == '\n' && content[index] == '\n' {
          assert Break(content, index);
          return index;
        }
      }
    }
  }

  /** The bisection. */
  method FindEnd(title: string, content: string, start: nat, limit: nat) returns (end: nat)
    requires start < limit <= |content|
    ensures GreatestFit(title, content, start, limit, end)
  {
    hide Fits;
    end := limit;
    if !Fits(title, content, start, limit) {
      var low, high := start + 1, limit;
      end := start;
      while low <= high
        invariant start <= end < low <= high + 1 <= limit + 1 && low == end + 1
        invariant end > start ==> Fits(title, content, start, end)
        invariant forall e :: high < e <= limit ==> !Fits(title, content, start, e)
      {
        var middle := low + (high - low) / 2;
        if Fits(title, content, start, middle) {
          end := middle;
          low := middle + 1;
        } else {
          forall e | middle <= e <= limit ensures !Fits(title, content, start, e) {
            if Fits(title, content, start, e) { FitsShrinks(title, content, start, middle, e); }
          }
          high := middle - 1;
        }
      }
    }
  }

  method Chunks(title: string, content: string) returns (chunks: seq<(nat, nat)>)
    ensures Chunked(title, content, chunks)
  {
    hide IsEnd;
    chunks := [];
    if content == "" { return; }
    var start := 0;
    while start < |content|
      invariant Chain(title, content, chunks) && start == Resume(chunks) <= |content|
      invariant forall k :: 0 <= k < |chunks| ==> chunks[k].1 < |content|
    {
      var limit := FindLimit(content, start);
      var end := FindEnd(title, content, start, limit);
      EndFound(title, content, start, limit, end);
      if end == start { return; }
      chunks := chunks + [(start, end)];
      if end == |content| { return; }
      start := NextStart(start, end);
    }
  }

  lemma EndFound(title: string, content: string, start: nat, limit: nat, end: nat)
    requires start <= limit <= |content| && IsLimit(content, start, limit)
        && GreatestFit(title, content, start, limit, end)
    ensures IsEnd(title, content, start, end)
  {
  }

  // ----- what a chunking promises -----

  /** Every document is within the byte and character limits. */
  lemma ChunkFits(title: string, content: string, chunks: seq<(nat, nat)>, k: nat)
    requires Chain(title, content, chunks) && k < |chunks|
    ensures chunks[k].0 < chunks[k].1 <= |content| && chunks[k].1 - chunks[k].0 <= CHARACTERS
    ensures Bytes(Document(title, content[chunks[k].0..chunks[k].1])) <= MAX_BYTES
  {
  }

  /** Starts increase, chunks leave no gap, and share exactly 600 characters when the first is longer than that. */
  lemma ChunksOverlap(title: string, content: string, chunks: seq<(nat, nat)>, k: nat)
    requires Chain(title, content, chunks) && k + 1 < |chunks|
    ensures chunks[k].0 < chunks[k + 1].0 <= chunks[k].1
    ensures chunks[k].1 - chunks[k].0 > OVERLAP ==> chunks[k].1 - chunks[k + 1].0 == OVERLAP
    ensures chunks[k].1 - chunks[k].0 <= OVERLAP ==> chunks[k + 1].0 == chunks[k].0 + 1
  {
  }

  predicate Covers(chunks: seq<(nat, nat)>, i: nat) {
    exists k :: 0 <= k < |chunks| && chunks[k].0 <= i < chunks[k].1
  }

  lemma {:induction false} ChainCovers(title: string, content: string, chunks: seq<(nat, nat)>, i: nat)
    requires Chain(title, content, chunks) && chunks != [] && i < chunks[|chunks| - 1].1
    ensures Covers(chunks, i)
  {
    hide IsEnd;
    var last := |chunks| - 1;
    if chunks[last].0 <= i {
    } else {
      assert last > 0 && chunks[last].0 <= chunks[last - 1].1;
      ChainCovers(title, content, chunks[..last], i);
      var k :| 0 <= k < last && chunks[..last][k].0 <= i < chunks[..last][k].1;
      assert chunks[k] == chunks[..last][k];
    }
  }

  /** A character whose own document is too large. */
  predicate TooWide(title: string, content: string, i: nat)
    requires i < |content|
  {
    !Fits(title, content, i, i + 1)
  }

  lemma StuckIsTooWide(title: string, content: string, start: nat)
    requires Stuck(title, content, start)
    ensures TooWide(title, content, start)
  {
  }

  lemma WideFitsNowhere(title: string, content: string, chunks: seq<(nat, nat)>, i: nat, k: nat)
    requires Chain(title, content, chunks) && k < |chunks| && chunks[k].0 <= i < chunks[k].1
    ensures !TooWide(title, content, i)
  {
    var (start, end) := chunks[k];
    ChunkFits(title, content, chunks, k);
    SliceBytes(content, start, i, end);
    SliceBytes(content, i, i + 1, end);
    DocumentBytes(title, content[start..end]);
    DocumentBytes(title, content[i..i + 1]);
  }

  /** Main theorem: the chunks cover all the content exactly when every character fits a document of its own. */
  lemma CoverageIff(title: string, content: string, chunks: seq<(nat, nat)>)
    requires Chunked(title, content, chunks)
    ensures (forall i :: 0 <= i < |content| ==> Covers(chunks, i)) <==>
        (forall i :: 0 <= i < |content| ==> !TooWide(title, content, i))
  {
    hide Fits, TooWide, Stuck, Chain, IsEnd;
    if content != "" {
      if chunks != [] && chunks[|chunks| - 1].1 == |content| {
        forall i | 0 <= i < |content| ensures Covers(chunks, i) && !TooWide(title, content, i) {
          ChainCovers(title, content, chunks, i);
          var k :| 0 <= k < |chunks| && chunks[k].0 <= i < chunks[k].1;
          WideFitsNowhere(title, content, chunks, i, k);
        }
      } else {
        var start := Resume(chunks);
        StuckStart(title, content, start);
        StuckIsTooWide(title, content, start);
        forall k | 0 <= k < |chunks| ensures !(chunks[k].0 <= start < chunks[k].1) {
          if chunks[k].0 <= start < chunks[k].1 { WideFitsNowhere(title, content, chunks, start, k); }
        }
        assert TooWide(title, content, start) && !Covers(chunks, start);
      }
    }
  }

  lemma StuckStart(title: string, content: string, start: nat)
    requires Stuck(title, content, start)
    ensures start < |content|
  {
  }

  lemma RoomFor(title: string, content: string, start: nat, end: nat)
    requires start <= end <= |content| && end - start <= 1489 && Bytes(title) <= 2000
    ensures Fits(title, content, start, end)
  {
    BytesBounds(content[start..end]);
    DocumentBytes(title, content[start..end]);
  }

  /** With a title of at most 2000 bytes nothing is lost, every chunk but the last has at least 1489 characters, and
      each step advances by at least 889. */
  lemma ShortTitleProgress(title: string, content: string, chunks: seq<(nat, nat)>, k: nat)
    requires Chunked(title, content, chunks) && Bytes(title) <= 2000 && k + 1 < |chunks|
    ensures chunks[k].1 - chunks[k].0 >= 1489 && chunks[k + 1].0 - chunks[k].0 >= 889
  {
    hide Fits;
    var (start, end) := chunks[k];
    var limit: nat :| start <= limit <= |content| && IsLimit(content, start, limit)
        && GreatestFit(title, content, start, limit, end);
    if end < limit && end - start < 1489 { RoomFor(title, content, start, end + 1); }
  }

  lemma ShortTitleCovers(title: string, content: string, chunks: seq<(nat, nat)>, i: nat)
    requires Chunked(title, content, chunks) && Bytes(title) <= 2000 && i < |content|
    ensures Covers(chunks, i)
  {
    hide Fits, Chunked;
    forall j | 0 <= j < |content| ensures !TooWide(title, content, j) { RoomFor(title, content, j, j + 1); }
    CoverageIff(title, content, chunks);
  }
}
