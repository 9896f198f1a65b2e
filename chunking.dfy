/** The token-window chunker of backend/app/services/chunking.py.
    The tokenizer (tiktoken's `encode`/`decode`) is a pair of function parameters. */
module Chunking {
  import opened Common

  /** One emitted chunk: the decoded text of a window and the number of tokens in that window. */
  datatype Chunk = Chunk(text: string, tokenCount: int)

  /** `count_tokens`: the number of tokens the text encodes to. */
  function CountTokens(encode: string -> seq<int>, text: string): nat {
    |encode(text)|
  }

  // ---------------------------------------------------------------------------
  // One iteration of the window loop

  /** `end = min(len(tokens), start + chunk_size)` */
  function WindowEnd(n: nat, chunkSize: int, start: int): int {
    Min(n, start + chunkSize)
  }

  /** `start = end - overlap`, then clamped to 0. */
  function NextStart(n: nat, chunkSize: int, overlap: int, start: int): int {
    var s := WindowEnd(n, chunkSize, start) - overlap;
    if s < 0 then 0 else s
  }

  /** `tokens[start:end]` */
  function Window(tokens: seq<int>, chunkSize: int, start: int): seq<int> {
    PySlice(tokens, start, WindowEnd(|tokens|, chunkSize, start))
  }

  /** The pair `(enc.decode(window), len(window))` appended for the window at start. */
  function ChunkAt(decode: seq<int> -> string, tokens: seq<int>, chunkSize: int, start: int): Chunk {
    var w := Window(tokens, chunkSize, start);
    Chunk(decode(w), |w|)
  }

  /** The chunks emitted for a sequence of window starts, in order. */
  function ChunksOf(decode: seq<int> -> string, tokens: seq<int>, chunkSize: int, starts: seq<int>): seq<Chunk> {
    if |starts| == 0 then []
    else [ChunkAt(decode, tokens, chunkSize, starts[0])] + ChunksOf(decode, tokens, chunkSize, starts[1..])
  }

  /** The concatenation of the windows at the given starts. */
  function Covered(tokens: seq<int>, chunkSize: int, starts: seq<int>): seq<int> {
    if |starts| == 0 then []
    else Window(tokens, chunkSize, starts[0]) + Covered(tokens, chunkSize, starts[1..])
  }

  /** The sum of the token counts of the chunks. */
  function TotalTokens(chunks: seq<Chunk>): int {
    if |chunks| == 0 then 0 else chunks[0].tokenCount + TotalTokens(chunks[1..])
  }

  // ---------------------------------------------------------------------------
  // The loop as written

  /** The window starts the loop visits from `start` within `fuel` iterations. */
  function Starts(n: nat, chunkSize: int, overlap: int, start: int, fuel: nat): seq<int>
    decreases fuel
  {
    if fuel == 0 || start >= n then []
    else [start] + Starts(n, chunkSize, overlap, NextStart(n, chunkSize, overlap, start), fuel - 1)
  }

  /** Whether the loop guard `start < len(tokens)` fails within `fuel` iterations from `start`. */
  predicate Exits(n: nat, chunkSize: int, overlap: int, start: int, fuel: nat)
    decreases fuel
  {
    if start >= n then true
    else if fuel == 0 then false
    else Exits(n, chunkSize, overlap, NextStart(n, chunkSize, overlap, start), fuel - 1)
  }

  /** `chunk_text` as written, run for at most `fuel` iterations of its loop; `exited` says
      whether the loop ended by itself within that budget. */
  method ChunkText(encode: string -> seq<int>, decode: seq<int> -> string, text: string,
                   chunkSize: int, overlap: int, fuel: nat)
    returns (chunks: seq<Chunk>, exited: bool)
    ensures chunks == ChunksOf(decode, encode(text), chunkSize, Starts(|encode(text)|, chunkSize, overlap, 0, fuel))
    ensures exited == Exits(|encode(text)|, chunkSize, overlap, 0, fuel)
    ensures |encode(text)| == 0 ==> chunks == [] && exited
  {
    var tokens := encode(text);
    chunks := [];
    var start := 0;
    var steps: nat := 0;
    while start < |tokens| && steps < fuel
      invariant steps <= fuel
      invariant chunks + ChunksOf(decode, tokens, chunkSize, Starts(|tokens|, chunkSize, overlap, start, fuel - steps))
             == ChunksOf(decode, tokens, chunkSize, Starts(|tokens|, chunkSize, overlap, 0, fuel))
      invariant Exits(|tokens|, chunkSize, overlap, start, fuel - steps) == Exits(|tokens|, chunkSize, overlap, 0, fuel)
      decreases fuel - steps
    {
      var end := Min(|tokens|, start + chunkSize);
      var window := PySlice(tokens, start, end);
      ghost var c := ChunkAt(decode, tokens, chunkSize, start);
      assert c == Chunk(decode(window), |window|);
      ghost var rest := Starts(|tokens|, chunkSize, overlap, NextStart(|tokens|, chunkSize, overlap, start), fuel - steps - 1);
      assert Starts(|tokens|, chunkSize, overlap, start, fuel - steps) == [start] + rest;
      ChunksOfCons(decode, tokens, chunkSize, start, rest);
      AppendAssoc(chunks, [c], ChunksOf(decode, tokens, chunkSize, rest));
      chunks := chunks + [Chunk(decode(window), |window|)];
      start := end - overlap;
      if start < 0 {
        start := 0;
      }
      steps := steps + 1;
    }
    exited := start >= |tokens|;
  }

  lemma {:induction false} ChunksOfCons(decode: seq<int> -> string, tokens: seq<int>, chunkSize: int, s: int, rest: seq<int>)
    ensures ChunksOf(decode, tokens, chunkSize, [s] + rest) == [ChunkAt(decode, tokens, chunkSize, s)] + ChunksOf(decode, tokens, chunkSize, rest)
  {
    assert ([s] + rest)[1..] == rest;
  }

  /** The i-th chunk is the chunk of the i-th start. */
  lemma {:induction false} ChunksOfAt(decode: seq<int> -> string, tokens: seq<int>, chunkSize: int, starts: seq<int>)
    ensures |ChunksOf(decode, tokens, chunkSize, starts)| == |starts|
    ensures forall i :: 0 <= i < |starts| ==>
      ChunksOf(decode, tokens, chunkSize, starts)[i] == ChunkAt(decode, tokens, chunkSize, starts[i])
  {
    if |starts| > 0 {
      ChunksOfAt(decode, tokens, chunkSize, starts[1..]);
    }
  }

  /** The first start is the given one, every start lies in [0, n), and each later start is the
      clamped `end - overlap` of the one before. */
  lemma {:induction false} StartsShape(n: nat, chunkSize: int, overlap: int, start: int, fuel: nat)
    requires 0 <= start
    ensures |Starts(n, chunkSize, overlap, start, fuel)| <= fuel
    ensures |Starts(n, chunkSize, overlap, start, fuel)| > 0 ==> Starts(n, chunkSize, overlap, start, fuel)[0] == start
    ensures forall i :: 0 <= i < |Starts(n, chunkSize, overlap, start, fuel)| ==>
      0 <= Starts(n, chunkSize, overlap, start, fuel)[i] < n
    ensures forall i :: 0 <= i < |Starts(n, chunkSize, overlap, start, fuel)| - 1 ==>
      Starts(n, chunkSize, overlap, start, fuel)[i + 1] ==
        NextStart(n, chunkSize, overlap, Starts(n, chunkSize, overlap, start, fuel)[i])
    decreases fuel
  {
    if fuel > 0 && start < n {
      StartsShape(n, chunkSize, overlap, NextStart(n, chunkSize, overlap, start), fuel - 1);
    }
  }

  /** For a positive chunk size, the window at an in-range start is the contiguous slice
      `tokens[start..end]`, non-empty and at most `chunkSize` long. */
  lemma {:induction false} WindowIsSlice(tokens: seq<int>, chunkSize: int, start: int)
    requires chunkSize >= 1 && 0 <= start < |tokens|
    ensures start < WindowEnd(|tokens|, chunkSize, start) <= |tokens|
    ensures Window(tokens, chunkSize, start) == tokens[start..WindowEnd(|tokens|, chunkSize, start)]
    ensures 1 <= |Window(tokens, chunkSize, start)| <= chunkSize
  {
    PySliceInRange(tokens, start, WindowEnd(|tokens|, chunkSize, start));
  }

  /** Every chunk `chunk_text` emits is the decoded slice `tokens[s..e]` of a window with
      `e = min(len, s + chunkSize)`, its token count is `e - s <= chunkSize`, the first window
      starts at 0 and each later one at the clamped `end - overlap` of the window before. */
  lemma {:induction false} AsWrittenWindows(decode: seq<int> -> string, tokens: seq<int>, chunkSize: int, overlap: int, fuel: nat)
    requires chunkSize >= 1
    ensures var starts := Starts(|tokens|, chunkSize, overlap, 0, fuel);
      var chunks := ChunksOf(decode, tokens, chunkSize, starts);
      && |chunks| == |starts| <= fuel
      && (|starts| > 0 ==> starts[0] == 0)
      && (forall i :: 0 <= i < |starts| - 1 ==>
            starts[i + 1] == NextStart(|tokens|, chunkSize, overlap, starts[i]) >= 0)
      && (forall i :: 0 <= i < |starts| ==>
            var s, e := starts[i], WindowEnd(|tokens|, chunkSize, starts[i]);
            && 0 <= s < e <= |tokens| && e - s <= chunkSize
            && chunks[i] == Chunk(decode(tokens[s..e]), e - s))
  {
    var starts := Starts(|tokens|, chunkSize, overlap, 0, fuel);
    StartsShape(|tokens|, chunkSize, overlap, 0, fuel);
    ChunksOfAt(decode, tokens, chunkSize, starts);
    forall i | 0 <= i < |starts|
      ensures var s, e := starts[i], WindowEnd(|tokens|, chunkSize, starts[i]);
        0 <= s < e <= |tokens| && e - s <= chunkSize
        && ChunkAt(decode, tokens, chunkSize, s) == Chunk(decode(tokens[s..e]), e - s)
    {
      WindowIsSlice(tokens, chunkSize, starts[i]);
    }
  }

  /** Before the window reaches the end, an overlap below the chunk size (negative ones
      included) moves the start strictly forward. */
  lemma {:induction false} Progress(n: nat, chunkSize: int, overlap: int, start: int)
    requires 0 <= start && WindowEnd(n, chunkSize, start) < n && overlap < chunkSize
    ensures NextStart(n, chunkSize, overlap, start) > start
  {
  }

  // ---------------------------------------------------------------------------
  // Overlap 0: the loop terminates and the windows partition the tokens

  /** With no overlap, `ceil((n - start) / chunkSize)` iterations suffice for the loop to end;
      the windows' concatenation is exactly `tokens[start..]` and there are that many of them. */
  lemma {:induction false} NoOverlapPartition(tokens: seq<int>, chunkSize: int, start: int, fuel: nat)
    requires chunkSize >= 1 && 0 <= start <= |tokens|
    requires fuel >= CeilDiv(|tokens| - start, chunkSize)
    ensures Exits(|tokens|, chunkSize, 0, start, fuel)
    ensures Covered(tokens, chunkSize, Starts(|tokens|, chunkSize, 0, start, fuel)) == tokens[start..]
    ensures |Starts(|tokens|, chunkSize, 0, start, fuel)| == CeilDiv(|tokens| - start, chunkSize)
    decreases |tokens| - start
  {
    var n := |tokens|;
    if start == n {
      CeilDivZero(chunkSize);
    } else {
      var end := WindowEnd(n, chunkSize, start);
      WindowIsSlice(tokens, chunkSize, start);
      if end == n {
        CeilDivOne(n - start, chunkSize);
        CeilDivZero(chunkSize);
      } else {
        CeilDivStep(n - start, chunkSize);
      }
      assert NextStart(n, chunkSize, 0, start) == end;
      NoOverlapPartition(tokens, chunkSize, end, fuel - 1);
      var rest := Starts(n, chunkSize, 0, end, fuel - 1);
      assert Starts(n, chunkSize, 0, start, fuel) == [start] + rest;
      assert Exits(n, chunkSize, 0, start, fuel) == Exits(n, chunkSize, 0, end, fuel - 1);
      assert ([start] + rest)[1..] == rest;
      assert Covered(tokens, chunkSize, [start] + rest) == tokens[start..end] + Covered(tokens, chunkSize, rest);
      assert tokens[start..end] + tokens[end..] == tokens[start..];
    }
  }

  lemma {:induction false} TotalTokensCovered(decode: seq<int> -> string, tokens: seq<int>, chunkSize: int, starts: seq<int>)
    ensures TotalTokens(ChunksOf(decode, tokens, chunkSize, starts)) == |Covered(tokens, chunkSize, starts)|
  {
    if |starts| > 0 {
      TotalTokensCovered(decode, tokens, chunkSize, starts[1..]);
    }
  }

  /** `chunk_text(text, chunkSize, 0)` terminates after `ceil(N / chunkSize)` windows for N tokens,
      their concatenation is the whole token sequence, and their token counts add up to
      `count_tokens(text)`. */
  lemma {:induction false} NoOverlapChunkText(encode: string -> seq<int>, decode: seq<int> -> string, text: string,
                           chunkSize: int, fuel: nat)
    requires chunkSize >= 1 && fuel >= CeilDiv(CountTokens(encode, text), chunkSize)
    ensures var tokens := encode(text);
      var starts := Starts(|tokens|, chunkSize, 0, 0, fuel);
      && Exits(|tokens|, chunkSize, 0, 0, fuel)
      && Covered(tokens, chunkSize, starts) == tokens
      && |ChunksOf(decode, tokens, chunkSize, starts)| == CeilDiv(|tokens|, chunkSize)
      && TotalTokens(ChunksOf(decode, tokens, chunkSize, starts)) == CountTokens(encode, text)
  {
    var tokens := encode(text);
    var starts := Starts(|tokens|, chunkSize, 0, 0, fuel);
    NoOverlapPartition(tokens, chunkSize, 0, fuel);
    ChunksOfAt(decode, tokens, chunkSize, starts);
    TotalTokensCovered(decode, tokens, chunkSize, starts);
  }

  // ---------------------------------------------------------------------------
  // Overlap >= 1: the loop never ends on a non-empty input

  /** With a positive overlap, every next start stays below n, so the loop guard never fails:
      each of the `fuel` iterations runs and emits a chunk. */
  lemma {:induction false} NeverExits(n: nat, chunkSize: int, overlap: int, start: int, fuel: nat)
    requires overlap >= 1 && 0 <= start < n
    ensures !Exits(n, chunkSize, overlap, start, fuel)
    ensures |Starts(n, chunkSize, overlap, start, fuel)| == fuel
    decreases fuel
  {
    if fuel > 0 {
      NeverExits(n, chunkSize, overlap, NextStart(n, chunkSize, overlap, start), fuel - 1);
    }
  }

  /** Once the window reaches the end (`end == n`) with `1 <= overlap <= chunkSize`, the next
      start `n - overlap` (clamped) is still below n, its window again ends at n, and it is its
      own successor: a fixed point of the loop. */
  lemma {:induction false} FinalWindowFixedPoint(n: nat, chunkSize: int, overlap: int, start: int)
    requires 1 <= overlap <= chunkSize && 0 <= start < n && WindowEnd(n, chunkSize, start) == n
    ensures var s := NextStart(n, chunkSize, overlap, start);
      && s == (if n - overlap < 0 then 0 else n - overlap)
      && s < n
      && WindowEnd(n, chunkSize, s) == n
      && NextStart(n, chunkSize, overlap, s) == s
  {
  }

  /** From the fixed point, the loop visits the same start, and so emits the same final window,
      on every one of its iterations. */
  lemma {:induction false} RepeatsForever(n: nat, chunkSize: int, overlap: int, fuel: nat)
    requires 1 <= overlap <= chunkSize && n >= 1
    ensures var s := if n - overlap < 0 then 0 else n - overlap;
      Starts(n, chunkSize, overlap, s, fuel) == seq(fuel, _ => s)
    decreases fuel
  {
    var s := if n - overlap < 0 then 0 else n - overlap;
    if fuel > 0 {
      assert NextStart(n, chunkSize, overlap, s) == s;
      RepeatsForever(n, chunkSize, overlap, fuel - 1);
      assert Starts(n, chunkSize, overlap, s, fuel) == [s] + seq(fuel - 1, _ => s);
    }
  }

  /** With the default settings (chunk size 900, overlap 120) a text of a single token never
      leaves the loop: every iteration re-emits the window `tokens[0..1]`. */
  lemma {:induction false} DefaultSettingsLoopForever(fuel: nat)
    ensures !Exits(1, 900, 120, 0, fuel)
    ensures Starts(1, 900, 120, 0, fuel) == seq(fuel, _ => 0)
  {
    NeverExits(1, 900, 120, 0, fuel);
    RepeatsForever(1, 900, 120, fuel);
  }

  // ---------------------------------------------------------------------------
  // The evidently intended loop: stop after the window that reaches the end

  /** The window starts of the loop with `if end == len(tokens): break` after the append. An
      overlap below the chunk size makes every window that stops short of the end move the
      start forward, so this loop ends. */
  function StopStarts(n: nat, chunkSize: int, overlap: int, start: int): seq<int>
    requires overlap < chunkSize && 0 <= start
    decreases n - start
  {
    if start >= n then []
    else if WindowEnd(n, chunkSize, start) == n then [start]
    else [start] + StopStarts(n, chunkSize, overlap, NextStart(n, chunkSize, overlap, start))
  }

  /** The chunks of the corrected loop on a text. */
  function Chunks(encode: string -> seq<int>, decode: seq<int> -> string, text: string,
                  chunkSize: int, overlap: int): seq<Chunk>
    requires overlap < chunkSize
  {
    ChunksOf(decode, encode(text), chunkSize, StopStarts(|encode(text)|, chunkSize, overlap, 0))
  }

  /** The corrected `chunk_text`. A text without tokens gives no chunk, whatever the settings,
      as the loop body never runs. Otherwise it is None when `overlap >= chunkSize`, where a
      window that does not reach the end would be followed by one starting no later. */
  function StopAtEndChunks(encode: string -> seq<int>, decode: seq<int> -> string, text: string,
                           chunkSize: int, overlap: int): Option<seq<Chunk>>
  {
    if overlap < chunkSize then Some(Chunks(encode, decode, text, chunkSize, overlap))
    else if |encode(text)| == 0 then Some([])
    else None
  }

  /** The corrected `chunk_text`: same loop, leaving it once a window ends at the last token. */
  method ChunkTextStopAtEnd(encode: string -> seq<int>, decode: seq<int> -> string, text: string,
                            chunkSize: int, overlap: int)
    returns (r: Option<seq<Chunk>>)
    ensures r == StopAtEndChunks(encode, decode, text, chunkSize, overlap)
  {
    var tokens := encode(text);
    if overlap >= chunkSize {
      if |tokens| > 0 {
        return None;
      }
      return Some([]);
    }
    var chunks := [];
    var start := 0;
    while start < |tokens|
      invariant 0 <= start
      invariant chunks + ChunksOf(decode, tokens, chunkSize, StopStarts(|tokens|, chunkSize, overlap, start))
             == ChunksOf(decode, tokens, chunkSize, StopStarts(|tokens|, chunkSize, overlap, 0))
      decreases |tokens| - start
    {
      var end := Min(|tokens|, start + chunkSize);
      var window := PySlice(tokens, start, end);
      ghost var c := ChunkAt(decode, tokens, chunkSize, start);
      assert c == Chunk(decode(window), |window|);
      if end == |tokens| {
        assert StopStarts(|tokens|, chunkSize, overlap, start) == [start];
        ChunksOfCons(decode, tokens, chunkSize, start, []);
        chunks := chunks + [Chunk(decode(window), |window|)];
        break;
      }
      ghost var rest := StopStarts(|tokens|, chunkSize, overlap, NextStart(|tokens|, chunkSize, overlap, start));
      assert StopStarts(|tokens|, chunkSize, overlap, start) == [start] + rest;
      ChunksOfCons(decode, tokens, chunkSize, start, rest);
      AppendAssoc(chunks, [c], ChunksOf(decode, tokens, chunkSize, rest));
      chunks := chunks + [Chunk(decode(window), |window|)];
      start := end - overlap;
      if start < 0 {
        start := 0;
      }
    }
    assert chunks == ChunksOf(decode, tokens, chunkSize, StopStarts(|tokens|, chunkSize, overlap, 0));
    return Some(chunks);
  }

  /** The corrected loop starts at 0, advances by exactly `chunkSize - overlap`, every window but
      the last is a full window ending before n, and the last one ends at n. */
  lemma {:induction false} StopStartsShape(n: nat, chunkSize: int, overlap: int, start: int)
    requires 0 <= overlap < chunkSize && 0 <= start < n
    ensures |StopStarts(n, chunkSize, overlap, start)| >= 1
    ensures StopStarts(n, chunkSize, overlap, start)[0] == start
    ensures forall i :: 0 <= i < |StopStarts(n, chunkSize, overlap, start)| ==>
      start <= StopStarts(n, chunkSize, overlap, start)[i] < n
    ensures forall i :: 0 <= i < |StopStarts(n, chunkSize, overlap, start)| - 1 ==>
      && StopStarts(n, chunkSize, overlap, start)[i] + chunkSize < n
      && StopStarts(n, chunkSize, overlap, start)[i + 1] == StopStarts(n, chunkSize, overlap, start)[i] + chunkSize - overlap
    ensures WindowEnd(n, chunkSize, StopStarts(n, chunkSize, overlap, start)[|StopStarts(n, chunkSize, overlap, start)| - 1]) == n
    decreases n - start
  {
    if WindowEnd(n, chunkSize, start) < n {
      StopStartsShape(n, chunkSize, overlap, NextStart(n, chunkSize, overlap, start));
    }
  }

  function Drop(s: seq<int>, k: int): seq<int> {
    if 0 <= k <= |s| then s[k..] else []
  }

  /** The windows after the first, each with its leading `overlap` tokens removed, concatenated. */
  function StitchTail(tokens: seq<int>, chunkSize: int, overlap: int, starts: seq<int>): seq<int> {
    if |starts| == 0 then []
    else Drop(Window(tokens, chunkSize, starts[0]), overlap) + StitchTail(tokens, chunkSize, overlap, starts[1..])
  }

  /** The first window followed by the non-overlapping parts of the later ones. */
  function Stitched(tokens: seq<int>, chunkSize: int, overlap: int, starts: seq<int>): seq<int> {
    if |starts| == 0 then []
    else Window(tokens, chunkSize, starts[0]) + StitchTail(tokens, chunkSize, overlap, starts[1..])
  }

  lemma {:induction false} StitchTailCovers(tokens: seq<int>, chunkSize: int, overlap: int, start: int)
    requires 0 <= overlap < chunkSize && 0 <= start && start + overlap < |tokens|
    ensures StitchTail(tokens, chunkSize, overlap, StopStarts(|tokens|, chunkSize, overlap, start)) == tokens[start + overlap..]
    decreases |tokens| - start
  {
    var n := |tokens|;
    var end := WindowEnd(n, chunkSize, start);
    WindowIsSlice(tokens, chunkSize, start);
    if end == n {
      assert StopStarts(n, chunkSize, overlap, start) == [start];
    } else {
      var next := NextStart(n, chunkSize, overlap, start);
      StitchTailCovers(tokens, chunkSize, overlap, next);
      assert StopStarts(n, chunkSize, overlap, start) == [start] + StopStarts(n, chunkSize, overlap, next);
      assert tokens[start + overlap..end] + tokens[end..] == tokens[start + overlap..];
    }
  }

  /** The corrected windows cover the token sequence exactly once apart from their overlaps:
      the first window followed by every later window minus its first `overlap` tokens is
      the whole token sequence. */
  lemma {:induction false} StopStitchCovers(tokens: seq<int>, chunkSize: int, overlap: int)
    requires 0 <= overlap < chunkSize
    ensures Stitched(tokens, chunkSize, overlap, StopStarts(|tokens|, chunkSize, overlap, 0)) == tokens
  {
    var n := |tokens|;
    if n > 0 {
      var end := WindowEnd(n, chunkSize, 0);
      WindowIsSlice(tokens, chunkSize, 0);
      if end == n {
        assert StopStarts(n, chunkSize, overlap, 0) == [0];
      } else {
        var next := NextStart(n, chunkSize, overlap, 0);
        StitchTailCovers(tokens, chunkSize, overlap, next);
        assert StopStarts(n, chunkSize, overlap, 0) == [0] + StopStarts(n, chunkSize, overlap, next);
        assert tokens[..end] + tokens[end..] == tokens;
      }
    }
  }

  /** Consecutive corrected windows overlap by exactly `overlap` tokens: every window but the
      last is `chunkSize` long and its last `overlap` tokens open the next window. */
  lemma {:induction false} StopConsecutiveOverlap(tokens: seq<int>, chunkSize: int, overlap: int, i: nat)
    requires 0 <= overlap < chunkSize
    requires i + 1 < |StopStarts(|tokens|, chunkSize, overlap, 0)|
    ensures var starts := StopStarts(|tokens|, chunkSize, overlap, 0);
      var w, w' := Window(tokens, chunkSize, starts[i]), Window(tokens, chunkSize, starts[i + 1]);
      |w| == chunkSize && |w'| > overlap && w[chunkSize - overlap..] == w'[..overlap]
  {
    var n := |tokens|;
    var starts := StopStarts(n, chunkSize, overlap, 0);
    StopStartsShape(n, chunkSize, overlap, 0);
    WindowIsSlice(tokens, chunkSize, starts[i]);
    WindowIsSlice(tokens, chunkSize, starts[i + 1]);
  }

  lemma {:induction false} StopCountFrom(n: nat, chunkSize: int, overlap: int, start: int)
    requires 0 <= overlap < chunkSize && 0 <= start && n - start > overlap
    ensures |StopStarts(n, chunkSize, overlap, start)| == CeilDiv(n - start - overlap, chunkSize - overlap)
    decreases n - start
  {
    if WindowEnd(n, chunkSize, start) == n {
      CeilDivOne(n - start - overlap, chunkSize - overlap);
    } else {
      var next := NextStart(n, chunkSize, overlap, start);
      StopCountFrom(n, chunkSize, overlap, next);
      CeilDivStep(n - start - overlap, chunkSize - overlap);
    }
  }

  /** The corrected loop emits no window for no tokens, one window for at most `overlap` tokens,
      and `ceil((N - overlap) / (chunkSize - overlap))` windows for N > overlap tokens. */
  lemma {:induction false} StopCount(n: nat, chunkSize: int, overlap: int)
    requires 0 <= overlap < chunkSize
    ensures |StopStarts(n, chunkSize, overlap, 0)| ==
      if n == 0 then 0 else if n <= overlap then 1 else CeilDiv(n - overlap, chunkSize - overlap)
  {
    if n > overlap {
      StopCountFrom(n, chunkSize, overlap, 0);
    }
  }

  lemma {:induction false} CeilDivPositive(a: int, b: int)
    requires b > 0 && a > 0
    ensures CeilDiv(a, b) >= 1
    decreases a
  {
    if a <= b {
      CeilDivOne(a, b);
    } else {
      CeilDivStep(a, b);
      CeilDivPositive(a - b, b);
    }
  }

  /** With no overlap the correction changes nothing: given enough iterations, the loop as
      written visits exactly the starts of the corrected loop. */
  lemma {:induction false} StopAgreesWithoutOverlap(n: nat, chunkSize: int, start: int, fuel: nat)
    requires chunkSize >= 1 && 0 <= start <= n
    requires fuel >= CeilDiv(n - start, chunkSize)
    ensures StopStarts(n, chunkSize, 0, start) == Starts(n, chunkSize, 0, start, fuel)
    decreases n - start
  {
    if start < n {
      CeilDivPositive(n - start, chunkSize);
      var end := WindowEnd(n, chunkSize, start);
      if end == n {
        assert Starts(n, chunkSize, 0, end, fuel - 1) == [];
      } else {
        CeilDivStep(n - start, chunkSize);
        StopAgreesWithoutOverlap(n, chunkSize, end, fuel - 1);
      }
    }
  }
}
