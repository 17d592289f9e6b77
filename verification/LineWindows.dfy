/** The sliding line window that cuts a file or an oversized symbol (chunking/chunker.py). */
module LineWindows {
  import opened Text

  datatype RawChunk = RawChunk(text: string, startLine: int, endLine: int)

  function StepOf(maxLines: int, overlap: int): int {
    if maxLines - overlap > 1 then maxLines - overlap else 1
  }

  /** The windows as lists of lines: a full window while lines remain beyond it, then the rest. */
  function Windows(lines: seq<string>, size: nat, step: nat): seq<seq<string>>
    requires step >= 1 && size >= step
  {
    if lines == [] then []
    else if |lines| <= size then [lines]
    else [lines[..size]] + Windows(lines[step..], size, step)
  }

  function DropAll(windows: seq<seq<string>>, overlap: nat): seq<seq<string>>
    requires forall k :: 0 <= k < |windows| ==> |windows[k]| >= overlap
  {
    if windows == [] then [] else [windows[0][overlap..]] + DropAll(windows[1..], overlap)
  }

  /** Glue windows together again, dropping from each later one what it repeats. */
  function Glue(windows: seq<seq<string>>, overlap: nat): seq<string>
    requires forall k :: 0 <= k < |windows| ==> |windows[k]| >= overlap || k == 0
  {
    if windows == [] then [] else windows[0] + Flatten(DropAll(windows[1..], overlap))
  }

  function ChunkOf(window: seq<string>, start: int): RawChunk {
    RawChunk(Join(window, "\n"), start, start + |window| - 1)
  }

  /** The windows as chunks, each starting `step` lines after the one before. */
  function Chunks(windows: seq<seq<string>>, start: int, step: int): seq<RawChunk> {
    if windows == [] then [] else [ChunkOf(windows[0], start)] + Chunks(windows[1..], start + step, step)
  }

  lemma NextChunk(lines: seq<string>, i: nat, start: int, size: nat, step: nat)
    requires 1 <= step <= size && i < |lines|
    ensures var stop := if i + size < |lines| then i + size else |lines|;
            Chunks(Windows(lines[i..], size, step), start, step) == [ChunkOf(lines[i..stop], start)] +
              if i + size >= |lines| then [] else Chunks(Windows(lines[i + step..], size, step), start + step, step)
  {
    if i + size >= |lines| {
      assert lines[i..|lines|] == lines[i..];
      assert Chunks([lines[i..]], start, step) == [ChunkOf(lines[i..], start)] + Chunks([], start + step, step);
    } else {
      assert lines[i..][step..] == lines[i + step..];
      assert lines[i..][..size] == lines[i..i + size];
    }
  }

  /** The chunks still to come when the loop stands at line `i`. */
  function From(lines: seq<string>, i: nat, base: int, size: nat, step: nat): seq<RawChunk>
    requires 1 <= step <= size && i <= |lines|
  {
    Chunks(Windows(lines[i..], size, step), base + i, step)
  }

  lemma Regroup(chunks: seq<RawChunk>, c: RawChunk, rest: seq<RawChunk>)
    ensures chunks + ([c] + rest) == chunks + [c] + rest
  {}

  lemma FromLast(lines: seq<string>, i: nat, base: int, size: nat, step: nat)
    requires 1 <= step <= size && i < |lines| <= i + size
    ensures From(lines, i, base, size, step) == [ChunkOf(lines[i..], base + i)]
  {
    NextChunk(lines, i, base + i, size, step);
    assert lines[i..|lines|] == lines[i..];
  }

  lemma FromNext(lines: seq<string>, i: nat, base: int, size: nat, step: nat)
    requires 1 <= step <= size && i + size < |lines|
    ensures From(lines, i, base, size, step) ==
              [ChunkOf(lines[i..i + size], base + i)] + From(lines, i + step, base, size, step)
  {
    NextChunk(lines, i, base + i, size, step);
    assert base + i + step == base + (i + step);
  }

  /** One turn of the loop: `all` is what was cut so far and what is still to come. */
  lemma Advance(lines: seq<string>, i: nat, stop: nat, base: int, size: nat, step: nat,
                chunks: seq<RawChunk>, all: seq<RawChunk>)
    requires 1 <= step <= size && i < |lines| && stop == (if i + size < |lines| then i + size else |lines|)
    requires all == chunks + From(lines, i, base, size, step)
    ensures var c := ChunkOf(lines[i..stop], base + i);
            if i + size >= |lines| then all == chunks + [c]
            else all == chunks + [c] + From(lines, i + step, base, size, step)
  {
    if i + size < |lines| {
      FromNext(lines, i, base, size, step);
      Regroup(chunks, ChunkOf(lines[i..stop], base + i), From(lines, i + step, base, size, step));
    } else {
      FromLast(lines, i, base, size, step);
      assert lines[i..stop] == lines[i..];
    }
  }

  /** A chunk says which file lines it holds, and holds exactly those. */
  predicate HoldsItsLines(lines: seq<string>, base: int, c: RawChunk) {
    && 0 <= c.startLine - base <= c.endLine - base < |lines|
    && c.text == Join(lines[c.startLine - base..c.endLine - base + 1], "\n")
  }

  lemma SliceShift(lines: seq<string>, step: nat, lo: int, hi: int)
    requires step <= |lines| && 0 <= lo <= hi <= |lines| - step
    ensures lines[step..][lo..hi] == lines[lo + step..hi + step]
  {}

  lemma HoldsShift(lines: seq<string>, base: int, step: nat, c: RawChunk)
    requires step <= |lines| && HoldsItsLines(lines[step..], base + step, c)
    ensures HoldsItsLines(lines, base, c)
  {
    SliceShift(lines, step, c.startLine - base - step, c.endLine - base + 1 - step);
  }

  lemma WindowHolds(lines: seq<string>, base: int, window: seq<string>)
    requires 0 < |window| <= |lines| && window == lines[..|window|]
    ensures HoldsItsLines(lines, base, ChunkOf(window, base))
  {
    assert lines[0..|window|] == window;
  }

  lemma FirstHolds(lines: seq<string>, base: int, size: nat, step: nat)
    requires 1 <= step <= size && lines != []
    ensures var cs := Chunks(Windows(lines, size, step), base, step); cs != [] && HoldsItsLines(lines, base, cs[0])
  {
    var window := if |lines| <= size then lines else lines[..size];
    assert Windows(lines, size, step)[0] == window;
    assert |lines| <= size ==> lines[..|lines|] == lines;
    WindowHolds(lines, base, window);
  }

  lemma LaterChunks(lines: seq<string>, base: int, size: nat, step: nat)
    requires 1 <= step <= size && |Chunks(Windows(lines, size, step), base, step)| > 1
    ensures |lines| > size
    ensures Chunks(Windows(lines, size, step), base, step)[1..] ==
              Chunks(Windows(lines[step..], size, step), base + step, step)
  {
    var ws := Windows(lines, size, step);
    assert ws[1..] == Windows(lines[step..], size, step);
  }

  lemma {:induction false} ChunksHoldTheirLines(lines: seq<string>, base: int, size: nat, step: nat, k: nat)
    requires 1 <= step <= size && k < |Chunks(Windows(lines, size, step), base, step)|
    ensures HoldsItsLines(lines, base, Chunks(Windows(lines, size, step), base, step)[k])
  {
    if k == 0 {
      FirstHolds(lines, base, size, step);
    } else {
      var rest := Chunks(Windows(lines[step..], size, step), base + step, step);
      LaterChunks(lines, base, size, step);
      ChunksHoldTheirLines(lines[step..], base + step, size, step, k - 1);
      HoldsShift(lines, base, step, rest[k - 1]);
    }
  }

  /** Every chunk but the last is full, and each starts `step` lines after the one before. */
  ghost predicate Consecutive(size: nat, step: nat, chunks: seq<RawChunk>) {
    forall k :: 0 <= k < |chunks| - 1 ==>
      chunks[k].endLine == chunks[k].startLine + size - 1 && chunks[k + 1].startLine == chunks[k].startLine + step
  }

  /** The chunks start at the first line and end at the last. */
  ghost predicate Spans(lines: seq<string>, base: int, chunks: seq<RawChunk>) {
    && (chunks == [] <==> lines == [])
    && (chunks != [] ==> chunks[0].startLine == base && chunks[|chunks| - 1].endLine == base + |lines| - 1)
  }

  /** What a list of chunks covers: all the lines, each chunk those it names. */
  ghost predicate Covers(lines: seq<string>, base: int, size: nat, step: nat, chunks: seq<RawChunk>) {
    && Spans(lines, base, chunks) && Consecutive(size, step, chunks)
    && forall k :: 0 <= k < |chunks| ==> HoldsItsLines(lines, base, chunks[k])
  }

  lemma FirstChunk(lines: seq<string>, base: int, size: nat, step: nat)
    requires 1 <= step <= size && lines != []
    ensures var cs := Chunks(Windows(lines, size, step), base, step);
            && cs != [] && cs[0].startLine == base
            && (|lines| <= size ==> |cs| == 1 && cs[0].endLine == base + |lines| - 1)
            && (|lines| > size ==> |cs| > 1 && cs[0].endLine == base + size - 1)
  {
    var ws := Windows(lines, size, step);
    if |lines| > size {
      assert ws[1..] == Windows(lines[step..], size, step) && ws[1..] != [];
    }
  }

  lemma ConsecutiveCons(size: nat, step: nat, c: RawChunk, rest: seq<RawChunk>)
    requires Consecutive(size, step, rest)
    requires rest != [] ==> c.endLine == c.startLine + size - 1 && rest[0].startLine == c.startLine + step
    ensures Consecutive(size, step, [c] + rest)
  {
    var all := [c] + rest;
    assert forall k :: 0 < k < |all| ==> all[k] == rest[k - 1];
  }

  lemma SpansCons(lines: seq<string>, base: int, step: nat, c: RawChunk, rest: seq<RawChunk>)
    requires step < |lines| && c.startLine == base && Spans(lines[step..], base + step, rest)
    ensures Spans(lines, base, [c] + rest)
  {
    var all := [c] + rest;
    assert lines[step..] != [] && all[|all| - 1] == rest[|rest| - 1];
  }

  lemma {:induction false} ChunksSpan(lines: seq<string>, base: int, size: nat, step: nat)
    requires 1 <= step <= size
    ensures var cs := Chunks(Windows(lines, size, step), base, step);
            Spans(lines, base, cs) && Consecutive(size, step, cs)
  {
    var cs := Chunks(Windows(lines, size, step), base, step);
    if lines == [] {
    } else {
      FirstChunk(lines, base, size, step);
      if |lines| > size {
        LaterChunks(lines, base, size, step);
        FirstChunk(lines[step..], base + step, size, step);
        ChunksSpan(lines[step..], base + step, size, step);
        ConsecutiveCons(size, step, cs[0], cs[1..]);
        SpansCons(lines, base, step, cs[0], cs[1..]);
        assert cs == [cs[0]] + cs[1..];
      }
    }
  }

  lemma ChunksCover(lines: seq<string>, base: int, size: nat, step: nat)
    requires 1 <= step <= size
    ensures Covers(lines, base, size, step, Chunks(Windows(lines, size, step), base, step))
  {
    var cs := Chunks(Windows(lines, size, step), base, step);
    ChunksSpan(lines, base, size, step);
    forall k | 0 <= k < |cs| ensures HoldsItsLines(lines, base, cs[k]) {
      ChunksHoldTheirLines(lines, base, size, step, k);
    }
  }

  /** The chunks of a file: consecutive ones share `overlap` lines, as long as that leaves progress. */
  lemma ChunksOverlap(lines: seq<string>, base: int, maxLines: nat, overlap: nat)
    requires maxLines >= 1
    ensures var step := if overlap < maxLines then maxLines - overlap else 1;
            Covers(lines, base, maxLines, step, Chunks(Windows(lines, maxLines, StepOf(maxLines, overlap)), base,
                                                       StepOf(maxLines, overlap)))
  {
    ChunksCover(lines, base, maxLines, StepOf(maxLines, overlap));
  }

  /** The loop. */
  method CutWindows(lines: seq<string>, base: int, maxLines: nat, overlap: nat) returns (chunks: seq<RawChunk>)
    requires maxLines >= 1
    ensures var step := StepOf(maxLines, overlap); chunks == Chunks(Windows(lines, maxLines, step), base, step)
  {
    chunks := [];
    var step := if maxLines - overlap > 1 then maxLines - overlap else 1;
    var i, n := 0, |lines|;
    ghost var all := From(lines, 0, base, maxLines, step);
    assert lines[0..] == lines && base + 0 == base;
    while i < n
      invariant 0 <= i <= n
      invariant all == chunks + From(lines, i, base, maxLines, step)
    {
      var stop := if i + maxLines < n then i + maxLines else n;
      Advance(lines, i, stop, base, maxLines, step, chunks, all);
      chunks := chunks + [ChunkOf(lines[i..stop], base + i)];
      if i + maxLines >= n {
        return;
      }
      i := i + step;
    }
    assert lines[i..] == [];
  }

  /** Cut lines into windows of at most `maxLines`; consecutive ones share `overlap` lines, as long as
      that leaves progress. */
  method LineChunks(lines: seq<string>, base: int, maxLines: nat, overlap: nat) returns (chunks: seq<RawChunk>)
    requires maxLines >= 1
    ensures var step := StepOf(maxLines, overlap); chunks == Chunks(Windows(lines, maxLines, step), base, step)
    ensures Covers(lines, base, maxLines, if overlap < maxLines then maxLines - overlap else 1, chunks)
  {
    chunks := CutWindows(lines, base, maxLines, overlap);
    ChunksOverlap(lines, base, maxLines, overlap);
  }

  /** The shape of the cover: full windows, each repeating exactly the last `overlap` lines of
      the one before and adding at least one, the last one ending at the last line. */
  lemma {:induction false} WindowsOverlapExactly(lines: seq<string>, size: nat, overlap: nat, k: nat)
    requires overlap < size && k < |Windows(lines, size, size - overlap)|
    ensures var ws := Windows(lines, size, size - overlap); var last := |ws| - 1;
            && 0 < |ws[k]| <= size
            && (k < last ==> |ws[k]| == size && |ws[k + 1]| > overlap
                             && ws[k + 1][..overlap] == ws[k][size - overlap..])
            && |ws[last]| <= |lines| && ws[last] == lines[|lines| - |ws[last]|..]
  {
    if |lines| > size {
      var rest := lines[size - overlap..];
      var more := Windows(rest, size, size - overlap);
      assert Windows(lines, size, size - overlap) == [lines[..size]] + more;
      assert more != [] && more[0] == rest[..|more[0]|];
      WindowsOverlapExactly(rest, size, overlap, if k == 0 then 0 else k - 1);
    }
  }

  lemma DropAllNext(windows: seq<seq<string>>, overlap: nat)
    requires windows != [] && forall k :: 0 <= k < |windows| ==> |windows[k]| >= overlap
    ensures Flatten(DropAll(windows, overlap)) == Glue(windows, overlap)[overlap..]
  {}

  /** No line is lost: dropping what later windows repeat rebuilds the input. */
  lemma {:induction false} GlueRebuilds(lines: seq<string>, size: nat, overlap: nat)
    requires overlap < size
    ensures var ws := Windows(lines, size, size - overlap);
            && (forall k :: 1 <= k < |ws| ==> |ws[k]| >= overlap)
            && Glue(ws, overlap) == lines
  {
    var ws := Windows(lines, size, size - overlap);
    forall k | 1 <= k < |ws| ensures |ws[k]| >= overlap {
      WindowsOverlapExactly(lines, size, overlap, k - 1);
    }
    if |lines| > size {
      var rest := lines[size - overlap..];
      var more := Windows(rest, size, size - overlap);
      assert ws[1..] == more;
      assert |more[0]| >= overlap;
      GlueRebuilds(rest, size, overlap);
      DropAllNext(more, overlap);
    }
  }

  lemma MulSign(step: nat, r: int)
    requires step >= 1
    ensures (r >= 1 ==> step * r >= step) && (r <= -1 ==> step * r + step <= 0)
  {}

  lemma DivStep(x: nat, step: nat)
    requires step >= 1
    ensures (x + step) / step == x / step + 1
  {
    var r := (x + step) / step - (x / step + 1);
    assert step * r == x % step - (x + step) % step;
    MulSign(step, r);
  }

  /** One window when the input fits in one, else one more per started step beyond it. */
  lemma {:induction false} WindowCount(lines: seq<string>, size: nat, step: nat)
    requires 1 <= step <= size
    ensures var n := |lines|;
            |Windows(lines, size, step)| ==
              if n == 0 then 0 else if n <= size then 1 else 1 + (n - size + step - 1) / step
  {
    if |lines| > size {
      WindowCount(lines[step..], size, step);
      DivStep(|lines| - size - 1, step);
    }
  }
}
