/** The segmenting half of `get_video_frames` (VLMs/utils.py): the sampled
    frames of a video, counted by `n`, are trimmed at the tail and cut into
    short clips of at most `frames` frames that overlap by a bounded amount.
    Frames are named by their index; decoding, sampling and writing clips
    are outside the model. */
module Windowing {
  import opened Timeline

  /** The clip `all_frames[start:end]`. */
  datatype Chunk = Chunk(start: nat, end: nat)

  /** The time range of a clip, in seconds. */
  datatype TimeRange = TimeRange(start: real, end: real)

  /** What `get_video_frames` returns: the clips, the number in each clip
      file's name (`temp_video_<k>.mp4`), and each clip's time range. */
  datatype Windows = Windows(chunks: seq<Chunk>, paths: seq<nat>, ranges: seq<TimeRange>)

  /** The arguments the function asserts before it starts: a positive
      sampling rate and clip length, a period whose start precedes its end,
      and a non-negative overlap. */
  predicate ArgumentsOk(fps: int, frames: int, period: Option<Period>, overlap: int) {
    && fps > 0 && frames > 0
    && (period.Some? ==> period.value.start < period.value.end)
    && overlap >= 0
  }

  function Min(a: int, b: int): int { if a < b then a else b }
  function Max(a: int, b: int): int { if a < b then b else a }

  /** The number of frames kept: a short tail of at most one second's worth
      of frames that does not fill a clip is dropped, leaving a whole
      number of clips. */
  function Trimmed(n: nat, frames: int, fps: int): (r: nat)
    requires frames > 0
    ensures r <= n && n - r < frames
    ensures r == n <==> !(0 < n % frames <= fps)
    ensures r < n ==> r == n / frames * frames && n - r <= fps
  {
    if 0 < n % frames <= fps then n - n % frames else n
  }

  /** The clips cut from frame `i` on, in order: each runs for `frames`
      frames or up to the end, and the next one starts `overlap` frames
      before the end of this one, but always at least one frame later. */
  function ChunksFrom(i: nat, n: nat, frames: int, overlap: int): seq<Chunk>
    requires frames > 0 && overlap >= 0
    decreases n - i
  {
    if i >= n then []
    else
      var e := Min(i + frames, n);
      if e == n then [Chunk(i, e)]
      else [Chunk(i, e)] + ChunksFrom(Max(i + 1, e - overlap), n, frames, overlap)
  }

  /** The clips cut from `n` frames. */
  function Chunking(n: nat, frames: int, overlap: int): seq<Chunk>
    requires frames > 0 && overlap >= 0
  {
    ChunksFrom(0, n, frames, overlap)
  }

  /** The time range of a clip: its first and one-past-last frame at the
      sampling rate, shifted by `base`. */
  function RangeOf(c: Chunk, fps: int, base: real): (r: TimeRange)
    requires fps > 0
    ensures r.end - r.start == (c.end - c.start) as real / fps as real
  {
    TimeRange(base + c.start as real / fps as real, base + c.end as real / fps as real)
  }

  /** Every clip is a non-empty slice of at most `frames` frames lying in
      `[lo, n)`. */
  predicate Slices(cs: seq<Chunk>, lo: int, n: nat, frames: int) {
    forall k :: 0 <= k < |cs| ==>
      lo <= cs[k].start < cs[k].end <= n && cs[k].end - cs[k].start <= frames
  }

  /** Each clip but the last ends before `n`, and the next one starts at
      `max(start + 1, end - overlap)`. */
  predicate Steps(cs: seq<Chunk>, n: nat, overlap: int) {
    forall k :: 0 <= k < |cs| - 1 ==>
      cs[k].end < n && cs[k + 1].start == Max(cs[k].start + 1, cs[k].end - overlap)
  }

  /** The clips from `i` on exist exactly when frames remain; the first
      starts at `i` and the last ends at `n`. */
  lemma {:induction false} ChunksFromEnds(i: nat, n: nat, frames: int, overlap: int)
    requires frames > 0 && overlap >= 0
    ensures i < n <==> |ChunksFrom(i, n, frames, overlap)| > 0
    ensures i < n ==> (ChunksFrom(i, n, frames, overlap)[0].start == i
      && ChunksFrom(i, n, frames, overlap)[|ChunksFrom(i, n, frames, overlap)| - 1].end == n)
    decreases n - i
  {
    if i < n {
      var e := Min(i + frames, n);
      if e < n {
        ChunksFromEnds(Max(i + 1, e - overlap), n, frames, overlap);
      }
    }
  }

  lemma {:induction false} ChunksFromBounds(i: nat, n: nat, frames: int, overlap: int)
    requires frames > 0 && overlap >= 0
    ensures Slices(ChunksFrom(i, n, frames, overlap), i, n, frames)
    decreases n - i
  {
    if i < n {
      var e := Min(i + frames, n);
      if e < n {
        var j := Max(i + 1, e - overlap);
        ChunksFromBounds(j, n, frames, overlap);
        var rest := ChunksFrom(j, n, frames, overlap);
        var cs := ChunksFrom(i, n, frames, overlap);
        assert cs == [Chunk(i, e)] + rest;
        assert forall k :: 1 <= k < |cs| ==> cs[k] == rest[k - 1];
      }
    }
  }

  lemma {:induction false} ChunksFromSteps(i: nat, n: nat, frames: int, overlap: int)
    requires frames > 0 && overlap >= 0
    ensures Steps(ChunksFrom(i, n, frames, overlap), n, overlap)
    decreases n - i
  {
    if i < n {
      var e := Min(i + frames, n);
      if e < n {
        var j := Max(i + 1, e - overlap);
        ChunksFromSteps(j, n, frames, overlap);
        ChunksFromEnds(j, n, frames, overlap);
        var rest := ChunksFrom(j, n, frames, overlap);
        var cs := ChunksFrom(i, n, frames, overlap);
        assert cs == [Chunk(i, e)] + rest;
        assert forall k :: 1 <= k < |cs| ==> cs[k] == rest[k - 1];
      }
    }
  }

  /** The clips `cs` of `n` frames: all of them lie in `[0, n)` and hold
      between one and `frames` frames; the first starts at frame 0 and the
      last ends at frame `n`; starts strictly increase; neighbouring clips
      share at most `overlap` frames and leave no frame out between them;
      only the last one reaches `n`. There is no clip exactly when there is
      no frame. */
  lemma ChunkingShape(n: nat, frames: int, overlap: int, cs: seq<Chunk>)
    requires frames > 0 && overlap >= 0 && cs == Chunking(n, frames, overlap)
    ensures n == 0 <==> cs == []
    ensures n > 0 ==> cs[0].start == 0 && cs[|cs| - 1].end == n
    ensures forall k :: 0 <= k < |cs| ==> 1 <= cs[k].end - cs[k].start <= frames && cs[k].end <= n
    ensures forall k :: 0 <= k < |cs| - 1 ==>
      && cs[k].end < n
      && cs[k].start < cs[k + 1].start <= cs[k].end
      && cs[k].end - cs[k + 1].start <= overlap
  {
    ChunksFromEnds(0, n, frames, overlap);
    ChunksFromBounds(0, n, frames, overlap);
    ChunksFromSteps(0, n, frames, overlap);
  }

  /** Every frame lies in some clip. */
  lemma Covers(n: nat, frames: int, overlap: int, cs: seq<Chunk>, f: nat)
    requires frames > 0 && overlap >= 0 && cs == Chunking(n, frames, overlap) && f < n
    ensures exists k :: 0 <= k < |cs| && cs[k].start <= f < cs[k].end
  {
    ChunkingShape(n, frames, overlap, cs);
    var k := 0;
    while cs[k].end <= f
      invariant 0 <= k < |cs| && cs[k].start <= f
      decreases |cs| - k
    {
      k := k + 1;
    }
  }

  /** From a clip boundary `i` on, without overlap, clip `k` is the slice
      `[i + k * frames, min(i + (k + 1) * frames, n))`. */
  predicate Tiles(cs: seq<Chunk>, i: nat, n: nat, frames: nat) {
    forall k :: 0 <= k < |cs| ==> cs[k] == Chunk(i + k * frames, Min(i + k * frames + frames, n))
  }

  lemma {:induction false} TilingFrom(i: nat, n: nat, frames: int)
    requires frames > 0
    ensures Tiles(ChunksFrom(i, n, frames, 0), i, n, frames)
    decreases n - i
  {
    if i < n {
      var e := Min(i + frames, n);
      var cs := ChunksFrom(i, n, frames, 0);
      if e < n {
        TilingFrom(i + frames, n, frames);
        var rest := ChunksFrom(i + frames, n, frames, 0);
        assert cs == [Chunk(i, e)] + rest;
        forall k | 1 <= k < |cs|
          ensures cs[k] == Chunk(i + k * frames, Min(i + k * frames + frames, n))
        {
          assert cs[k] == rest[k - 1];
          assert i + frames + (k - 1) * frames == i + k * frames;
        }
      }
    }
  }

  /** Without overlap the clips tile the frames: clip `k` is the slice
      `[k * frames, min((k + 1) * frames, n))`, and each clip ends where the
      next one begins. */
  lemma Tiling(n: nat, frames: int, cs: seq<Chunk>)
    requires frames > 0 && cs == Chunking(n, frames, 0)
    ensures forall k :: 0 <= k < |cs| ==> cs[k] == Chunk(k * frames, Min(k * frames + frames, n))
    ensures forall k :: 0 <= k < |cs| - 1 ==> cs[k].end == cs[k + 1].start
  {
    TilingFrom(0, n, frames);
    ChunksFromSteps(0, n, frames, 0);
    ChunksFromBounds(0, n, frames, 0);
  }

  /** One turn of the cutting loop: the clip `[i, e)` is the next one, and
      either it is the last or the cut goes on from `j`. */
  lemma CutStep(chunks: seq<Chunk>, i: nat, e: nat, j: nat, n: nat, frames: int, overlap: int)
    requires frames > 0 && overlap >= 0 && i < n
    requires e == Min(i + frames, n) && j == Max(i + 1, e - overlap)
    requires chunks + ChunksFrom(i, n, frames, overlap) == Chunking(n, frames, overlap)
    ensures e == n ==> chunks + [Chunk(i, e)] == Chunking(n, frames, overlap)
    ensures e < n ==> chunks + [Chunk(i, e)] + ChunksFrom(j, n, frames, overlap) == Chunking(n, frames, overlap)
  {
    if e == n {
      assert ChunksFrom(i, n, frames, overlap) == [Chunk(i, e)];
    } else {
      var rest := ChunksFrom(j, n, frames, overlap);
      assert ChunksFrom(i, n, frames, overlap) == [Chunk(i, e)] + rest;
      assert chunks + [Chunk(i, e)] + rest == chunks + ([Chunk(i, e)] + rest);
    }
  }

  /** The cutting loop of `get_video_frames` over `count` frames: each
      clip with the number of its clip file and its time range. */
  method Cut(count: nat, fps: int, frames: int, overlap: int, base: real) returns (w: Windows)
    requires fps > 0 && frames > 0 && overlap >= 0
    ensures w.chunks == Chunking(count, frames, overlap)
    ensures |w.paths| == |w.chunks| && |w.ranges| == |w.chunks|
    ensures forall k :: 0 <= k < |w.chunks| ==>
      w.paths[k] == k && w.ranges[k] == RangeOf(w.chunks[k], fps, base)
  {
    var chunks: seq<Chunk> := [];
    var paths: seq<nat> := [];
    var ranges: seq<TimeRange> := [];
    var i: nat := 0;
    while i < count
      invariant chunks + ChunksFrom(i, count, frames, overlap) == Chunking(count, frames, overlap)
      invariant |paths| == |chunks| && |ranges| == |chunks|
      invariant forall k :: 0 <= k < |chunks| ==> paths[k] == k && ranges[k] == RangeOf(chunks[k], fps, base)
      decreases count - i
    {
      var e := Min(i + frames, count);
      CutStep(chunks, i, e, Max(i + 1, e - overlap), count, frames, overlap);
      // The clip is never empty, so the source's emptiness guard always passes.
      assert i < e;
      ranges := ranges + [RangeOf(Chunk(i, e), fps, base)];
      paths := paths + [|paths|];
      chunks := chunks + [Chunk(i, e)];
      if e == count {
        break;
      }
      i := Max(i + 1, e - overlap);
    }
    w := Windows(chunks, paths, ranges);
  }

  /** Python's `get_video_frames` over `n` sampled frames, from line 72 on:
      None when an argument assertion fails; otherwise the tail is trimmed
      and the clips are cut, each with the number of its clip file and its
      time range. `offset` is the start of the period, in seconds, as the
      video's own frame rate places it (`start_frame / fps`). */
  method GetVideoFrames(n: nat, fps: int, frames: int, period: Option<Period>, overlap: int, offset: real)
    returns (r: Option<Windows>)
    ensures r.Some? <==> ArgumentsOk(fps, frames, period, overlap)
    ensures r.Some? ==>
      && r.value.chunks == Chunking(Trimmed(n, frames, fps), frames, overlap)
      && |r.value.paths| == |r.value.chunks| && |r.value.ranges| == |r.value.chunks|
      && (forall k :: 0 <= k < |r.value.chunks| ==>
            && r.value.paths[k] == k
            && r.value.ranges[k] == RangeOf(r.value.chunks[k], fps, if period.Some? then offset else 0.0))
  {
    if !(fps > 0) || !(frames > 0) || (period.Some? && !(period.value.start < period.value.end)) || !(overlap >= 0) {
      return None;
    }
    var count := n;
    if 0 < count % frames <= fps {
      count := count - count % frames;
    }
    var w := Cut(count, fps, frames, overlap, if period.Some? then offset else 0.0);
    return Some(w);
  }

  /** The clip files' time ranges: each lasts its clip's frame count over
      the sampling rate; they start strictly later one after another, and
      without overlap each one ends where the next begins. */
  lemma RangesInOrder(n: nat, fps: int, frames: int, overlap: int, base: real, cs: seq<Chunk>, k: nat)
    requires fps > 0 && frames > 0 && overlap >= 0
    requires cs == Chunking(n, frames, overlap) && k + 1 < |cs|
    ensures RangeOf(cs[k], fps, base).start < RangeOf(cs[k + 1], fps, base).start
    ensures RangeOf(cs[k + 1], fps, base).start <= RangeOf(cs[k], fps, base).end
    ensures overlap == 0 ==> RangeOf(cs[k], fps, base).end == RangeOf(cs[k + 1], fps, base).start
  {
    ChunkingShape(n, frames, overlap, cs);
    ChunksFromSteps(0, n, frames, overlap);
    var f := fps as real;
    DivideMonotone(cs[k].start as real, cs[k + 1].start as real, f);
    DivideMonotone(cs[k + 1].start as real, cs[k].end as real, f);
  }

  lemma DivideMonotone(a: real, b: real, f: real)
    requires f > 0.0 && a <= b
    ensures a / f <= b / f && (a < b ==> a / f < b / f)
  {
  }
}
