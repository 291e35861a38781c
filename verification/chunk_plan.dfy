/** Planning the chunks of a long audio track: how many chunks there are,
    where each one starts, and which audio file holds it. */
module ChunkPlan {
  import opened Transcripts

  /** Python's `int()` on a float: truncation toward zero. */
  function Truncate(x: real): (n: int)
    ensures 0.0 <= x ==> 0 <= n && n as real <= x < n as real + 1.0
    ensures x < 0.0 ==> n <= 0 && n as real - 1.0 < x <= n as real
  {
    if 0.0 <= x then x.Floor else -((-x).Floor)
  }

  /** `int(duration / chunk_duration) + 1`: for a non-negative duration, the
      one count whose last chunk starts at or before `duration` and ends after it. */
  function NumChunks(duration: real, chunkDuration: nat): (n: int)
    requires chunkDuration > 0
    ensures 0.0 <= duration ==>
      (1 <= n && ((n - 1) * chunkDuration) as real <= duration < (n * chunkDuration) as real)
    ensures chunkDuration as real < duration ==> n >= 2
  {
    var q := duration / chunkDuration as real;
    var n := Truncate(q) + 1;
    if 0.0 <= duration then
      WindowBounds(q, chunkDuration, n - 1);
      n
    else
      n
  }

  /** If `k <= q < k + 1` then `k * c <= q * c < (k + 1) * c`. */
  lemma WindowBounds(q: real, c: nat, k: int)
    requires c > 0 && k as real <= q < k as real + 1.0
    ensures (k * c) as real <= q * c as real < ((k + 1) * c) as real
  {
    ScaleBelow(k, q, c);
    ScaleAbove(q, k + 1, c);
  }

  /** Scaling `m <= q` by a positive whole number `c`. */
  lemma ScaleBelow(m: int, q: real, c: nat)
    requires c > 0 && m as real <= q
    ensures (m * c) as real <= q * c as real
  {
    assert (m * c) as real == m as real * c as real;
    assert q * c as real - m as real * c as real == (q - m as real) * c as real;
  }

  /** Scaling `q < m` by a positive whole number `c`. */
  lemma ScaleAbove(q: real, m: int, c: nat)
    requires c > 0 && q < m as real
    ensures q * c as real < (m * c) as real
  {
    assert (m * c) as real == m as real * c as real;
    assert m as real * c as real - q * c as real == (m as real - q) * c as real;
  }

  /** One planned chunk: the pair `(start_time, chunk_file)`. */
  datatype Chunk = Chunk(startTime: int, file: AudioFile)

  /** The chunk list the planner builds when `duration > chunk_duration`:
      chunk `i` starts at `i * chunk_duration` and lives in `chunk_{i}.m4a`. */
  function Plan(duration: real, chunkDuration: nat): (p: seq<Chunk>)
    requires 0 < chunkDuration && chunkDuration as real < duration
  {
    seq(NumChunks(duration, chunkDuration), i requires 0 <= i => Chunk(i * chunkDuration, ChunkFile(i)))
  }

  /** The planning loop: appends one chunk per index, in index order. */
  method PlanChunks(duration: real, chunkDuration: nat) returns (chunks: seq<Chunk>)
    requires 0 < chunkDuration && chunkDuration as real < duration
    ensures chunks == Plan(duration, chunkDuration)
  {
    chunks := [];
    var numChunks := Truncate(duration / chunkDuration as real) + 1;
    var i := 0;
    while i < numChunks
      invariant 0 <= i <= numChunks
      invariant |chunks| == i
      invariant forall k :: 0 <= k < i ==> chunks[k] == Chunk(k * chunkDuration, ChunkFile(k))
    {
      var startTime := i * chunkDuration;
      chunks := chunks + [Chunk(startTime, ChunkFile(i))];
      i := i + 1;
    }
  }

  /** The shape of the plan: at least two chunks, the first at 0, each next
      one `chunk_duration` later, none starting after `duration`, and the last
      window `[start, start + chunk_duration)` reaching past `duration`. */
  lemma PlanShape(duration: real, chunkDuration: nat)
    requires 0 < chunkDuration && chunkDuration as real < duration
    ensures var p := Plan(duration, chunkDuration);
      && |p| >= 2
      && p[0].startTime == 0
      && (forall i :: 0 <= i < |p| - 1 ==> p[i + 1].startTime == p[i].startTime + chunkDuration)
      && (forall i :: 0 <= i < |p| ==> 0 <= p[i].startTime && p[i].startTime as real <= duration)
      && duration < (p[|p| - 1].startTime + chunkDuration) as real
  {
    var p := Plan(duration, chunkDuration);
    var c := chunkDuration;
    var n := NumChunks(duration, c);
    forall i | 0 <= i < |p| - 1
      ensures p[i + 1].startTime == p[i].startTime + c
    {
      assert (i + 1) * c == i * c + c;
    }
    forall i | 0 <= i < |p|
      ensures 0 <= p[i].startTime && p[i].startTime as real <= duration
    {
      MulMonotone(0, i, c);
      MulMonotone(i, n - 1, c);
    }
    assert (n - 1) * c + c == n * c;
  }

  /** `a <= b` implies `a * c <= b * c` for a non-negative `c`. */
  lemma MulMonotone(a: int, b: int, c: nat)
    requires a <= b
    ensures a * c <= b * c
  {
    assert b * c - a * c == (b - a) * c;
  }

  /** When `duration` is a whole number of chunks, the last chunk starts exactly at `duration`. */
  lemma ExactMultipleLastChunk(duration: real, chunkDuration: nat, k: int)
    requires 0 < chunkDuration && chunkDuration as real < duration
    requires duration == (k * chunkDuration) as real
    ensures var p := Plan(duration, chunkDuration);
      |p| == k + 1 && p[|p| - 1].startTime as real == duration
  {
    var n := NumChunks(duration, chunkDuration);
    // (n - 1) * c <= k * c < n * c forces n - 1 == k.
    if n - 1 < k {
      MulMonotone(n, k, chunkDuration);
      assert false;
    } else if n - 1 > k {
      MulMonotone(k + 1, n - 1, chunkDuration);
      assert false;
    }
  }

  /** The chunk windows tile `[0, duration]`: every instant `t` in it lies in
      the window of exactly one chunk, the one with index `int(t / chunk_duration)`. */
  lemma PlanCovers(duration: real, chunkDuration: nat, t: real)
    requires 0 < chunkDuration && chunkDuration as real < duration
    requires 0.0 <= t <= duration
    ensures var p := Plan(duration, chunkDuration);
      && 0 <= Truncate(t / chunkDuration as real) < |p|
      && forall i :: 0 <= i < |p| ==>
        (p[i].startTime as real <= t < (p[i].startTime + chunkDuration) as real
         <==> i == Truncate(t / chunkDuration as real))
  {
    var p := Plan(duration, chunkDuration);
    var c := chunkDuration;
    var k := InstantIndex(|p|, c, t);
    forall i | 0 <= i < |p|
      ensures p[i].startTime as real <= t < (p[i].startTime + c) as real <==> i == k
    {
      assert p[i].startTime == i * c;
      assert p[i].startTime + c == (i + 1) * c;
      WindowUnique(c, i, k, t);
    }
  }

  /** Windows `[i * c, (i + 1) * c)` of distinct indices do not overlap. */
  lemma WindowUnique(c: nat, i: int, k: int, t: real)
    requires 0 < c && (k * c) as real <= t < ((k + 1) * c) as real
    ensures (i * c) as real <= t < ((i + 1) * c) as real <==> i == k
  {
    if i < k {
      MulMonotone(i + 1, k, c);
    } else if i > k {
      MulMonotone(k + 1, i, c);
    }
  }

  /** Every instant of `[0, duration]` is covered by some planned chunk. */
  lemma PlanCoversSome(duration: real, chunkDuration: nat, t: real)
    requires 0 < chunkDuration && chunkDuration as real < duration
    requires 0.0 <= t <= duration
    ensures var p := Plan(duration, chunkDuration);
      exists i :: 0 <= i < |p| && p[i].startTime as real <= t < (p[i].startTime + chunkDuration) as real
  {
    var p := Plan(duration, chunkDuration);
    var c := chunkDuration;
    var k := InstantIndex(|p|, c, t);
    assert p[k].startTime == k * c;
    assert p[k].startTime + c == (k + 1) * c;
    assert p[k].startTime as real <= t < (p[k].startTime + c) as real;
  }

  /** The chunk index of an instant `t` before `n * c`: `int(t / c)`. */
  lemma InstantIndex(n: int, c: nat, t: real) returns (k: int)
    requires 0 < c && 0.0 <= t < (n * c) as real
    ensures k == Truncate(t / c as real)
    ensures 0 <= k < n && (k * c) as real <= t < ((k + 1) * c) as real
  {
    var q := t / c as real;
    k := Truncate(q);
    assert q * c as real == t;
    ScaleBelow(k, q, c);
    ScaleAbove(q, k + 1, c);
    if k >= n {
      MulMonotone(n, k, c);
      assert false;
    }
  }
}
