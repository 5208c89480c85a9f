/**
 * The work partitioning of `AdvancedNetworkScanner.threaded_scan` (app.py).
 *
 * The host list returned by the scan engine's listing is cut into chunks of a
 * fixed stride; one worker thread is started per chunk. Threads, the progress
 * bar and the engine itself are not modelled: only the list of chunks is.
 */
module NetworkScanner {

  /** Python's `len(hosts) // max_threads or 1`: the floor quotient, or 1 when it is 0. */
  function ChunkSize(hostCount: nat, maxThreads: nat): (size: nat)
    requires maxThreads >= 1
    ensures size >= 1
    ensures hostCount >= maxThreads ==> size * maxThreads <= hostCount < (size + 1) * maxThreads
    ensures hostCount < maxThreads ==> size == 1
  {
    var q := hostCount / maxThreads;
    if q == 0 then 1 else q
  }

  function Min(a: nat, b: nat): nat { if a <= b then a else b }

  /** The slices `hosts[i:i+size]` for `i` in `range(start, len(hosts), size)`. */
  function ChunksFrom(hosts: seq<string>, size: nat, start: nat): seq<seq<string>>
    requires size >= 1
    decreases |hosts| - start
  {
    if start >= |hosts| then []
    else [hosts[start..Min(start + size, |hosts|)]] + ChunksFrom(hosts, size, start + size)
  }

  /** The chunks one call of `threaded_scan` hands to its worker threads, in start order. */
  function StridedChunks(hosts: seq<string>, size: nat): seq<seq<string>>
    requires size >= 1
  {
    ChunksFrom(hosts, size, 0)
  }

  /** Concatenation of a sequence of chunks. */
  function Flatten(chunks: seq<seq<string>>): seq<string>
  {
    if chunks == [] then [] else chunks[0] + Flatten(chunks[1..])
  }

  /**
   * The partition loop of `threaded_scan`: computes the chunk size and walks
   * the host list in strides of that size, appending one chunk per stride
   * (each chunk is what one started thread receives).
   */
  method Partition(hosts: seq<string>, maxThreads: nat) returns (size: nat, chunks: seq<seq<string>>)
    requires maxThreads >= 1
    ensures size == ChunkSize(|hosts|, maxThreads)
    ensures chunks == StridedChunks(hosts, size)
  {
    size := ChunkSize(|hosts|, maxThreads);
    chunks := [];
    var i := 0;
    while i < |hosts|
      invariant chunks + ChunksFrom(hosts, size, i) == StridedChunks(hosts, size)
    {
      var end := if i + size <= |hosts| then i + size else |hosts|;
      var chunk := hosts[i..end];
      chunks := chunks + [chunk];
      i := i + size;
    }
  }

  lemma {:induction false} ChunksFromCover(hosts: seq<string>, size: nat, start: nat)
    requires size >= 1 && start <= |hosts|
    ensures Flatten(ChunksFrom(hosts, size, start)) == hosts[start..]
    decreases |hosts| - start
  {
    if start < |hosts| {
      var end := Min(start + size, |hosts|);
      ChunksFromCover(hosts, size, end);
      if end < start + size {
        assert ChunksFrom(hosts, size, start + size) == [];
        assert ChunksFrom(hosts, size, end) == [];
      }
      assert hosts[start..] == hosts[start..end] + hosts[end..];
    }
  }

  /** Concatenating the chunks in order gives back the host list: nothing lost, duplicated or reordered. */
  lemma PartitionCoversHosts(hosts: seq<string>, size: nat)
    requires size >= 1
    ensures Flatten(StridedChunks(hosts, size)) == hosts
  {
    ChunksFromCover(hosts, size, 0);
  }

  lemma {:induction false} ChunksFromShape(hosts: seq<string>, size: nat, start: nat)
    requires size >= 1
    ensures var chunks := ChunksFrom(hosts, size, start);
      && (forall k :: 0 <= k < |chunks| ==> 1 <= |chunks[k]| <= size)
      && (forall k :: 0 <= k < |chunks| - 1 ==> |chunks[k]| == size)
      && (start >= |hosts| <==> chunks == [])
      && (start < |hosts| ==> (|chunks| - 1) * size < |hosts| - start <= |chunks| * size)
    decreases |hosts| - start
  {
    if start < |hosts| {
      ChunksFromShape(hosts, size, start + size);
      var chunks := ChunksFrom(hosts, size, start);
      var rest := ChunksFrom(hosts, size, start + size);
      assert chunks == [hosts[start..Min(start + size, |hosts|)]] + rest;
      forall k | 0 <= k < |chunks|
        ensures 1 <= |chunks[k]| <= size
        ensures k < |chunks| - 1 ==> |chunks[k]| == size
      {
        if k > 0 { assert chunks[k] == rest[k - 1]; }
      }
      if start + size < |hosts| {
        assert (|chunks| - 1) * size == (|rest| - 1) * size + size;
        assert |chunks| * size == |rest| * size + size;
      }
    }
  }

  /**
   * Every chunk is non-empty and at most `size` long, all but the last are
   * exactly `size` long, and their number is the ceiling of `|hosts| / size`.
   */
  lemma PartitionShape(hosts: seq<string>, size: nat)
    requires size >= 1
    ensures var chunks := StridedChunks(hosts, size);
      && (forall k :: 0 <= k < |chunks| ==> 1 <= |chunks[k]| <= size)
      && (forall k :: 0 <= k < |chunks| - 1 ==> |chunks[k]| == size)
      && (|hosts| == 0 <==> chunks == [])
      && (|hosts| > 0 ==> (|chunks| - 1) * size < |hosts| <= |chunks| * size)
  {
    ChunksFromShape(hosts, size, 0);
  }

  lemma MulMonotone(a: nat, b: nat, c: nat)
    requires a <= b
    ensures a * c <= b * c
  {
  }

  lemma MulLessCancel(a: nat, b: nat, c: nat)
    requires a * c < b * c
    ensures a < b
  {
  }

  lemma DivisibleIff(n: nat, m: nat, c: nat)
    requires m >= 1 && c == n / m
    ensures n % m == 0 <==> n == c * m
  {
    assert n == c * m + n % m;
  }

  // Arithmetic facts about k chunks of size c covering n hosts, with c
  // derived from m requested threads.

  lemma CountAtLeast(n: nat, m: nat, c: nat, k: nat)
    requires m >= 1 && c >= 1 && c * m <= n <= k * c
    ensures k >= m
  {
  }

  lemma CountAtMost(n: nat, m: nat, c: nat, k: nat)
    requires m >= 1 && c >= 1 && k >= 1 && n < (c + 1) * m && (k - 1) * c < n
    ensures k <= 2 * m - 1
  {
    MulMonotone(1, c, m - 1);
    assert (2 * m - 1) * c == m * c + (m - 1) * c;
    assert (c + 1) * m == c * m + m;
    assert n <= (2 * m - 1) * c;
    MulLessCancel(k - 1, 2 * m - 1, c);
  }

  lemma CountExact(n: nat, m: nat, c: nat, k: nat)
    requires m >= 1 && c >= 1 && n == c * m && (k - 1) * c < n <= k * c
    ensures k == m
  {
  }

  lemma CountExceeds(n: nat, m: nat, c: nat, k: nat)
    requires m >= 1 && c >= 1 && c * m < n <= k * c
    ensures k > m
  {
  }

  /**
   * How many chunks (hence threads) `threaded_scan` starts for `n` hosts and
   * `maxThreads` requested threads: `n` itself when there are fewer hosts than
   * threads; otherwise at least `maxThreads` and up to `2 * maxThreads - 1`,
   * exactly `maxThreads` when `maxThreads` divides `n`, and more than
   * `maxThreads` when the division leaves a remainder.
   */
  lemma ThreadCount(hosts: seq<string>, maxThreads: nat)
    requires maxThreads >= 1
    ensures var n := |hosts|;
      var count := |StridedChunks(hosts, ChunkSize(n, maxThreads))|;
      && (n < maxThreads ==> count == n)
      && (n >= maxThreads ==> maxThreads <= count <= 2 * maxThreads - 1)
      && (n >= maxThreads && n % maxThreads == 0 ==> count == maxThreads)
      && (n >= maxThreads && n % maxThreads != 0 ==> count > maxThreads)
  {
    var n, m := |hosts|, maxThreads;
    var c := ChunkSize(n, m);
    var k := |StridedChunks(hosts, c)|;
    PartitionShape(hosts, c);
    if n >= m {
      assert c == n / m;
      DivisibleIff(n, m, c);
      CountAtLeast(n, m, c, k);
      CountAtMost(n, m, c, k);
      if n == c * m {
        CountExact(n, m, c, k);
      } else {
        CountExceeds(n, m, c, k);
      }
    }
  }

  /** Nine hosts on four threads: chunk size 2, five chunks of sizes 2, 2, 2, 2, 1. */
  lemma NineHostsFourThreads(hosts: seq<string>)
    requires |hosts| == 9
    ensures ChunkSize(|hosts|, 4) == 2
    ensures StridedChunks(hosts, 2) == [hosts[0..2], hosts[2..4], hosts[4..6], hosts[6..8], hosts[8..9]]
  {
    assert ChunksFrom(hosts, 2, 8) == [hosts[8..9]] + ChunksFrom(hosts, 2, 10);
    assert ChunksFrom(hosts, 2, 6) == [hosts[6..8]] + ChunksFrom(hosts, 2, 8);
    assert ChunksFrom(hosts, 2, 4) == [hosts[4..6]] + ChunksFrom(hosts, 2, 6);
    assert ChunksFrom(hosts, 2, 2) == [hosts[2..4]] + ChunksFrom(hosts, 2, 4);
  }

  /** Seven hosts on four threads: chunk size 1, so seven threads are started. */
  lemma SevenHostsFourThreads(hosts: seq<string>)
    requires |hosts| == 7
    ensures ChunkSize(|hosts|, 4) == 1
    ensures |StridedChunks(hosts, 1)| == 7
  {
    PartitionShape(hosts, 1);
  }
}
