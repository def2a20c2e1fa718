/** The batching that `FessSearch.index` performs: records are flushed to the
    bulk endpoint in consecutive groups of the configured size, the last
    group possibly shorter. `Chunks` is the reference definition the
    imperative loop is proved against. */
module Batching {

  /** The group size the upload loop actually uses: it flushes once
      `len(docs) >= bulk_size`, so a size below 1 flushes every record alone. */
  function BatchSize(bulkSize: int): (k: nat)
    ensures k >= 1
    ensures bulkSize >= 1 ==> k == bulkSize
    ensures bulkSize < 1 ==> k == 1
  {
    if bulkSize < 1 then 1 else bulkSize
  }

  /** `s` cut into consecutive groups of `k`, in order; there are no groups
      at all exactly when `s` is empty. */
  function Chunks<T>(s: seq<T>, k: nat): (cs: seq<seq<T>>)
    requires k >= 1
    ensures (cs == []) <==> (s == [])
    decreases |s|
  {
    if s == [] then []
    else if |s| <= k then [s]
    else [s[..k]] + Chunks(s[k..], k)
  }

  /** Every group but the last has exactly `k` elements and the last has
      between 1 and `k`. */
  lemma {:induction false} ChunksSizes<T>(s: seq<T>, k: nat)
    requires k >= 1
    ensures forall j :: 0 <= j < |Chunks(s, k)| - 1 ==> |Chunks(s, k)[j]| == k
    ensures Chunks(s, k) != [] ==> 1 <= |Chunks(s, k)[|Chunks(s, k)| - 1]| <= k
    decreases |s|
  {
    if |s| > k {
      var cs := Chunks(s, k);
      assert cs[1..] == Chunks(s[k..], k);
      ChunksSizes(s[k..], k);
    }
  }

  /** The concatenation of a sequence of groups. */
  function Flatten<T>(cs: seq<seq<T>>): (flat: seq<T>) {
    if cs == [] then [] else cs[0] + Flatten(cs[1..])
  }

  /** Cutting loses, duplicates and reorders nothing: the groups concatenate
      back to the input. */
  lemma {:induction false} ChunksFlatten<T>(s: seq<T>, k: nat)
    requires k >= 1
    ensures Flatten(Chunks(s, k)) == s
    decreases |s|
  {
    if s != [] && |s| > k {
      var cs := Chunks(s, k);
      assert cs[1..] == Chunks(s[k..], k);
      ChunksFlatten(s[k..], k);
      assert s[..k] + s[k..] == s;
    }
  }

  /** The number of groups is the ceiling of |s| / k. */
  lemma {:induction false} ChunksCount<T>(s: seq<T>, k: nat)
    requires k >= 1
    ensures |Chunks(s, k)| == (|s| + k - 1) / k
    decreases |s|
  {
    if s == [] {
      DivSmall(k - 1, k);
    } else if |s| <= k {
      DivSmall(|s| - 1, k);
      DivPlusDivisor(|s| - 1, k);
    } else {
      ChunksCount(s[k..], k);
      DivPlusDivisor(|s| - k + k - 1, k);
    }
  }

  lemma DivSmall(a: nat, k: nat)
    requires a < k
    ensures a / k == 0
  {
  }

  lemma MulMono(a: nat, b: nat, k: nat)
    requires a <= b
    ensures a * k <= b * k
  {
    var i := a;
    while i < b
      invariant a <= i <= b
      invariant a * k <= i * k
    {
      assert (i + 1) * k == i * k + k;
      i := i + 1;
    }
  }
  lemma DivUnique(n: nat, k: nat, q: nat, r: nat)
    requires k >= 1 && n == q * k + r && r < k
    ensures n / k == q
  {
    var q', r' := n / k, n % k;
    assert n == q' * k + r';
    if q' < q {
      MulMono(q' + 1, q, k);
    } else if q < q' {
      MulMono(q + 1, q', k);
    }
  }
  lemma DivPlusDivisor(a: nat, k: nat)
    requires k >= 1
    ensures (a + k) / k == a / k + 1
  {
    var q, r := a / k, a % k;
    assert a + k == (q + 1) * k + r;
    DivUnique(a + k, k, q + 1, r);
  }

  /** A full group at the front of the input is the first group. */
  lemma ChunksCons<T>(b: seq<T>, rest: seq<T>, k: nat)
    requires k >= 1 && |b| == k
    ensures Chunks(b + rest, k) == [b] + Chunks(rest, k)
  {
    if rest != [] {
      assert (b + rest)[..k] == b;
      assert (b + rest)[k..] == rest;
    } else {
      assert b + rest == b;
    }
  }

  /** Moving the next element from the input into the pending buffer leaves
      the groups unchanged. */
  lemma PendingStep<T>(done: seq<seq<T>>, pending: seq<T>, rest: seq<T>, k: nat)
    requires k >= 1 && rest != []
    ensures done + Chunks(pending + rest, k) == done + Chunks((pending + [rest[0]]) + rest[1..], k)
  {
    assert pending + rest == (pending + [rest[0]]) + rest[1..];
  }

  /** A full pending buffer is the next group. */
  lemma PendingFlush<T>(done: seq<seq<T>>, pending: seq<T>, rest: seq<T>, k: nat)
    requires k >= 1 && |pending| == k
    ensures done + Chunks(pending + rest, k) == done + [pending] + Chunks(rest, k)
  {
    ChunksCons(pending, rest, k);
  }

  /** A short remainder forms at most one group. */
  lemma ChunksShort<T>(s: seq<T>, k: nat)
    requires k >= 1 && |s| < k
    ensures Chunks(s, k) == if s == [] then [] else [s]
  {
  }
}
