/** Reference definitions of the request logs the two chunked loops send,
    and what those logs do to a playlist. */
module Batches {
  import opened PlaylistState

  /** Chunk size the rewrite uses when none is given. */
  const DefaultChunkSize: nat := 20

  function Min(a: int, b: int): int {
    if a <= b then a else b
  }

  /** Ceiling of `n / c`. */
  function CeilDiv(n: nat, c: nat): nat
    requires c > 0
  {
    (n + c - 1) / c
  }

  /** Python's `s[lo:hi]` for non-negative bounds: both ends are clamped to
      the length of `s`, and an empty slice results when `hi <= lo`. */
  function PySlice(s: seq<TrackId>, lo: nat, hi: nat): (r: seq<TrackId>)
    ensures |r| == if lo < hi && lo < |s| then Min(hi, |s|) - lo else 0
    ensures forall i :: 0 <= i < |r| ==> r[i] == s[lo + i]
  {
    if lo < hi && lo < |s| then s[lo..Min(hi, |s|)] else []
  }

  /** The delete requests that clearing an `n`-item playlist sends: while
      items remain, delete positions `0..k-1` with `k = min(n, c)`. */
  function ClearLog(n: nat, c: nat): (r: seq<Request>)
    requires c > 0
    ensures forall i :: 0 <= i < |r| ==>
      r[i].Delete? && r[i] == Delete(Range(|r[i].indices|)) && 1 <= |r[i].indices| <= c
    ensures forall i :: 0 <= i < |r| - 1 ==> |r[i].indices| == c
    ensures n == 0 <==> r == []
    decreases n
  {
    if n == 0 then []
    else
      var k := Min(n, c);
      [Delete(Range(k))] + ClearLog(n - k, c)
  }

  /** The add requests that appending `ids` sends: consecutive slices of at
      most `c` ids, front to back. */
  function AddLog(ids: seq<TrackId>, c: nat): (r: seq<Request>)
    requires c > 0
    ensures forall i :: 0 <= i < |r| ==> r[i].Add? && 1 <= |r[i].ids| <= c
    ensures forall i :: 0 <= i < |r| - 1 ==> |r[i].ids| == c
    ensures ids == [] <==> r == []
    decreases |ids|
  {
    if ids == [] then []
    else
      var k := Min(c, |ids|);
      [Add(ids[..k])] + AddLog(ids[k..], c)
  }

  /** The batch sizes of a log, in order. */
  function Sizes(log: seq<Request>): (r: seq<nat>)
    ensures |r| == |log|
    ensures forall i :: 0 <= i < |log| ==> r[i] == BatchSize(log[i])
    decreases |log|
  {
    if log == [] then [] else [BatchSize(log[0])] + Sizes(log[1..])
  }

  function Sum(s: seq<nat>): nat
    decreases |s|
  {
    if s == [] then 0 else s[0] + Sum(s[1..])
  }

  /** One more full batch adds one to the batch count. */
  lemma CeilDivStep(n: nat, c: nat)
    requires c > 0 && n > c
    ensures CeilDiv(n, c) == CeilDiv(n - c, c) + 1
  {
    var x := n - c + c - 1;
    var q, r := x / c, x % c;
    assert x == q * c + r && 0 <= r < c;
    assert x + c == (q + 1) * c + r;
    DivUnique(x + c, c, q + 1, r);
  }

  /** Euclidean division is determined by quotient and remainder. */
  lemma DivUnique(x: int, c: int, q: int, r: int)
    requires c > 0 && 0 <= r < c && x == q * c + r
    ensures x / c == q
  {
    var q', r' := x / c, x % c;
    assert x == q' * c + r';
    assert (q - q') * c == r' - r by {
      assert q * c - q' * c == (q - q') * c;
    }
    if q' < q {
      MulAtLeast(q - q', c);
    } else if q' > q {
      MulAtLeast(q' - q, c);
    }
  }

  lemma {:induction false} MulAtLeast(d: int, c: int)
    requires d >= 1 && c > 0
    ensures d * c >= c
    decreases d
  {
    if d > 1 {
      MulAtLeast(d - 1, c);
      assert d * c == (d - 1) * c + c;
    }
  }

  /** A non-empty remainder of at most `c` items is one batch. */
  lemma CeilDivLast(n: nat, c: nat)
    requires 0 < n <= c
    ensures CeilDiv(n, c) == 1
  {
    assert c <= n + c - 1 < 2 * c;
  }

  /** Clearing `n` items takes `ceil(n / c)` delete requests, and their
      sizes add up to exactly `n`. */
  lemma {:induction false} ClearLogCount(n: nat, c: nat)
    requires c > 0
    ensures |ClearLog(n, c)| == CeilDiv(n, c)
    ensures Sum(Sizes(ClearLog(n, c))) == n
    decreases n
  {
    if n > 0 {
      var k := Min(n, c);
      var rest := ClearLog(n - k, c);
      ClearLogCount(n - k, c);
      assert ClearLog(n, c) == [Delete(Range(k))] + rest;
      assert (ClearLog(n, c))[1..] == rest;
      if n > c { CeilDivStep(n, c); } else { CeilDivLast(n, c); }
    }
  }

  /** Appending `ids` takes `ceil(|ids| / c)` add requests. */
  lemma {:induction false} AddLogCount(ids: seq<TrackId>, c: nat)
    requires c > 0
    ensures |AddLog(ids, c)| == CeilDiv(|ids|, c)
    decreases |ids|
  {
    if ids != [] {
      var k := Min(c, |ids|);
      AddLogCount(ids[k..], c);
      if |ids| > c { CeilDivStep(|ids|, c); } else { CeilDivLast(|ids|, c); }
    }
  }

  /** The add batches, laid end to end, are `ids` itself: nothing is
      dropped, duplicated or reordered. */
  lemma {:induction false} AddLogFlatten(ids: seq<TrackId>, c: nat)
    requires c > 0
    ensures AddedIds(AddLog(ids, c)) == ids
    decreases |ids|
  {
    if ids != [] {
      var k := Min(c, |ids|);
      var log := AddLog(ids, c);
      AddLogFlatten(ids[k..], c);
      assert log[0] == Add(ids[..k]);
      assert log[1..] == AddLog(ids[k..], c);
      assert ids[..k] + ids[k..] == ids;
    }
  }

  /** Sending the delete requests of `ClearLog(|p|, c)` empties `p`. */
  lemma {:induction false} ReplayClearLog(p: seq<TrackId>, c: nat)
    requires c > 0
    ensures Replay(p, ClearLog(|p|, c)) == []
    decreases |p|
  {
    if p != [] {
      var k := Min(|p|, c);
      var first := Delete(Range(k));
      DeleteLeading(p, k);
      ReplayConcat(p, [first], ClearLog(|p| - k, c));
      assert |p[k..]| == |p| - k;
      ReplayClearLog(p[k..], c);
    }
  }

  /** Sending the add requests of `AddLog(ids, c)` appends `ids` to `p`. */
  lemma ReplayAddLog(p: seq<TrackId>, ids: seq<TrackId>, c: nat)
    requires c > 0
    ensures Replay(p, AddLog(ids, c)) == p + ids
  {
    var log := AddLog(ids, c);
    ReplayAdds(p, log);
    AddLogFlatten(ids, c);
  }

  /** The log of a rewrite (clear, then append) falls into two phases: the
      first `|ClearLog(|p|, c)|` requests are exactly the deletes, they leave
      the playlist empty, and the adds that follow carry exactly `ids`, so
      the playlist ends equal to `ids` whatever it held before. */
  lemma RewriteLogPhases(p: seq<TrackId>, ids: seq<TrackId>, c: nat)
    requires c > 0
    ensures var clear := ClearLog(|p|, c);
      var log := clear + AddLog(ids, c);
      && (forall i :: 0 <= i < |log| ==> (log[i].Delete? <==> i < |clear|))
      && Replay(p, log[..|clear|]) == []
      && AddedIds(log[|clear|..]) == ids
      && Replay(p, log) == ids
  {
    var clear := ClearLog(|p|, c);
    var adds := AddLog(ids, c);
    var log := clear + adds;
    assert log[..|clear|] == clear;
    assert log[|clear|..] == adds;
    ReplayClearLog(p, c);
    AddLogFlatten(ids, c);
    ReplayConcat(p, clear, adds);
    ReplayAddLog([], ids, c);
    assert [] + ids == ids;
  }

  /** Clearing 45 items with chunk size 20 sends batches of 20, 20 and 5. */
  lemma ClearFortyFive()
    ensures Sizes(ClearLog(45, 20)) == [20, 20, 5]
  {
    assert ClearLog(5, 20) == [Delete(Range(5))] + ClearLog(0, 20);
    assert ClearLog(25, 20) == [Delete(Range(20))] + ClearLog(5, 20);
    assert ClearLog(45, 20) == [Delete(Range(20))] + ClearLog(25, 20);
  }

  /** Appending 45 ids with chunk size 20 sends batches of 20, 20 and 5. */
  lemma AddFortyFive(ids: seq<TrackId>)
    requires |ids| == 45
    ensures Sizes(AddLog(ids, 20)) == [20, 20, 5]
  {
    var a := AddLog(ids, 20);
    assert a == [Add(ids[..20])] + AddLog(ids[20..], 20);
    assert AddLog(ids[20..], 20) == [Add(ids[20..][..20])] + AddLog(ids[20..][20..], 20);
    var tail := ids[20..][20..];
    assert tail[..5] == tail && tail[5..] == [];
    assert AddLog(tail, 20) == [Add(tail)] + AddLog([], 20);
  }
}
