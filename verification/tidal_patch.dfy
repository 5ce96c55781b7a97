/** The chunked playlist rewrite: clear a playlist in delete batches, then
    append the new track list in add batches. Each method returns the
    playlist contents it leaves behind together with the requests it sent,
    in order; the contents are what replaying those requests produces. */
module TidalPatch {
  import opened PlaylistState
  import opened Batches

  /** The batch one iteration of the add loop sends and the offset after it. */
  datatype AddStep = AddStep(batch: seq<TrackId>, next: nat)

  /** One step of the add loop at `offset`: the slice
      `track_ids[offset:offset+chunk_size]` and the offset after it. The
      slice is exactly `count = min(chunk_size, len - offset)` long. */
  function NextAddBatch(ids: seq<TrackId>, offset: nat, chunkSize: nat): (r: AddStep)
    requires chunkSize > 0 && offset < |ids|
    ensures |r.batch| == Min(chunkSize, |ids| - offset)
    ensures 1 <= |r.batch| <= chunkSize
    ensures offset < r.next <= |ids| && r.next == offset + |r.batch|
    ensures forall i :: 0 <= i < |r.batch| ==> offset + i < |ids| && r.batch[i] == ids[offset + i]
  {
    var count := Min(chunkSize, |ids| - offset);
    AddStep(PySlice(ids, offset, offset + chunkSize), offset + count)
  }

  /** The part of the add log still to be sent at `offset` is the next
      batch followed by the log for the rest. */
  lemma AddLogUnfold(ids: seq<TrackId>, offset: nat, chunkSize: nat)
    requires chunkSize > 0 && offset < |ids|
    ensures AddLog(ids[offset..], chunkSize) ==
      [Add(NextAddBatch(ids, offset, chunkSize).batch)] + AddLog(ids[NextAddBatch(ids, offset, chunkSize).next..], chunkSize)
  {
    var step := NextAddBatch(ids, offset, chunkSize);
    assert step.batch == ids[offset..step.next];
    assert ids[offset..][..|step.batch|] == step.batch;
    assert ids[offset..][|step.batch|..] == ids[step.next..];
  }

  /** One iteration of the add loop keeps its invariants: the contents are
      the original playlist followed by the ids before the offset, they are
      what the log sent so far produces, and the log sent so far followed
      by the log still to come is the whole appending log. */
  lemma {:induction false} AddLoopStep(p: seq<TrackId>, ids: seq<TrackId>, chunkSize: nat, offset: nat,
                                       q: seq<TrackId>, log: seq<Request>)
    requires chunkSize > 0 && offset < |ids|
    requires q == p + ids[..offset] && Replay(p, log) == q
    requires log + AddLog(ids[offset..], chunkSize) == AddLog(ids, chunkSize)
    ensures var step := NextAddBatch(ids, offset, chunkSize);
      && q + step.batch == p + ids[..step.next]
      && Replay(p, log + [Add(step.batch)]) == q + step.batch
      && log + [Add(step.batch)] + AddLog(ids[step.next..], chunkSize) == AddLog(ids, chunkSize)
  {
    var step := NextAddBatch(ids, offset, chunkSize);
    assert ids[..step.next] == ids[..offset] + step.batch;
    ReplaySnoc(p, log, Add(step.batch));
    AddLogStep(ids, chunkSize, offset, log);
  }

  /** Sending the next batch moves one request from the log still to come to
      the log sent so far. */
  lemma AddLogStep(ids: seq<TrackId>, chunkSize: nat, offset: nat, log: seq<Request>)
    requires chunkSize > 0 && offset < |ids|
    requires log + AddLog(ids[offset..], chunkSize) == AddLog(ids, chunkSize)
    ensures var step := NextAddBatch(ids, offset, chunkSize);
      log + [Add(step.batch)] + AddLog(ids[step.next..], chunkSize) == AddLog(ids, chunkSize)
  {
    var step := NextAddBatch(ids, offset, chunkSize);
    var rest := AddLog(ids[step.next..], chunkSize);
    AddLogUnfold(ids, offset, chunkSize);
    assert log + [Add(step.batch)] + rest == log + ([Add(step.batch)] + rest);
  }

  /** One iteration of the clear loop keeps its invariants: deleting the
      leading `k = min(num_tracks, chunk_size)` items leaves a shorter suffix
      of the original playlist, the one the log sent so far produces, and
      the log sent so far followed by the log still to come is the whole
      clearing log. */
  lemma {:induction false} ClearLoopStep(p: seq<TrackId>, chunkSize: nat, q: seq<TrackId>, log: seq<Request>)
    requires chunkSize > 0 && |q| > 0
    requires |q| <= |p| && q == p[|p| - |q|..] && Replay(p, log) == q
    requires log + ClearLog(|q|, chunkSize) == ClearLog(|p|, chunkSize)
    ensures var k := Min(|q|, chunkSize);
      var q' := Apply(q, Delete(Range(k)));
      && |q'| == |q| - k <= |p|
      && q' == p[|p| - |q'|..]
      && Replay(p, log + [Delete(Range(k))]) == q'
      && log + [Delete(Range(k))] + ClearLog(|q'|, chunkSize) == ClearLog(|p|, chunkSize)
  {
    var k := Min(|q|, chunkSize);
    var request := Delete(Range(k));
    var rest := ClearLog(|q| - k, chunkSize);
    DeleteLeading(q, k);
    assert q[k..] == p[|p| - (|q| - k)..];
    assert Replay(p, log + [request]) == Apply(q, request) by {
      ReplaySnoc(p, log, request);
    }
    assert log + [request] + rest == ClearLog(|p|, chunkSize) by {
      assert ClearLog(|q|, chunkSize) == [request] + rest;
      assert log + [request] + rest == log + ([request] + rest);
    }
  }

  /** Deletes the first `min(num_tracks, chunk_size)` items until the
      playlist is empty. */
  method ClearPlaylist(p: seq<TrackId>, chunkSize: nat) returns (q: seq<TrackId>, log: seq<Request>)
    requires chunkSize > 0
    ensures q == [] && Replay(p, log) == q
    ensures log == ClearLog(|p|, chunkSize)
    ensures |log| == CeilDiv(|p|, chunkSize)
    ensures forall i :: 0 <= i < |log| ==>
      log[i] == Delete(Range(|log[i].indices|)) && 1 <= |log[i].indices| <= chunkSize
    ensures forall i :: 0 <= i < |log| - 1 ==> |log[i].indices| == chunkSize
  {
    q := p;
    log := [];
    while |q| > 0
      invariant |q| <= |p| && q == p[|p| - |q|..]
      invariant Replay(p, log) == q
      invariant log + ClearLog(|q|, chunkSize) == ClearLog(|p|, chunkSize)
      decreases |q|
    {
      var k := Min(|q|, chunkSize);
      var request := Delete(Range(k));
      ClearLoopStep(p, chunkSize, q, log);
      log := log + [request];
      q := Apply(q, request);
    }
    assert log + [] == log;
    ClearLogCount(|p|, chunkSize);
  }

  /** Appends `ids` in consecutive slices of at most `chunk_size`, walking
      an offset from the front. */
  method AddTracks(p: seq<TrackId>, ids: seq<TrackId>, chunkSize: nat)
    returns (q: seq<TrackId>, log: seq<Request>)
    requires chunkSize > 0
    ensures q == p + ids && Replay(p, log) == q
    ensures log == AddLog(ids, chunkSize)
    ensures AddedIds(log) == ids
    ensures |log| == CeilDiv(|ids|, chunkSize)
    ensures forall i :: 0 <= i < |log| ==> log[i].Add? && 1 <= |log[i].ids| <= chunkSize
    ensures forall i :: 0 <= i < |log| - 1 ==> |log[i].ids| == chunkSize
    ensures ids == [] ==> log == [] && q == p
  {
    q := p;
    log := [];
    var offset: nat := 0;
    while offset < |ids|
      invariant offset <= |ids|
      invariant q == p + ids[..offset]
      invariant Replay(p, log) == q
      invariant log + AddLog(ids[offset..], chunkSize) == AddLog(ids, chunkSize)
      decreases |ids| - offset
    {
      var step := NextAddBatch(ids, offset, chunkSize);
      var batch, next := step.batch, step.next;
      var request := Add(batch);
      AddLoopStep(p, ids, chunkSize, offset, q, log);
      log := log + [request];
      q := q + batch;
      offset := next;
    }
    assert ids[..offset] == ids;
    assert log + [] == log;
    AddLogFlatten(ids, chunkSize);
    AddLogCount(ids, chunkSize);
  }

  /** Replaces the contents of a playlist with `ids`: clear, then add, both
      with the default chunk size. `deletes` is the number of delete
      requests; `RewriteLogPhases` shows they all come before the first add. */
  method SetPlaylist(p: seq<TrackId>, ids: seq<TrackId>)
    returns (q: seq<TrackId>, log: seq<Request>, deletes: nat)
    ensures q == ids && Replay(p, log) == ids
    ensures log == ClearLog(|p|, DefaultChunkSize) + AddLog(ids, DefaultChunkSize)
    ensures deletes == |ClearLog(|p|, DefaultChunkSize)|
  {
    var cleared, clearLog := ClearPlaylist(p, DefaultChunkSize);
    var addLog;
    q, addLog := AddTracks(cleared, ids, DefaultChunkSize);
    log := clearLog + addLog;
    deletes := |clearLog|;
    ReplayConcat(p, clearLog, addLog);
  }
}
