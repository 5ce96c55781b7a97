/** The server-side state of one Tidal playlist and the two write requests
    the rewrite routine sends to it. The HTTP transport, the etag header and
    the re-parse of the playlist after a delete are abstracted into the
    effect each request has on the ordered track list. */
module PlaylistState {

  /** Tidal track identifiers are integers. */
  type TrackId = int

  /** A write request against a playlist: delete the items at the given
      positions, or append the given tracks at the end. */
  datatype Request =
    | Delete(indices: seq<int>)
    | Add(ids: seq<TrackId>)

  /** Number of items a request names. */
  function BatchSize(r: Request): nat {
    match r
    case Delete(ix) => |ix|
    case Add(ids) => |ids|
  }

  /** The index list `0, 1, ..., k-1` that `range(k)` produces. */
  function Range(k: nat): (r: seq<int>)
    ensures |r| == k
    ensures forall i :: 0 <= i < k ==> r[i] == i
    ensures forall j :: j in r <==> 0 <= j < k
  {
    if k == 0 then [] else Range(k - 1) + [k - 1]
  }

  /** The items of `p`, whose first item sits at position `base`, that the
      index list does not name, in their original order. */
  function RemoveFrom(p: seq<TrackId>, indices: seq<int>, base: nat): (r: seq<TrackId>)
    ensures |r| <= |p|
    ensures forall x :: x in r ==> x in p
    decreases |p|
  {
    if p == [] then []
    else (if base in indices then [] else [p[0]]) + RemoveFrom(p[1..], indices, base + 1)
  }

  /** Effect of a delete request: every item whose position is listed is
      removed, the others keep their relative order. */
  function RemoveIndices(p: seq<TrackId>, indices: seq<int>): seq<TrackId> {
    RemoveFrom(p, indices, 0)
  }

  /** Effect of one request on the playlist contents: an add keeps the
      current contents as a prefix and puts the batch after them; a delete
      only ever drops items. */
  function Apply(p: seq<TrackId>, r: Request): (q: seq<TrackId>)
    ensures r.Add? ==> |q| == |p| + |r.ids|
    ensures r.Delete? ==> |q| <= |p|
  {
    match r
    case Delete(ix) => RemoveIndices(p, ix)
    case Add(ids) => p + ids
  }

  /** Effect of a log of requests sent in order: each request is applied
      to the contents the earlier ones left, and sending nothing changes
      nothing. */
  function Replay(p: seq<TrackId>, log: seq<Request>): (q: seq<TrackId>)
    ensures log == [] ==> q == p
    decreases |log|
  {
    if log == [] then p
    else Apply(Replay(p, log[..|log| - 1]), log[|log| - 1])
  }

  /** What one request does to the contents: an add keeps the current
      contents as a prefix and puts the batch right after them; a delete only
      drops items, so every item left was there before. */
  lemma ApplyEffect(p: seq<TrackId>, r: Request)
    ensures r.Add? ==> Apply(p, r)[..|p|] == p && Apply(p, r)[|p|..] == r.ids
    ensures r.Delete? ==> forall x :: x in Apply(p, r) ==> x in p
  {
    if r.Add? {
      assert Apply(p, r) == p + r.ids;
    }
  }

  /** The ids the add requests of a log carry, concatenated in log order. */
  function AddedIds(log: seq<Request>): seq<TrackId>
    decreases |log|
  {
    if log == [] then []
    else (if log[0].Add? then log[0].ids else []) + AddedIds(log[1..])
  }

  /** One more request contributes its ids, if it is an add, at the end. */
  lemma {:induction false} AddedIdsSnoc(log: seq<Request>, r: Request)
    ensures AddedIds(log + [r]) == AddedIds(log) + (if r.Add? then r.ids else [])
    decreases |log|
  {
    if log == [] {
      assert [] + [r] == [r];
    } else {
      assert (log + [r])[1..] == log[1..] + [r];
      AddedIdsSnoc(log[1..], r);
    }
  }

  /** A log of deletes only, as the clear loop sends, never grows the
      playlist nor brings in a new item. */
  lemma {:induction false} ReplayDeletes(p: seq<TrackId>, log: seq<Request>)
    requires forall i :: 0 <= i < |log| ==> log[i].Delete?
    ensures |Replay(p, log)| <= |p|
    ensures forall x :: x in Replay(p, log) ==> x in p
    decreases |log|
  {
    if log != [] {
      var front := log[..|log| - 1];
      assert forall i :: 0 <= i < |front| ==> front[i].Delete? by {
        forall i | 0 <= i < |front| ensures front[i].Delete? {
          assert front[i] == log[i];
        }
      }
      ReplayDeletes(p, front);
      ApplyEffect(Replay(p, front), log[|log| - 1]);
    }
  }

  /** A log of adds only, as the add loop sends, appends exactly the ids it
      carries, in log order, after the original contents. */
  lemma {:induction false} ReplayAdds(p: seq<TrackId>, log: seq<Request>)
    requires forall i :: 0 <= i < |log| ==> log[i].Add?
    ensures Replay(p, log) == p + AddedIds(log)
    decreases |log|
  {
    if log == [] {
      assert p + [] == p;
    } else {
      var front := log[..|log| - 1];
      var last := log[|log| - 1];
      assert forall i :: 0 <= i < |front| ==> front[i].Add? by {
        forall i | 0 <= i < |front| ensures front[i].Add? {
          assert front[i] == log[i];
        }
      }
      ReplayAdds(p, front);
      assert log == front + [last];
      AddedIdsSnoc(front, last);
      assert Replay(p, log) == p + AddedIds(front) + last.ids;
    }
  }

  /** `x` clamped into `0..n`. */
  function Clamp(x: int, n: nat): (r: nat)
    ensures r <= n
  {
    if x < 0 then 0 else if x > n then n else x
  }

  /** Removing the leading positions `0..k-1` from the part of a playlist
      that starts at position `base` drops exactly its first `k - base` items. */
  lemma {:induction false} RemoveFromLeading(p: seq<TrackId>, indices: seq<int>, base: nat, k: nat)
    requires forall j :: j in indices <==> 0 <= j < k
    ensures RemoveFrom(p, indices, base) == p[Clamp(k - base, |p|)..]
    decreases |p|
  {
    if p == [] {
    } else {
      RemoveFromLeading(p[1..], indices, base + 1, k);
      if base < k {
        assert base in indices;
        assert p[1..][Clamp(k - (base + 1), |p| - 1)..] == p[Clamp(k - base, |p|)..];
      } else {
        assert base !in indices;
        assert [p[0]] + p[1..] == p;
      }
    }
  }

  /** A delete of `range(k)` removes the FRONT of the playlist: the result is
      the suffix after the first `k` items (all of it when `k` exceeds the
      length). */
  lemma DeleteLeading(p: seq<TrackId>, k: nat)
    ensures Apply(p, Delete(Range(k))) == p[Clamp(k, |p|)..]
    ensures k <= |p| ==> |Apply(p, Delete(Range(k)))| == |p| - k
  {
    RemoveFromLeading(p, Range(k), 0, k);
  }

  /** Sending the requests of `a` and then those of `b` has the effect of
      sending `a + b`. */
  lemma {:induction false} ReplayConcat(p: seq<TrackId>, a: seq<Request>, b: seq<Request>)
    ensures Replay(p, a + b) == Replay(Replay(p, a), b)
    decreases |b|
  {
    if b == [] {
      assert a + b == a;
    } else {
      var b' := b[..|b| - 1];
      assert (a + b)[..|a + b| - 1] == a + b';
      assert (a + b)[|a + b| - 1] == b[|b| - 1];
      ReplayConcat(p, a, b');
    }
  }

  /** Sending one more request applies it to the current contents. */
  lemma ReplaySnoc(p: seq<TrackId>, log: seq<Request>, r: Request)
    ensures Replay(p, log + [r]) == Apply(Replay(p, log), r)
  {
    assert (log + [r])[..|log|] == log;
  }

}
