# Chunked Tidal playlist rewrite

This project models how Tyspidal overwrites a Tidal playlist with a new ordered list of track ids. The routine has three parts:

- **Clear.** It keeps deleting the items at positions `0..k-1`, with `k = min(num_tracks, chunk_size)`, until the playlist is empty.
- **Append.** It walks the new id list with an offset and appends consecutive slices of at most `chunk_size` ids.
- **Set.** It runs clear, then append, with the default chunk size of 20.

The playlist on the server is a `seq<TrackId>`, and `num_tracks` is its length. Every write is recorded as a `Request`:

- `Delete(indices)` removes the listed positions and keeps the order of the other items.
- `Add(ids)` appends `ids` at the end.

`Replay` gives the effect of a whole request log. Each method returns the contents it leaves behind and the log it sent. Its contract relates both to the input: the final contents, the exact batches, their number, their sizes and their order.

The reference definitions are `Batches.ClearLog` and `Batches.AddLog`. They are the logs the two loops are meant to send. The lemmas about them are:

- a batch-count lemma (`ceil(n / chunk_size)`);
- a total-size lemma;
- a flatten lemma: the add batches put end to end give back the id list;
- a replay lemma for each log: clearing empties the playlist, and appending adds exactly the ids.

The loops are proved to produce exactly these logs. The delete and add counts of a full rewrite, which uses chunk size 20, therefore follow from `Batches.ClearLogCount` and `Batches.AddLogCount`.

Modules:

- `PlaylistState`: the playlist contents, the requests, and what one request and a whole log do to the contents.
- `Batches`: the reference request logs of the two loops, and lemmas about them.
- `TidalPatch`: the three routines as loops, with their invariants.

The deleted positions are the leading ones. `range(k)` starts at 0, so each delete takes the front of the playlist (`PlaylistState.DeleteLeading`).

Both loops need `chunk_size > 0`, and every routine here has that as a `requires`. With a chunk size of 0 the clear loop deletes `range(0)`, which is nothing, and the add loop's offset never moves. Neither loop would end. The source's own callers always use the default of 20.

## Model

| member | source | states |
|---|---|---|
| PlaylistState.Range | tidalapi_patch.py:10 | `range(k)` is the list `0, 1, ..., k-1`: it has length `k`, and position `i` holds `i`. A value is in it exactly when it lies in `0..k-1`. |
| PlaylistState.RemoveFrom | tidalapi_patch.py:2-6 | A delete keeps only items of the playlist: the result is no longer than the playlist, and every remaining item was in it. |
| PlaylistState.RemoveFromLeading | tidalapi_patch.py:2-6 | Deleting the leading positions `0..k-1` from a playlist part that starts at position `base` drops exactly its first `k - base` items, clamped to its length. |
| PlaylistState.DeleteLeading | tidalapi_patch.py:10-11 | A delete of `range(k)` leaves the suffix after the first `k` items, so `k` fewer tracks when `k <= num_tracks`. The removed indices are the front of the playlist. |
| PlaylistState.Apply | tidalapi_patch.py:17 | The assumed effect of one request. An add appends the batch, so the playlist grows by exactly the batch size. A delete never grows the playlist; for the `range(k)` deletes the clear loop sends, `PlaylistState.DeleteLeading` gives the exact result `p[k..]`. |
| PlaylistState.ReplayDeletes | tidalapi_patch.py:9-11 | A log of deletes only, as the clear loop sends, applied one request after another, never grows the playlist and never brings in an item that was not already there. |
| PlaylistState.ReplayAdds | tidalapi_patch.py:15-18 | A log of adds only, as the add loop sends, applied one request after another, turns `p` into `p` followed by the ids of every batch in log order. |
| PlaylistState.ReplayConcat | tidalapi_patch.py:23-25 | Sending one log and then another has the same effect as sending the two logs joined. |
| Batches.PySlice | tidalapi_patch.py:17 | Python slicing with clamped bounds. The slice's length is `min(hi, len) - lo` when `lo < hi` and `lo < len`, and 0 otherwise. Position `i` of the slice is position `lo + i` of the list. |
| Batches.ClearLog | tidalapi_patch.py:8-11 | Every clearing request is a delete of a leading range `0..k-1` with `1 <= k <= chunk_size`. Every batch but the last is full size. There are no requests exactly when the playlist is already empty. |
| Batches.AddLog | tidalapi_patch.py:13-18 | Every appending request is an add of 1 to `chunk_size` ids. Every batch but the last is full size. There are no requests exactly when the id list is empty. |
| Batches.ClearLogCount | tidalapi_patch.py:8-11 | Clearing `n` items sends exactly `ceil(n / chunk_size)` deletes, and their sizes add up to `n`. |
| Batches.AddLogCount | tidalapi_patch.py:13-18 | Appending `n` ids sends exactly `ceil(n / chunk_size)` adds. |
| Batches.AddLogFlatten | tidalapi_patch.py:14-18 | The add batches put end to end are exactly the id list: nothing is dropped, duplicated or reordered. |
| Batches.ReplayClearLog | tidalapi_patch.py:9-11 | Sending the clearing deletes to a playlist of any contents leaves it empty. |
| Batches.ReplayAddLog | tidalapi_patch.py:14-18 | Sending the appending adds to a playlist `p` leaves `p + ids`. |
| Batches.ClearFortyFive | tidalapi_patch.py:8-11 | Clearing 45 items with chunk size 20 sends delete batches of 20, 20 and 5. |
| Batches.AddFortyFive | tidalapi_patch.py:13-18 | Appending 45 ids with chunk size 20 sends add batches of 20, 20 and 5. |
| TidalPatch.NextAddBatch | tidalapi_patch.py:16-18 | At offset `o < len`, the slice `track_ids[o:o+chunk_size]` has length exactly `count = min(chunk_size, len - o)`, with `1 <= count <= chunk_size`. It is the ids from `o` to `o + count`. The offset strictly increases and stays within the list. |
| TidalPatch.AddLogUnfold | tidalapi_patch.py:15-18 | What remains of the appending log at offset `o` is the batch the next iteration sends, followed by the appending log for the ids after the new offset. |
| TidalPatch.ClearLoopStep | tidalapi_patch.py:9-11 | One pass of the clear loop deletes `k = min(num_tracks, chunk_size)` leading items, leaving a suffix of the original playlist `k` items shorter. That suffix is what the requests sent so far produce, and the rest of the clearing log still matches. |
| TidalPatch.AddLoopStep | tidalapi_patch.py:15-18 | One pass of the add loop extends the contents to the original playlist followed by `track_ids[..offset + count]`. The new contents are what the requests sent so far produce, and the rest of the appending log still matches. |
| TidalPatch.ClearPlaylist | tidalapi_patch.py:8-11 | The loop ends and leaves an empty playlist. It sends exactly the reference clearing log: `ceil(n / chunk_size)` deletes of leading ranges, each of size 1 to `chunk_size`, all full but the last. |
| TidalPatch.AddTracks | tidalapi_patch.py:13-18 | The loop ends with the contents `p + track_ids`, the ids in their original order. It sends exactly the reference appending log: `ceil(len / chunk_size)` adds of 1 to `chunk_size` ids, all full but the last, whose ids joined are `track_ids`. An empty id list sends nothing and changes nothing. |
| TidalPatch.SetPlaylist | tidalapi_patch.py:21-25 | Whatever the earlier contents, the playlist ends up equal to `track_ids`. The requests sent are exactly the reference clearing log for the old length, followed by the reference appending log for `track_ids`, both with chunk size 20. `deletes` is the length of the clearing part. |
| Batches.RewriteLogPhases | tidalapi_patch.py:21-25 | A clear-then-append log has two phases. A request is a delete exactly when it comes before the end of the clearing part. The playlist is empty once the clearing part has been sent. The adds that follow carry exactly `track_ids`, and the whole log turns any playlist into `track_ids`. |

## Left out

- The HTTP DELETE request, its URL formatting and the `If-None-Match` etag header are left out (tidalapi_patch.py:3-5). They are network I/O. Only their effect on the track list is modelled.
- `playlist._reparse()` (tidalapi_patch.py:6) is left out as a library internal. The model assumes that afterwards `num_tracks` is the length of the server's list.
- The internals of `playlist.add` (tidalapi_patch.py:17) are left out because it is a foreign library call. It is modelled as appending the batch.
- The two progress `print` calls (tidalapi_patch.py:22, 24) are left out because they are console output only.
- Server-side failures, concurrent edits to the playlist by another client and etag mismatches are not modelled. The model assumes every request succeeds as sent.
- A chunk size of 0 or less is excluded by a `requires`, because with it neither loop ends.
- The caller's dirty check, track matching, catalog search and source-playlist paging live in `Source Code/Tyspidal.py`. That file is not part of this model.
