# YouTube Shuffler — session logic in Dafny

This project models the decision-making core of the YouTube Shuffler desktop application
(`shuffle.py`, class `YouTubeShuffler`). The application picks a channel, lists its videos,
and plays them in shuffled order in an external mpv player.

The model covers:

- **The shuffle session**: the catalog (`videos`), the history of chosen catalog indices with
  its cursor, the current channel, and the per-channel saved states. It is a `Session` class
  whose methods "next", "previous", "new shuffle", "save states", "load channel" and "merge
  metadata" update those fields in place (`session.dfy`).
- **Pure specifications** of history navigation and of reconciling a saved history against a
  new catalog (`history.dfy`), and of saving and restoring channel states (`state_store.dfy`).
- **Channel URL normalisation** (`channel_url.dfy`), built on models of Python's `strip`,
  `rstrip`, `startswith`, `endswith` and `in` (`text.dfy`).
- **The catalog**: parsing the listing fetch's entries with the appending loop, and the
  cache-or-fetch decision of `fetch_channel_videos` (`catalog.dfy`).
- **Records**: the metadata defaults, the in-place record merge and the `H:MM:SS`/`M:SS`
  duration label (`records.dfy`), plus the play guard and the display-refresh test
  (`player.dfy`).

Inputs that come from outside the program are parameters:

- the random draw `r` of `random.randint`;
- whether mpv answers on its socket (`playerReady`);
- whether a state or cache write succeeds (`writeOk`);
- the outcome of the listing fetch and the content of the cache file;
- the single-video metadata dump (`info`);
- the timestamp `now`;
- the user's answer to the "New Shuffle" confirmation (`confirmed`).

The model follows what the code does, including where that is not what it appears to do at
first sight. The one exception is the display-refresh test of the metadata merge, listed under
"## Findings".

- **No branch truncation.** The code has a truncation step at shuffle.py:1393-1394, but it
  sits under the same test that sent control to the `else` branch, so it never runs. "Next"
  replays the following entry whenever the cursor is before the tip. `History.Next` ensures
  the old history is always a prefix of the new one, and `History.NextBeforeTipReplays` shows
  that from `[2, 4, 1]` with the cursor on 4, "next" replays 1.
- **Clamping only from above.** Reconciliation pulls the cursor back only when it is past the
  last entry. It never raises a cursor below -1. A stored position below -1 (possible only in
  a hand-edited state document) therefore survives resuming. For this reason the session's
  `Valid()` demands only `position < |history|`. The full invariant `Sound()` adds
  `-1 <= position` and is kept while every stored position is at least -1.
- **No check that the source still matches.** The metadata merge does not check whether the
  catalog was replaced while the fetch ran. It only checks the index range.

## Model

| member | source | states |
|---|---|---|
| `ChannelUrl.Normalize` | shuffle.py:1057-1079 | Empty input, a missing `http://`/`https://` prefix and a non-YouTube host are the three errors, each exactly when its check fails on the stripped, slash-trimmed input; a result never ends in `/`, keeps the scheme and host, is the cleaned input plus `/videos` exactly when the cleaned input is a channel page not already ending in `/videos`, and otherwise the cleaned input itself |
| `ChannelUrl.NormalizeIdempotent` | shuffle.py:1063-1076 | A normalised URL that does not end in whitespace normalises to itself |
| `ChannelUrl.ChannelNormalizeIdempotent` | shuffle.py:1072-1074 | A normalised handle, `/c/`, `/user/` or `/channel/` URL ends in `/videos` and normalising it again leaves it unchanged |
| `Text.ContainsExtend` | shuffle.py:1069-1072 | A substring occurrence survives appending text, so the host and channel checks still hold after `/videos` is appended |
| `Text.DecimalRoundTrip` | shuffle.py:1467-1471 | Reading back the decimal digits of a number gives the number |
| `Records.MetadataOf` | shuffle.py:1098-1104 | Each metadata field is the dump's value when its key is present, else its default (`""`, 0, 0, `"Unknown"`); the channel falls back to the uploader only when the `channel` key is absent |
| `Records.Merge` | shuffle.py:1132 | The merged record keeps its URL and carries exactly the supplied metadata |
| `Records.MergeLaws` | shuffle.py:1132 | Merging a record's own metadata is the identity, merging twice equals merging once, and a merge changes nothing exactly when the metadata already matched |
| `Records.FormatDuration` | shuffle.py:1462-1471 | A label is produced exactly for a positive duration (its form is stated by `Records.DurationRoundTrip` and `Records.LabelIsCanonical`) |
| `Records.DurationRoundTrip` | shuffle.py:1463-1471 | Every label parses back to the number of seconds it was made from; from 3600 s up it has the `H:MM:SS` form (it reads as `H:MM:SS` and not as `M:SS`), below that the `M:SS` form (and not `H:MM:SS`) |
| `Records.LabelIsCanonical` | shuffle.py:1463-1471 | Every string that reads as a positive duration is exactly the label printed for it, so the readers accept nothing but printed labels: hours without a leading zero and at least 1, minutes and seconds below 60 in two digits, and short-form minutes without a leading zero |
| `Records.SplitSeconds` | shuffle.py:1464-1466 | Hours, minutes and seconds as computed add back up to the duration, with minutes and seconds below 60 |
| `Catalog.FirstNonEmpty` | shuffle.py:1204-1208 | The result is the first non-empty candidate, or the fallback when every candidate is absent or empty |
| `Catalog.ChannelName` | shuffle.py:1204-1208 | The channel name given to the records is never empty |
| `Catalog.ToVideo` | shuffle.py:1219-1227 | URL defaults to the watch URL of the id, title to `"Unknown"`, upload date to `""`, view count and duration to 0; the channel is the listing's channel name |
| `Catalog.CollectedIsFilteredEntries` | shuffle.py:1210-1232 | The collected records are, in order and one for one, the entries that have an id not starting with `UC`, each turned into a record |
| `Catalog.ParseEntries` | shuffle.py:1210-1232 | The appending loop returns exactly the collected records of all entries |
| `Catalog.ParseListing` | shuffle.py:1201-1234 | A listing without `entries` is an invalid response; a listing whose entries have no playable one is "no videos found"; otherwise the records |
| `Catalog.LiveFetch` | shuffle.py:1177-1265 | A URL that does not normalise is a bad-URL error carrying the reason; otherwise the fetch runs on the normalised URL, a timeout, a failed process, empty output and invalid JSON are each their own error, and a listing yields its parsed catalog; a returned catalog is non-empty; the cache file is overwritten with it exactly when it is returned and the write succeeds |
| `Catalog.Resolve` | shuffle.py:1155-1265 | Without yt-dlp nothing is returned, even from cache; a non-forced non-empty cached list is returned unchanged with no fetch; a parsable cache that is empty or not a list is an error with no fetch; a corrupt cache is deleted and followed by a live fetch; a cache file that is not UTF-8 is an error, is kept and is not refetched; a missing cache or a forced refresh fetches; a returned catalog is never empty |
| `Catalog.CacheRoundTrip` | shuffle.py:1164-1242 | A catalog fetched and written to cache is returned unchanged, with no fetch, by the next non-forced resolution |
| `Catalog.FetchChannelVideos` | shuffle.py:1155-1265 | The imperative cache check, fetch, parsing loop and cache write compute exactly `Resolve` |
| `Seqs.FilterAppend` | shuffle.py:1313 | Filtering distributes over concatenation |
| `Seqs.FilterKeepsAll` | shuffle.py:1313 | A filter keeps its whole input exactly when every element passes |
| `Seqs.FilterIsSubsequence` | shuffle.py:1313 | A filter's output is an order-preserving subsequence of its input |
| `History.Next` | shuffle.py:1384-1397 | With no videos nothing changes; before the tip only the cursor advances; at the tip exactly the draw is appended and the cursor moves to the new last entry; the old history is always a prefix of the new one |
| `History.Previous` | shuffle.py:1411-1413 | The cursor steps back iff it is above 0; the history never changes |
| `History.NextPreservesWellFormed` | shuffle.py:1384-1397 | "Next" keeps every entry inside the catalog and the cursor in `[-1, length)` |
| `History.PreviousPreservesWellFormed` | shuffle.py:1411-1413 | "Previous" keeps the same invariant |
| `History.ReplayIsDeterministic` | shuffle.py:1388-1390 | Stepping back and then forward restores the history exactly, whatever the draw |
| `History.NextAllWellFormed` | shuffle.py:1381-1397 | Any sequence of "next"s from a well-formed history stays well-formed, and after at least one the cursor is on an entry |
| `History.BackTwiceThenReplay` | shuffle.py:1388-1413 | From `[2, 4, 1]` at the tip, two steps back reach entry 2 and one step forward replays entry 4 |
| `History.NextBeforeTipReplays` | shuffle.py:1388-1394 | From `[2, 4, 1]` with the cursor on 4, "next" replays 1 rather than branching |
| `History.KeepInRange` | shuffle.py:1313 | Every kept entry indexes the catalog |
| `History.Reconcile` | shuffle.py:1313-1315 | The entries are exactly the in-range ones; the cursor becomes `len - 1` only when it is at or past `len`, else it is kept |
| `History.KeepInRangeExact` | shuffle.py:1313 | Reconciliation distributes over concatenation, preserves order, keeps every in-range entry and is the identity exactly on in-range histories |
| `History.ReconcileWellFormed` | shuffle.py:1313-1315 | A reconciled history is well-formed whenever the stored cursor is at least -1 |
| `History.ReconcileIdentity` | shuffle.py:1308-1315 | A well-formed history survives reconciliation unchanged |
| `StateStore.LoadStates` | shuffle.py:1619-1642 | The document's map when it parses as an object, else no states |
| `StateStore.Save` | shuffle.py:1644-1654 | With no current channel nothing changes; otherwise the current channel's entry holds the history and cursor and every other channel's entry is untouched |
| `StateStore.Restore` | shuffle.py:1306-1315 | A stored state whose cursor is at least -1 resumes to a well-formed history |
| `StateStore.SaveRestoreRoundTrip` | shuffle.py:1649-1653 | Saving a well-formed history and resuming it against the same catalog gives it back |
| `StateStore.RestoreShrunk` | shuffle.py:1308-1315 | Resuming against any catalog keeps just the in-range entries and is well-formed |
| `Player.PyAt` | shuffle.py:1430-1440 | Python indexing succeeds exactly for indices in `[-len, len)`; a non-negative index selects that element and a negative one counts from the end |
| `Player.PlayCommand` | shuffle.py:1492-1516 | `["loadfile", url, "replace"]` is issued exactly when the cursor is on an entry, the player is up and the entry indexes the catalog, with that record's URL; nothing to play exactly when the history is empty or the cursor negative |
| `Player.PlayWellFormed` | shuffle.py:1492-1516 | On a well-formed history the command is issued exactly when the cursor is non-negative and the player is up, and loads the record at the cursor's entry |
| `Player.DisplayedVideo` | shuffle.py:1429-1440 | A record is displayed exactly when the cursor is on an entry that Python indexing can look up in the catalog, and it is the record that entry indexes |
| `Player.RefreshAsWrittenMisses` | shuffle.py:1135 | The source's refresh test skips a record that is on display and fires for one that is not |
| `Player.RefreshExactlyWhenDisplayedChanges` | shuffle.py:1135 | With the intended test, a merge changes the displayed record only when a refresh is asked for, and after one the display shows the merged record |
| `Shuffler.Session.constructor` | shuffle.py:367-371 | A new session has no videos, an empty history at -1, no channel, and the states loaded from the state document |
| `Shuffler.Session.SaveStates` | shuffle.py:1644-1663 | The states become `Save` of the old ones; the state document is replaced by them only when a channel is current and the write succeeds |
| `Shuffler.Session.NextVideo` | shuffle.py:1381-1405 | With no videos nothing changes; otherwise the history becomes `Next` of the old one, the guard's command for the new cursor is returned and the states are saved; the invariants are kept |
| `Shuffler.Session.PreviousVideo` | shuffle.py:1411-1424 | At cursor 0 or below nothing changes; otherwise the cursor steps back, the command is returned and the states are saved |
| `Shuffler.Session.NewShuffle` | shuffle.py:1367-1376 | When confirmed the history becomes empty at -1 and is saved; otherwise nothing changes |
| `Shuffler.Session.LoadChannel` | shuffle.py:1267-1359 | A blank input changes nothing; a switch saves the old channel first; an empty fetch leaves the catalog, history and channel untouched; otherwise saved progress is resumed and reconciled iff the channel is known, not forced and not a switch, else the history starts empty, and the new state is saved |
| `Shuffler.Session.MergeMetadata` | shuffle.py:1111-1144 | Only an in-range index with fetched metadata is merged, with nothing else changed; a refresh is asked for exactly when that record is under the cursor (the corrected test, not the source's); the catalog is handed back for the cache only when a channel is current |

## Left out

- The Tkinter interface, dialogs, button states, logging and the dependency manager are not
  modelled. Error dialogs appear only as the error value an operation returns.
- The mpv launch, the socket connection and the command write are not modelled, nor the
  startup poll and its sleeps (shuffle.py:1527-1617). Whether mpv answers is the `playerReady`
  parameter of the play guard.
- Threads, `time.sleep` and `root.after` are not modelled. The metadata merge is applied as
  one step on the session's current catalog. The two-second window in which the catalog can
  be replaced is not represented.
- The MD5 cache key, the file system and JSON are not modelled. The cache file of the channel
  being resolved is a `CacheContent` value, and the fetch outcome is a parsed `Listing`.
  A file that is not UTF-8 is the `Undecodable` case: its `UnicodeDecodeError` is not a
  `JSONDecodeError`, so the file is not deleted and the error is reported.
  JSON `null` or wrongly typed field values are not represented. Keys are either present with
  a value of the expected type or absent.
- `Catalog.Resolve`: a failed cache write leaves the cache value as it was. A write that
  fails part-way and truncates the file is not represented.
- A `null` `entries` value, which the source turns into a generic error, is not represented.
- The `int()` of a fractional yt-dlp duration is not modelled. Durations are natural numbers.
- Date formatting and the grouped view count of the information line are not modelled.
  Only the duration label is.
- `Shuffler.Session.LoadChannel`: the fetch result is a parameter; use
  `Catalog.FetchChannelVideos` for it. The same `now` and `writeOk` serve for both saves.
- Python list aliasing is not modelled. The saved state holds the same list object as the live
  history, so an append is visible through it until the next save overwrites the entry. The
  model stores values.
- The temp-file-then-replace write is modelled as one atomic replacement of the state
  document.
- `Shuffler.Session.MergeMetadata`: asks for a refresh with the corrected test `ShowsRecord`
  (the entry under the cursor is the merged index), not with the source's comparison of the
  cursor with the catalog index at shuffle.py:1135. The test as written is `Player.RefreshAsWritten`,
  and "## Findings" shows the inputs on which the two differ.
- A cached JSON list is modelled as a list of complete records. The source accepts any non-empty
  list (shuffle.py:1169) without looking at its elements, so a list of incomplete objects is
  returned and fails only later, when a record's `url` is read for playing. That case is not
  represented.
- `Text.IsSpace` models `str.isspace` by its fixed list of Unicode whitespace code points.

## Findings

| source | as written | input that shows it | evidently intended | confidence | as-written member | corrected member |
|---|---|---|---|---|---|---|
| shuffle.py:1135 | The display refresh after a metadata merge tests `current_position == video_index`. This compares the history cursor with a catalog index. | History `[3]` with the cursor at 0, metadata merged into record 3: the displayed record changed, but no refresh is scheduled. With history `[5, 0]` at cursor 0, a merge into record 0 refreshes although record 5 is shown. | Refresh when the entry under the cursor is the merged index: `playlist_history[current_position] == video_index` | high; not executed | `Player.RefreshAsWrittenMisses` | `Player.RefreshExactlyWhenDisplayedChanges` |
