/** What reaches the player: the load command issued for the record under the cursor, and
    which records the display shows. */
module Player {
  import opened Wrappers
  import opened Records
  import opened History

  /** Python's `s[i]`: negative indices count from the end; `None` is an `IndexError`. */
  function PyAt<T>(s: seq<T>, i: int): (r: Option<T>)
    ensures r.Some? <==> -|s| <= i < |s|
    ensures 0 <= i < |s| ==> r == Some(s[i])
    ensures -|s| <= i < 0 ==> r == Some(s[|s| + i])
  {
    if 0 <= i < |s| then Some(s[i])
    else if -|s| <= i < 0 then Some(s[|s| + i])
    else None
  }

  /** How playing the current record ends. `BadIndex` is the logged out-of-range check,
      `IndexFailure` an `IndexError` reported in an error dialog. */
  datatype PlayOutcome =
    | Load(command: seq<string>, index: int)
    | NothingToPlay
    | PlayerUnavailable
    | BadIndex
    | IndexFailure

  /** The play guard. `playerReady` says whether the player answers on its socket, either at
      once or after being launched. */
  function PlayCommand(history: seq<int>, position: int, videos: seq<Video>, playerReady: bool)
    : (r: PlayOutcome)
    ensures r.Load? <==> 0 <= position < |history| && playerReady && -|videos| <= history[position] < |videos|
    ensures r.Load? ==> r.index == history[position] &&
                        r.command == ["loadfile", PyAt(videos, history[position]).value.url, "replace"]
    ensures r == NothingToPlay <==> history == [] || position < 0
  {
    if history == [] || position < 0 then NothingToPlay
    else if !playerReady then PlayerUnavailable
    else match PyAt(history, position)
      case None => IndexFailure
      case Some(index) =>
        if index >= |videos| then BadIndex
        else match PyAt(videos, index)
          case None => IndexFailure
          case Some(v) => Load(["loadfile", v.url, "replace"], index)
  }

  /** On a well-formed history the guard plays exactly when the cursor is on an entry and the
      player is up, and it loads that entry's record. */
  lemma PlayWellFormed(h: ShuffleHistory, videos: seq<Video>, playerReady: bool)
    requires WellFormed(h, |videos|)
    ensures var r := PlayCommand(h.entries, h.position, videos, playerReady);
            (r.Load? <==> h.position >= 0 && playerReady) &&
            (r.Load? ==> r.command == ["loadfile", videos[h.entries[h.position]].url, "replace"]) &&
            (r.Load? || r == NothingToPlay || r == PlayerUnavailable)
  {
  }

  /** The record the display shows, if any. */
  function DisplayedVideo(history: seq<int>, position: int, videos: seq<Video>): (r: Option<Video>)
    ensures r.Some? <==> 0 <= position < |history| && -|videos| <= history[position] < |videos|
    ensures r.Some? ==> r == PyAt(videos, history[position])
  {
    if history == [] || position < 0 || position >= |history| then None
    else if history[position] >= |videos| then None
    else PyAt(videos, history[position])
  }

  /** The refresh test as the source writes it: the cursor compared with a catalog index. */
  predicate RefreshAsWritten(position: int, index: int)
  {
    position == index
  }

  /** The refresh test as intended: the record under the cursor is the one that was updated. */
  predicate ShowsRecord(history: seq<int>, position: int, index: int)
  {
    0 <= position < |history| && history[position] == index
  }

  /** The written test misses the record on display: a history [3] with the cursor on it. */
  lemma RefreshAsWrittenMisses()
    ensures ShowsRecord([3], 0, 3) && !RefreshAsWritten(0, 3)
    ensures RefreshAsWritten(0, 0) && !ShowsRecord([5, 0], 0, 0)
  {
  }

  /** With the intended test a metadata merge changes what is displayed only when a refresh is
      asked for, and when one is asked for the display shows the merged record. */
  lemma RefreshExactlyWhenDisplayedChanges(history: seq<int>, position: int, videos: seq<Video>,
                                           index: nat, m: Metadata)
    requires InRange(history, |videos|) && index < |videos|
    ensures (DisplayedVideo(history, position, videos[index := Merge(videos[index], m)])
               != DisplayedVideo(history, position, videos)) ==> ShowsRecord(history, position, index)
    ensures ShowsRecord(history, position, index) ==>
              DisplayedVideo(history, position, videos[index := Merge(videos[index], m)])
                == Some(Merge(videos[index], m))
  {
  }
}
