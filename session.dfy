/** The shuffle session: the catalog, the history with its cursor, the current channel and the
    per-channel saved states, updated in place by the navigation commands. */
module Shuffler {
  import opened Wrappers
  import opened Text
  import opened Records
  import opened History
  import opened StateStore
  import opened Player

  /** Loading `url` while `current` is loaded switches channels. */
  predicate Switching(current: string, url: string)
  {
    current != "" && current != url
  }

  class Session {
    var videos: seq<Video>
    var history: seq<int>
    var position: int
    var currentChannel: string
    var channelStates: map<string, ChannelState>
    var stateFile: StateFile

    function Shuffle(): ShuffleHistory
      reads this
    {
      ShuffleHistory(history, position)
    }

    /** Kept by every operation, whatever the state document held: entries index the catalog
        and the cursor is never past the last entry. */
    ghost predicate Valid()
      reads this
    {
      InRange(history, |videos|) && position < |history|
    }

    /** The full invariant, kept as long as the stored cursors are not below -1. */
    ghost predicate Sound()
      reads this
    {
      WellFormed(Shuffle(), |videos|) && PositionsSound(channelStates)
    }

    constructor (file: StateFile)
      ensures Valid() && (Sound() <==> PositionsSound(LoadStates(file)))
      ensures videos == [] && Shuffle() == Fresh && currentChannel == ""
      ensures channelStates == LoadStates(file) && stateFile == AfterLoad(file)
    {
      videos := [];
      history := [];
      position := -1;
      currentChannel := "";
      channelStates := LoadStates(file);
      stateFile := AfterLoad(file);
    }

    /** Records the current channel's history in the states and, when the write succeeds,
        replaces the state document with them. */
    method SaveStates(now: string, writeOk: bool)
      modifies this`channelStates, this`stateFile
      ensures channelStates == Save(old(channelStates), currentChannel, Shuffle(), now)
      ensures stateFile == if currentChannel != "" && writeOk then Document(channelStates) else old(stateFile)
    {
      if currentChannel == "" {
        return;
      }
      channelStates := channelStates[currentChannel := ChannelState(Some(history), Some(position), now)];
      if writeOk {
        stateFile := Document(channelStates);
      }
    }

    /** "Next"; `r` is the random draw, used only at the tip. */
    method NextVideo(r: int, playerReady: bool, now: string, writeOk: bool) returns (play: Option<PlayOutcome>)
      requires |videos| > 0 ==> 0 <= r < |videos|
      requires Valid()
      modifies this`history, this`position, this`channelStates, this`stateFile
      ensures Valid() && (old(Sound()) ==> Sound())
      ensures videos == [] ==>
                play == None && Shuffle() == old(Shuffle()) &&
                channelStates == old(channelStates) && stateFile == old(stateFile)
      ensures videos != [] ==>
                Shuffle() == Next(old(Shuffle()), |videos|, r) &&
                play == Some(PlayCommand(history, position, videos, playerReady)) &&
                channelStates == Save(old(channelStates), currentChannel, Shuffle(), now) &&
                stateFile == if currentChannel != "" && writeOk then Document(channelStates) else old(stateFile)
    {
      if videos == [] {
        return None;
      }
      if position < |history| - 1 {
        position := position + 1;
      } else {
        history := history + [r];
        position := |history| - 1;
      }
      var outcome := PlayCommand(history, position, videos, playerReady);
      SaveStates(now, writeOk);
      return Some(outcome);
    }

    /** "Previous". */
    method PreviousVideo(playerReady: bool, now: string, writeOk: bool) returns (play: Option<PlayOutcome>)
      requires Valid()
      modifies this`position, this`channelStates, this`stateFile
      ensures Valid() && (old(Sound()) ==> Sound())
      ensures old(position) <= 0 ==>
                play == None && position == old(position) &&
                channelStates == old(channelStates) && stateFile == old(stateFile)
      ensures old(position) > 0 ==>
                Shuffle() == Previous(old(Shuffle())) &&
                play == Some(PlayCommand(history, position, videos, playerReady)) &&
                channelStates == Save(old(channelStates), currentChannel, Shuffle(), now) &&
                stateFile == if currentChannel != "" && writeOk then Document(channelStates) else old(stateFile)
    {
      if position > 0 {
        position := position - 1;
        var outcome := PlayCommand(history, position, videos, playerReady);
        SaveStates(now, writeOk);
        return Some(outcome);
      }
      return None;
    }

    /** "New shuffle", once the user has confirmed it. */
    method NewShuffle(confirmed: bool, now: string, writeOk: bool)
      requires Valid()
      modifies this`history, this`position, this`channelStates, this`stateFile
      ensures Valid() && (old(Sound()) ==> Sound())
      ensures !confirmed ==>
                Shuffle() == old(Shuffle()) && channelStates == old(channelStates) && stateFile == old(stateFile)
      ensures confirmed ==>
                Shuffle() == Fresh &&
                channelStates == Save(old(channelStates), currentChannel, Fresh, now) &&
                stateFile == if currentChannel != "" && writeOk then Document(channelStates) else old(stateFile)
    {
      if confirmed {
        history := [];
        position := -1;
        SaveStates(now, writeOk);
      }
    }

    /** Loads the channel typed as `input`; `fetched` is what the catalog fetch returned for it
        (empty after any error). */
    method LoadChannel(input: string, force: bool, fetched: seq<Video>, now: string, writeOk: bool)
      returns (loaded: bool)
      requires Valid()
      modifies this
      ensures Valid() && (old(Sound()) ==> Sound())
      ensures loaded <==> Strip(input) != "" && fetched != []
      // Leaving a channel saves its state first, even when the new one fails to load.
      ensures var url := Strip(input);
              var switching := url != "" && Switching(old(currentChannel), url);
              var kept := if switching then Save(old(channelStates), old(currentChannel), old(Shuffle()), now)
                          else old(channelStates);
              (!loaded ==> videos == old(videos) && Shuffle() == old(Shuffle()) &&
                           currentChannel == old(currentChannel) && channelStates == kept) &&
              (loaded ==> videos == fetched && currentChannel == url &&
                          channelStates == Save(kept, url, Shuffle(), now)) &&
              stateFile == if writeOk && (loaded || switching) then Document(channelStates) else old(stateFile)
      // Saved progress is resumed only for a known channel, without a forced refresh, and not
      // when switching; otherwise the history starts empty.
      ensures loaded ==>
                var url := Strip(input);
                Shuffle() == if url in old(channelStates) && !force && !Switching(old(currentChannel), url)
                             then Restore(old(channelStates)[url], |fetched|)
                             else Fresh
    {
      var url := Strip(input);
      if url == "" {
        return false;
      }
      var switching := Switching(currentChannel, url);
      if switching {
        SaveStates(now, writeOk);
      }
      if fetched == [] {
        return false;
      }
      videos := fetched;
      currentChannel := url;
      var resume := url in channelStates && !force && !switching;
      if resume {
        var state := channelStates[url];
        history := state.history.GetOr([]);
        position := state.position.GetOr(-1);
        history := KeepInRange(history, |videos|);
        if position >= |history| {
          position := |history| - 1;
        }
      } else {
        history := [];
        position := -1;
      }
      SaveStates(now, writeOk);
      return true;
    }

    /** Applies the result of a metadata refresh for the record at `index`. Returns whether the
        display must be refreshed and the catalog to write back to the current channel's cache. */
    method MergeMetadata(index: nat, info: Option<VideoInfo>) returns (refresh: bool, cacheWrite: Option<seq<Video>>)
      requires Valid()
      modifies this`videos
      ensures Valid()
      ensures var merged := index < |old(videos)| && info.Some?;
              videos == (if merged then old(videos)[index := Merge(old(videos)[index], MetadataOf(info.value))]
                         else old(videos)) &&
              (refresh <==> merged && ShowsRecord(history, position, index)) &&
              cacheWrite == if merged && currentChannel != "" then Some(videos) else None
    {
      refresh, cacheWrite := false, None;
      if index >= |videos| {
        return;
      }
      if info.Some? {
        var metadata := MetadataOf(info.value);
        videos := videos[index := Merge(videos[index], metadata)];
        refresh := ShowsRecord(history, position, index);
        if currentChannel != "" {
          cacheWrite := Some(videos);
        }
      }
    }
  }
}
