/** Per-channel progress and the state document it is persisted in. */
module StateStore {
  import opened Wrappers
  import opened History

  /** One channel's saved progress; `None` where a key of the stored object is absent. */
  datatype ChannelState = ChannelState(history: Option<seq<int>>, position: Option<int>, lastUsed: string)

  /** The state document on disk. */
  datatype StateFile = NoFile | Unparsable | NotAnObject | Document(states: map<string, ChannelState>)

  /** The states read at start-up: the document's map, or no states at all. */
  function LoadStates(f: StateFile): (m: map<string, ChannelState>)
    ensures f.Document? ==> m == f.states
    ensures !f.Document? ==> m == map[]
  {
    if f.Document? then f.states else map[]
  }

  /** The state document after loading: an unparsable one is moved aside to a backup. */
  function AfterLoad(f: StateFile): StateFile
  {
    if f == Unparsable then NoFile else f
  }

  /** Every stored cursor that is present is at least -1. */
  predicate PositionsSound(states: map<string, ChannelState>)
  {
    forall c :: c in states && states[c].position.Some? ==> states[c].position.value >= -1
  }

  /** Saving: the current channel's entry is overwritten with the history, and no other entry
      changes. With no current channel nothing is saved. */
  function Save(states: map<string, ChannelState>, channel: string, h: ShuffleHistory, now: string)
    : (r: map<string, ChannelState>)
    ensures channel == "" ==> r == states
    ensures channel != "" ==> channel in r && r[channel] == ChannelState(Some(h.entries), Some(h.position), now)
    ensures forall c :: c != channel ==> (c in r <==> c in states)
    ensures forall c :: c != channel && c in states ==> r[c] == states[c]
    ensures PositionsSound(states) && h.position >= -1 ==> PositionsSound(r)
  {
    if channel == "" then states
    else states[channel := ChannelState(Some(h.entries), Some(h.position), now)]
  }

  /** The history a stored state resumes to against a catalog of `n` records. */
  function Restore(s: ChannelState, n: nat): (h: ShuffleHistory)
    ensures s.position.GetOr(-1) >= -1 ==> WellFormed(h, n)
  {
    Reconcile(ShuffleHistory(s.history.GetOr([]), s.position.GetOr(-1)), n)
  }

  /** Saving a well-formed history and resuming it against the same catalog gives it back. */
  lemma SaveRestoreRoundTrip(states: map<string, ChannelState>, channel: string, h: ShuffleHistory,
                             now: string, n: nat)
    requires channel != "" && WellFormed(h, n)
    ensures Restore(Save(states, channel, h, now)[channel], n) == h
  {
    ReconcileIdentity(h, n);
  }

  /** Resuming against a smaller catalog keeps just the entries still in range. */
  lemma RestoreShrunk(states: map<string, ChannelState>, channel: string, h: ShuffleHistory,
                      now: string, n: nat)
    requires channel != "" && h.position >= -1
    ensures Restore(Save(states, channel, h, now)[channel], n).entries == KeepInRange(h.entries, n)
    ensures WellFormed(Restore(Save(states, channel, h, now)[channel], n), n)
  {
  }
}
