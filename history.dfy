/** The navigable shuffle history: catalog indices already chosen and a cursor into them. */
module History {
  import opened Seqs

  datatype ShuffleHistory = ShuffleHistory(entries: seq<int>, position: int)

  /** The history of a new shuffle. */
  const Fresh := ShuffleHistory([], -1)

  /** Every entry is an index into a catalog of `n` records. */
  predicate InRange(entries: seq<int>, n: nat)
  {
    forall i :: 0 <= i < |entries| ==> 0 <= entries[i] < n
  }

  /** The invariant: entries index the catalog and the cursor is -1 or on an entry. */
  predicate WellFormed(h: ShuffleHistory, n: nat)
  {
    InRange(h.entries, n) && -1 <= h.position < |h.entries|
  }

  /** "Next": with an empty catalog nothing happens; before the tip the cursor replays the
      following entry; at the tip the draw `r` is appended and the cursor moves onto it. */
  function Next(h: ShuffleHistory, n: nat, r: int): (h': ShuffleHistory)
    requires n > 0 ==> 0 <= r < n
    ensures n == 0 ==> h' == h
    ensures n > 0 && h.position < |h.entries| - 1 ==> h' == h.(position := h.position + 1)
    ensures n > 0 && h.position >= |h.entries| - 1 ==>
              h'.entries == h.entries + [r] && h'.position == |h'.entries| - 1
    // The history only ever grows at its end: nothing is truncated.
    ensures h'.entries[..|h.entries|] == h.entries
  {
    if n == 0 then h
    else if h.position < |h.entries| - 1 then h.(position := h.position + 1)
    else ShuffleHistory(h.entries + [r], |h.entries|)
  }

  /** "Previous": the cursor steps back when it is past the first entry, otherwise nothing. */
  function Previous(h: ShuffleHistory): (h': ShuffleHistory)
    ensures h'.entries == h.entries
    ensures h.position > 0 ==> h'.position == h.position - 1
    ensures h.position <= 0 ==> h' == h
  {
    if h.position > 0 then h.(position := h.position - 1) else h
  }

  /** The entries that still index a catalog of `n` records, in their original order. */
  function KeepInRange(entries: seq<int>, n: nat): (r: seq<int>)
    ensures InRange(r, n)
  {
    Filter(i => 0 <= i < n, entries)
  }

  /** Stored history checked against the catalog it is resumed with: out-of-range entries are
      dropped and the cursor is pulled back to the last entry only when it is past the end. */
  function Reconcile(h: ShuffleHistory, n: nat): (h': ShuffleHistory)
    ensures h'.entries == KeepInRange(h.entries, n)
    ensures h'.position == if h.position >= |h'.entries| then |h'.entries| - 1 else h.position
  {
    var kept := KeepInRange(h.entries, n);
    ShuffleHistory(kept, if h.position >= |kept| then |kept| - 1 else h.position)
  }

  lemma NextPreservesWellFormed(h: ShuffleHistory, n: nat, r: int)
    requires n > 0 ==> 0 <= r < n
    requires WellFormed(h, n)
    ensures WellFormed(Next(h, n, r), n)
  {
  }

  lemma PreviousPreservesWellFormed(h: ShuffleHistory, n: nat)
    requires WellFormed(h, n)
    ensures WellFormed(Previous(h), n)
  {
  }

  /** Stepping back and then forward returns to the same entry whatever the draw. */
  lemma ReplayIsDeterministic(h: ShuffleHistory, n: nat, r: int)
    requires n > 0 && 0 <= r < n
    requires WellFormed(h, n) && h.position > 0
    ensures Next(Previous(h), n, r) == h
  {
  }

  /** `Next` applied once per draw, from a given history. */
  function NextAll(h: ShuffleHistory, n: nat, draws: seq<int>): ShuffleHistory
    requires forall k :: 0 <= k < |draws| ==> 0 <= draws[k] < n
    decreases |draws|
  {
    if draws == [] then h else NextAll(Next(h, n, draws[0]), n, draws[1..])
  }

  /** Any number of "next"s from any well-formed history keeps it well-formed, so every index it
      holds, and every index the cursor lands on, is in the catalog. */
  lemma {:induction false} NextAllWellFormed(h: ShuffleHistory, n: nat, draws: seq<int>)
    requires forall k :: 0 <= k < |draws| ==> 0 <= draws[k] < n
    requires WellFormed(h, n)
    ensures WellFormed(NextAll(h, n, draws), n)
    ensures n > 0 && |draws| > 0 ==> NextAll(h, n, draws).position >= 0
    decreases |draws|
  {
    if draws != [] {
      NextPreservesWellFormed(h, n, draws[0]);
      NextAllWellFormed(Next(h, n, draws[0]), n, draws[1..]);
    }
  }

  /** Reconciling keeps exactly the in-range entries, in order and with repeats. */
  lemma KeepInRangeExact(entries: seq<int>, more: seq<int>, n: nat)
    ensures KeepInRange(entries + more, n) == KeepInRange(entries, n) + KeepInRange(more, n)
    ensures IsSubsequence(KeepInRange(entries, n), entries)
    ensures KeepInRange(entries, n) == entries <==> InRange(entries, n)
    ensures forall i :: 0 <= i < |entries| && 0 <= entries[i] < n ==> entries[i] in KeepInRange(entries, n)
  {
    FilterAppend(i => 0 <= i < n, entries, more);
    FilterIsSubsequence(i => 0 <= i < n, entries);
    FilterKeepsAll(i => 0 <= i < n, entries);
  }

  /** A reconciled history is well-formed whenever its stored cursor was not below -1. */
  lemma ReconcileWellFormed(h: ShuffleHistory, n: nat)
    requires h.position >= -1
    ensures WellFormed(Reconcile(h, n), n)
  {
  }

  /** A well-formed history comes back from reconciliation unchanged. */
  lemma ReconcileIdentity(h: ShuffleHistory, n: nat)
    requires WellFormed(h, n)
    ensures Reconcile(h, n) == h
  {
    KeepInRangeExact(h.entries, [], n);
  }

  /** Entries [2, 4, 1] with the cursor at the tip: two steps back land on 2, one step forward
      replays 4. */
  lemma BackTwiceThenReplay(n: nat, r: int)
    requires n > 4 && 0 <= r < n
    ensures Previous(Previous(ShuffleHistory([2, 4, 1], 2))) == ShuffleHistory([2, 4, 1], 0)
    ensures Next(ShuffleHistory([2, 4, 1], 0), n, r) == ShuffleHistory([2, 4, 1], 1)
  {
  }

  /** Entries [2, 4, 1] with the cursor on 4: "next" replays 1 instead of replacing it with a
      new draw. Forward navigation never branches. */
  lemma NextBeforeTipReplays(n: nat, r: int)
    requires n > 4 && 0 <= r < n
    ensures Next(ShuffleHistory([2, 4, 1], 1), n, r) == ShuffleHistory([2, 4, 1], 2)
  {
  }
}
