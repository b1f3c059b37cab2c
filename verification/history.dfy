/** The history list the screen keeps in `localStorage` under the key
    'imageHistory': adding new generations, writing the list back with
    back-off under quota pressure, reading it at start-up, and the filtered
    view shown beneath the form. */
module History {
  import opened Optional
  import opened Types
  import opened Seqs

  /** At most this many entries are retained. */
  const MaxHistory: nat := 20

  /** The list only ever holds at most `MaxHistory` entries. */
  predicate Capped(h: seq<HistoryItem>) {
    |h| <= MaxHistory
  }

  // ---------------------------------------------------------------------
  // Adding new generations
  // ---------------------------------------------------------------------

  /** `[...newItems, ...history].slice(0, 20)`: the new items go in front,
      in the order the service returned them, followed by the previous
      entries, and everything past the cap is cut off. */
  function AddToHistory(newItems: seq<HistoryItem>, history: seq<HistoryItem>): (r: seq<HistoryItem>)
    ensures Capped(r)
    ensures |r| == Min(MaxHistory, |newItems| + |history|)
    ensures forall i :: 0 <= i < |newItems| && i < |r| ==> r[i] == newItems[i]
    ensures forall j :: 0 <= j < |history| && |newItems| + j < |r| ==> r[|newItems| + j] == history[j]
  {
    var all := newItems + history;
    if |all| <= MaxHistory then all else all[..MaxHistory]
  }

  /** Two successive additions are one addition of both batches, newest
      batch first: nothing from the first batch that the cap keeps is
      lost or reordered by the second. */
  lemma AddToHistoryTwice(a: seq<HistoryItem>, b: seq<HistoryItem>, history: seq<HistoryItem>)
    ensures AddToHistory(a, AddToHistory(b, history)) == AddToHistory(a + b, history)
  {
    var lhs := AddToHistory(a, AddToHistory(b, history));
    var rhs := AddToHistory(a + b, history);
    assert |lhs| == |rhs|;
    forall i | 0 <= i < |lhs|
      ensures lhs[i] == rhs[i]
    {
      if i < |a| {
        assert lhs[i] == a[i];
      } else if i < |a| + |b| {
        assert lhs[i] == AddToHistory(b, history)[i - |a|];
      } else {
        assert lhs[i] == AddToHistory(b, history)[|b| + (i - |a| - |b|)];
      }
    }
  }

  /** A batch of at least `MaxHistory` new items evicts every previous
      entry. */
  lemma LargeBatchEvictsAll(newItems: seq<HistoryItem>, history: seq<HistoryItem>)
    requires |newItems| >= MaxHistory
    ensures AddToHistory(newItems, history) == newItems[..MaxHistory]
  {
  }

  // ---------------------------------------------------------------------
  // Writing the list back
  // ---------------------------------------------------------------------

  /** What one `localStorage.setItem` of a serialised list does. */
  datatype WriteOutcome = Written | QuotaExceeded | OtherFailure

  /** What a save leaves under the storage key. */
  datatype StorageEffect =
    | Untouched                              // the previous value stays
    | Stored(items: seq<HistoryItem>)        // this list was written
    | Removed                                // the key was removed

  /** The in-memory history after a save, and what was persisted. */
  datatype SaveResult = SaveResult(history: seq<HistoryItem>, storage: StorageEffect)

  /** `k` is the least positive number of leading entries whose removal
      lets the write through: `h[k..]` is the first list the retry loop
      manages to store. */
  ghost predicate FirstWritableSuffix(h: seq<HistoryItem>, write: seq<HistoryItem> -> WriteOutcome, k: int) {
    && 1 <= k < |h|
    && write(h[k..]) == Written
    && forall j :: 1 <= j < k ==> write(h[j..]) != Written
  }

  /** `saveHistory` as written. `write` stands for `localStorage.setItem`
      of the serialised list: storage is left unchanged by a failed write,
      so its outcome depends only on the list offered. A first write that
      fails on quota drops entry 0 (the most recent one) and retries, and
      any failure of a retry drops the next entry, until a write succeeds
      or nothing is left; then the key is removed and the history
      emptied. Any other failure of the first write leaves both alone. */
  method SaveHistory(newHistory: seq<HistoryItem>, write: seq<HistoryItem> -> WriteOutcome)
    returns (r: SaveResult)
    ensures write(newHistory) == Written ==> r == SaveResult(newHistory, Stored(newHistory))
    ensures write(newHistory) == OtherFailure ==> r == SaveResult(newHistory, Untouched)
    ensures write(newHistory) == QuotaExceeded ==>
      || (exists k :: FirstWritableSuffix(newHistory, write, k)
                      && r == SaveResult(newHistory[k..], Stored(newHistory[k..])))
      || (&& (forall k :: 1 <= k < |newHistory| ==> write(newHistory[k..]) != Written)
          && r == SaveResult([], Removed))
  {
    var outcome := write(newHistory);
    if outcome == Written {
      return SaveResult(newHistory, Stored(newHistory));
    } else if outcome == OtherFailure {
      return SaveResult(newHistory, Untouched);
    }
    // `slice(1)` of an empty list is the empty list.
    var k := if |newHistory| == 0 then 0 else 1;
    var pruned := newHistory[k..];
    while |pruned| > 0
      invariant 0 <= k <= |newHistory|
      invariant |newHistory| > 0 ==> 1 <= k
      invariant pruned == newHistory[k..]
      invariant forall j :: 1 <= j < k ==> write(newHistory[j..]) != Written
      decreases |pruned|
    {
      if write(pruned) == Written {
        assert FirstWritableSuffix(newHistory, write, k);
        return SaveResult(pruned, Stored(pruned));
      }
      pruned := pruned[1..];
      k := k + 1;
    }
    return SaveResult([], Removed);
  }

  /** A concrete run of the loop as written: two entries, where storage has
      room for one. The entry that survives is `older`, the one that was
      already there; the generation just added is the one discarded. */
  method SaveHistoryDropsNewest(newer: HistoryItem, older: HistoryItem) returns (r: SaveResult)
    ensures r.history == [older]
  {
    var write := (l: seq<HistoryItem>) => if |l| <= 1 then Written else QuotaExceeded;
    r := SaveHistory([newer, older], write);
    assert [newer, older][1..] == [older];
  }

  /** `n` is the greatest proper length to which the list can be cut from
      the end and still be written: `h[..n]` is the first list a loop that
      evicts the oldest entry first manages to store. */
  ghost predicate FirstWritablePrefix(h: seq<HistoryItem>, write: seq<HistoryItem> -> WriteOutcome, n: int) {
    && 0 < n < |h|
    && write(h[..n]) == Written
    && forall m :: n < m < |h| ==> write(h[..m]) != Written
  }

  /** The retry loop as its comment describes it: each retry drops the
      oldest entry, the last one of the list. Whatever it stores is then a
      prefix of the list, so the most recent generations are kept. */
  method SaveHistoryOldestFirst(newHistory: seq<HistoryItem>, write: seq<HistoryItem> -> WriteOutcome)
    returns (r: SaveResult)
    ensures write(newHistory) == Written ==> r == SaveResult(newHistory, Stored(newHistory))
    ensures write(newHistory) == OtherFailure ==> r == SaveResult(newHistory, Untouched)
    ensures write(newHistory) == QuotaExceeded ==>
      || (exists n :: FirstWritablePrefix(newHistory, write, n)
                      && r == SaveResult(newHistory[..n], Stored(newHistory[..n])))
      || (&& (forall n :: 0 < n < |newHistory| ==> write(newHistory[..n]) != Written)
          && r == SaveResult([], Removed))
    ensures |r.history| <= |newHistory| && r.history == newHistory[..|r.history|]
  {
    var outcome := write(newHistory);
    if outcome == Written {
      return SaveResult(newHistory, Stored(newHistory));
    } else if outcome == OtherFailure {
      return SaveResult(newHistory, Untouched);
    }
    var n := if |newHistory| == 0 then 0 else |newHistory| - 1;
    var pruned := newHistory[..n];
    while |pruned| > 0
      invariant 0 <= n <= |newHistory|
      invariant |newHistory| > 0 ==> n < |newHistory|
      invariant pruned == newHistory[..n]
      invariant forall m :: n < m < |newHistory| ==> write(newHistory[..m]) != Written
      decreases |pruned|
    {
      if write(pruned) == Written {
        assert FirstWritablePrefix(newHistory, write, n);
        return SaveResult(pruned, Stored(pruned));
      }
      n := n - 1;
      pruned := newHistory[..n];
    }
    return SaveResult([], Removed);
  }

  /** The same two-entry run with the corrected loop keeps `newer`. */
  method SaveHistoryOldestFirstKeepsNewest(newer: HistoryItem, older: HistoryItem) returns (r: SaveResult)
    ensures r.history == [newer]
  {
    var write := (l: seq<HistoryItem>) => if |l| <= 1 then Written else QuotaExceeded;
    r := SaveHistoryOldestFirst([newer, older], write);
    assert [newer, older][..1] == [newer];
  }

  // ---------------------------------------------------------------------
  // Reading the list at start-up
  // ---------------------------------------------------------------------

  /** What reading and parsing the key yields. `NothingStored` covers both
      a missing key and an empty string (which is falsy); `Unparsable` is a
      value `JSON.parse` throws on. */
  datatype StoredHistory =
    | NothingStored
    | Unparsable
    | NotAnArray
    | StoredArray(items: seq<HistoryItem>)

  /** The model an entry from the older schema is given. */
  function ModelForQuality(q: Quality): Model {
    if q == High then Imagen else Gemini
  }

  /** Backward compatibility for one entry: an entry with a quality and no
      model gets a model; every other entry is returned as it is. */
  function Migrate(item: HistoryItem): HistoryItem {
    if item.quality.Some? && item.model.None? then
      item.(model := Some(ModelForQuality(item.quality.value)))
    else item
  }

  /** All fields except `model` agree. */
  predicate SameButModel(a: HistoryItem, b: HistoryItem) {
    a.(model := None) == b.(model := None)
  }

  /** The initial value of the history state. */
  function LoadHistory(stored: StoredHistory): (r: seq<HistoryItem>)
    ensures !stored.StoredArray? ==> r == []
    ensures stored.StoredArray? ==> |r| == |stored.items|
    ensures stored.StoredArray? ==> forall i :: 0 <= i < |r| ==>
      var item := stored.items[i];
      && SameButModel(r[i], item)
      && (item.model.Some? ==> r[i] == item)
      && (item.quality.None? ==> r[i] == item)
      && (item.quality == Some(High) && item.model.None? ==> r[i].model == Some(Imagen))
      && (item.quality == Some(Standard) && item.model.None? ==> r[i].model == Some(Gemini))
  {
    match stored
    case StoredArray(items) => seq(|items|, i requires 0 <= i < |items| => Migrate(items[i]))
    case _ => []
  }

  /** After loading, every entry that has a quality also has a model, so
      loading the loaded list again changes nothing. */
  lemma LoadHistoryIdempotent(stored: StoredHistory)
    ensures forall i :: 0 <= i < |LoadHistory(stored)| ==>
      LoadHistory(stored)[i].quality.Some? ==> LoadHistory(stored)[i].model.Some?
    ensures LoadHistory(StoredArray(LoadHistory(stored))) == LoadHistory(stored)
  {
  }

  /** Entries written by this version always carry a model, so a saved list
      of them reads back unchanged. */
  lemma LoadRestoresCurrentEntries(items: seq<HistoryItem>)
    requires forall i :: 0 <= i < |items| ==> items[i].model.Some?
    ensures LoadHistory(StoredArray(items)) == items
  {
  }

  // ---------------------------------------------------------------------
  // The filtered view
  // ---------------------------------------------------------------------

  /** The three date windows of the filter bar. */
  datatype DateWindow = AllTime | Today | Week

  /** Seven days, in milliseconds. */
  const WeekMillis: int := 7 * 24 * 60 * 60 * 1000

  /** The date test. `now` is the current instant and `midnight` the start
      of the current local day, both in milliseconds. */
  predicate InWindow(timestamp: Option<int>, window: DateWindow, now: int, midnight: int) {
    match window
    case AllTime => true
    case Today => timestamp.Some? && timestamp.value >= midnight
    case Week => timestamp.Some? && timestamp.value >= now - WeekMillis
  }

  /** The keyword test followed by the date test. `lower` is
      `toLowerCase`. */
  predicate Matches(item: HistoryItem, keyword: string, window: DateWindow, now: int, midnight: int,
                    lower: string -> string) {
    Includes(lower(item.prompt), lower(keyword)) && InWindow(item.timestamp, window, now, midnight)
  }

  /** `filteredHistory`: the entries whose lower-cased prompt contains the
      lower-cased keyword and whose timestamp lies in the window, in
      history order. */
  function FilterHistory(history: seq<HistoryItem>, keyword: string, window: DateWindow,
                         now: int, midnight: int, lower: string -> string): (r: seq<HistoryItem>)
    ensures IsSubseq(r, history)
    ensures forall i :: 0 <= i < |r| ==> Occurs(lower(keyword), lower(r[i].prompt))
    ensures window == Today ==> forall i :: 0 <= i < |r| ==>
      r[i].timestamp.Some? && r[i].timestamp.value >= midnight
    ensures window == Week ==> forall i :: 0 <= i < |r| ==>
      r[i].timestamp.Some? && r[i].timestamp.value >= now - WeekMillis
    ensures forall x :: x in r ==> x in history
    ensures forall x :: x in history ==>
      (x in r <==> Occurs(lower(keyword), lower(x.prompt)) && InWindow(x.timestamp, window, now, midnight))
    ensures forall x :: x in history ==>
      multiset(r)[x] == if Matches(x, keyword, window, now, midnight, lower) then multiset(history)[x] else 0
  {
    Filter(history, item => Matches(item, keyword, window, now, midnight, lower))
  }

  /** With a keyword that lower-cases to the empty string and no date
      window, the whole history is shown. */
  lemma FilterWithoutCriteriaShowsAll(history: seq<HistoryItem>, keyword: string, now: int, midnight: int,
                                      lower: string -> string)
    requires lower(keyword) == []
    ensures FilterHistory(history, keyword, AllTime, now, midnight, lower) == history
  {
    var p := item => Matches(item, keyword, AllTime, now, midnight, lower);
    forall i | 0 <= i < |history|
      ensures p(history[i])
    {
      assert OccursAt(lower(keyword), lower(history[i].prompt), 0);
    }
    FilterKeepsAll(history, p);
  }
}
