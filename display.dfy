/** What `render` shows, computed from the stored log: one list item per
    entry, newest first, each with the entry's display label, its timestamp
    and its relative age; a placeholder item for an empty log; and the feed
    button's caption. The stored log itself is only read. */
module Display {
  import opened Log
  import RelativeTime

  /** The `switch` on the entry type: the five known types get fixed
      captions, any other type is shown as it is. */
  function KindLabel(kind: string): string {
    if kind == Pee then "Pee"
    else if kind == Poop then "Poop"
    else if kind == Both then "Both"
    else if kind == FeedStart then "Feeding — Start"
    else if kind == FeedStop then "Feeding — Stop"
    else kind
  }

  /** The caption table for the known types. */
  const KnownLabels: map<string, string> :=
    map[Pee := "Pee", Poop := "Poop", Both := "Both",
        FeedStart := "Feeding — Start", FeedStop := "Feeding — Stop"]

  /** The switch agrees with the caption table, passes every other type
      through unchanged, and never shows a known type under its raw name. */
  lemma KindLabelByTable(kind: string)
    ensures kind in KnownLabels ==> KindLabel(kind) == KnownLabels[kind] && KindLabel(kind) != kind
    ensures kind !in KnownLabels ==> KindLabel(kind) == kind
    ensures IsFeedKind(kind) ==> KindLabel(kind)[..10] == "Feeding — "
  {
  }

  /** The list in reverse order, as `slice().reverse()` gives it. */
  function Reversed<T>(s: seq<T>): (r: seq<T>)
    ensures |r| == |s|
    decreases |s|
  {
    if s == [] then [] else [s[|s| - 1]] + Reversed(s[..|s| - 1])
  }

  lemma {:induction false} ReversedAt<T>(s: seq<T>, k: int)
    requires 0 <= k < |s|
    ensures |Reversed(s)| == |s|
    ensures Reversed(s)[k] == s[|s| - 1 - k]
    decreases |s|
  {
    if k > 0 {
      ReversedAt(s[..|s| - 1], k - 1);
    } else if |s| > 1 {
      ReversedAt(s[..|s| - 1], 0);
    }
  }

  /** Reversing twice gives the list back. */
  lemma ReversedTwice<T>(s: seq<T>)
    ensures Reversed(Reversed(s)) == s
  {
    forall k | 0 <= k < |s| ensures Reversed(Reversed(s))[k] == s[k] {
      ReversedAt(Reversed(s), k);
      ReversedAt(s, |s| - 1 - k);
    }
  }

  /** One row of the list. `ts` stands for the formatted timestamp in the
      row's meta line; the row's age is shown as `RelativeTime.ShowAge(age)`,
      a text that determines the age (RelativeTime.ShowAgeDetermines). */
  datatype Item = NoEntries | Row(caption: string, ts: int, age: RelativeTime.Age)

  function ItemFor(e: Entry, now: int): Item {
    Row(KindLabel(e.kind), e.ts, RelativeTime.RelativeAge(now, e.ts))
  }

  /** The age a row keeps prints as `relativeLabel` of the entry's timestamp. */
  lemma ItemShowsRelativeLabel(e: Entry, now: int)
    ensures ItemFor(e, now).Row?
    ensures RelativeTime.ShowAge(ItemFor(e, now).age) == RelativeTime.RelativeLabel(now, e.ts)
    ensures ItemFor(e, now).caption == KindLabel(e.kind) && ItemFor(e, now).ts == e.ts
  {
  }

  /** The list built by `render`: the placeholder for an empty log, otherwise
      one row per stored entry, the i-th row showing the i-th newest entry. */
  method ListItems(stored: seq<Entry>, now: int) returns (items: seq<Item>)
    ensures stored == [] ==> items == [NoEntries]
    ensures stored != [] ==> |items| == |stored|
    ensures stored != [] ==> forall i :: 0 <= i < |stored| ==> items[i] == ItemFor(stored[|stored| - 1 - i], now)
  {
    var shown := Reversed(stored);
    if |shown| == 0 {
      items := [NoEntries];
    } else {
      items := [];
      for j := 0 to |shown|
        invariant |items| == j
        invariant forall k :: 0 <= k < j ==> items[k] == ItemFor(stored[|stored| - 1 - k], now)
      {
        ReversedAt(stored, j);
        items := items + [ItemFor(shown[j], now)];
      }
    }
  }

  predicate Chronological(entries: seq<Entry>) {
    forall i, j :: 0 <= i < j < |entries| ==> entries[i].ts <= entries[j].ts
  }

  /** A log kept in order of time (as appending with a clock that does not
      run backwards keeps it) is shown newest first. */
  lemma NewestFirst(entries: seq<Entry>)
    requires Chronological(entries)
    ensures var shown := Reversed(entries);
            |shown| == |entries| &&
            forall i, j :: 0 <= i < j < |shown| ==> shown[i].ts >= shown[j].ts
  {
    var shown := Reversed(entries);
    forall i, j | 0 <= i < j < |shown| ensures shown[i].ts >= shown[j].ts {
      ReversedAt(entries, i);
      ReversedAt(entries, j);
    }
  }

  /** Appending an entry no older than the last one keeps the log in order of time. */
  lemma AppendKeepsChronological(entries: seq<Entry>, e: Entry)
    requires Chronological(entries)
    requires entries != [] ==> entries[|entries| - 1].ts <= e.ts
    ensures Chronological(entries + [e])
  {
  }

  /** The feed button's caption in each state. */
  function FeedButtonLabel(s: FeedState): string {
    if s == Stopped then "Start Feed" else "Stop Feed"
  }

  /** The caption names the event the button appends next: "Start Feed"
      exactly when pressing it logs a feed_start. */
  lemma FeedButtonNamesToggle(s: FeedState)
    ensures FeedButtonLabel(s) == "Start Feed" <==> ToggleKind(s) == FeedStart
    ensures FeedButtonLabel(s) == "Stop Feed" <==> ToggleKind(s) == FeedStop
  {
  }
}
