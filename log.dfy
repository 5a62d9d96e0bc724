/** The entry log and the feeding state machine it drives.

    The log is an append-only sequence of entries `{type, ts}`. The feed
    button's state is read off the log: the most recent feeding entry decides
    it, every other entry is ignored, and an empty log means "stopped". */
module Log {

  /** One logged event: its type string and its timestamp in epoch milliseconds. */
  datatype Entry = Entry(kind: string, ts: int)

  const Pee: string := "pee"
  const Poop: string := "poop"
  const Both: string := "both"
  const FeedStart: string := "feed_start"
  const FeedStop: string := "feed_stop"

  predicate IsFeedKind(kind: string) {
    kind == FeedStart || kind == FeedStop
  }

  /** The two values `lastFeedState` returns: 'started' and 'stopped'. */
  datatype FeedState = Started | Stopped

  function Flip(s: FeedState): FeedState {
    if s == Started then Stopped else Started
  }

  /** The state the log is in, read backwards from its last entry: the first
      feeding entry met decides, and running off the front gives Stopped. */
  function LastFeed(entries: seq<Entry>): FeedState
    decreases |entries|
  {
    if entries == [] then Stopped
    else if entries[|entries| - 1].kind == FeedStart then Started
    else if entries[|entries| - 1].kind == FeedStop then Stopped
    else LastFeed(entries[..|entries| - 1])
  }

  /** The types of the feeding entries of the log, oldest first: an
      independent description of what the backwards scan looks for. */
  function FeedKinds(entries: seq<Entry>): (fs: seq<string>)
    ensures |fs| <= |entries|
    ensures forall i :: 0 <= i < |fs| ==> IsFeedKind(fs[i])
    decreases |entries|
  {
    if entries == [] then []
    else
      var last := entries[|entries| - 1];
      FeedKinds(entries[..|entries| - 1]) + (if IsFeedKind(last.kind) then [last.kind] else [])
  }

  /** The backwards `for` loop of `lastFeedState`, with its two early returns. */
  method ScanFeedState(entries: seq<Entry>) returns (state: FeedState)
    ensures state == LastFeed(entries)
    ensures state == Started <==> FeedKinds(entries) != [] && FeedKinds(entries)[|FeedKinds(entries)| - 1] == FeedStart
  {
    LastFeedIsLastFeedKind(entries);
    var i: int := |entries| - 1;
    assert entries[..i + 1] == entries;
    while i >= 0
      invariant -1 <= i < |entries|
      invariant LastFeed(entries[..i + 1]) == LastFeed(entries)
      decreases i
    {
      assert entries[..i + 1][..i] == entries[..i];
      if entries[i].kind == FeedStart {
        return Started;
      }
      if entries[i].kind == FeedStop {
        return Stopped;
      }
      i := i - 1;
    }
    return Stopped;
  }

  /** `lastFeedState` is 'started' exactly when the last feeding entry is a
      `feed_start`; with no feeding entry at all (the empty log included) it
      is 'stopped'. */
  lemma {:induction false} LastFeedIsLastFeedKind(entries: seq<Entry>)
    ensures LastFeed(entries) == Started <==>
            FeedKinds(entries) != [] && FeedKinds(entries)[|FeedKinds(entries)| - 1] == FeedStart
    ensures FeedKinds(entries) == [] ==> LastFeed(entries) == Stopped
    decreases |entries|
  {
    if entries != [] && !IsFeedKind(entries[|entries| - 1].kind) {
      LastFeedIsLastFeedKind(entries[..|entries| - 1]);
    }
  }

  /** Appending an entry of any non-feeding type (pee, poop, both, anything
      else) leaves the feed state as it was. */
  lemma AppendOtherKeepsState(entries: seq<Entry>, e: Entry)
    requires !IsFeedKind(e.kind)
    ensures LastFeed(entries + [e]) == LastFeed(entries)
    ensures FeedKinds(entries + [e]) == FeedKinds(entries)
  {
    assert (entries + [e])[..|entries|] == entries;
  }

  /** Appending a feeding entry sets the state to the one that entry names. */
  lemma AppendFeedSetsState(entries: seq<Entry>, e: Entry)
    requires IsFeedKind(e.kind)
    ensures LastFeed(entries + [e]) == (if e.kind == FeedStart then Started else Stopped)
    ensures FeedKinds(entries + [e]) == FeedKinds(entries) + [e.kind]
  {
    assert (entries + [e])[..|entries|] == entries;
  }

  /** The type `toggleFeed` appends in a given state. */
  function ToggleKind(s: FeedState): (kind: string)
    ensures IsFeedKind(kind)
    ensures kind == FeedStart <==> s == Stopped
  {
    if s == Stopped then FeedStart else FeedStop
  }

  /** The user actions that change the log: a diaper button (`addEntry`
      with its type), the feed button (`toggleFeed`) and the clear button. */
  datatype Action = Add(kind: string, at: int) | Toggle(at: int) | Clear

  /** The log after one action, `at` being the clock reading `Date.now()`. */
  function Step(entries: seq<Entry>, a: Action): (r: seq<Entry>)
    ensures a.Clear? ==> r == []
    ensures !a.Clear? ==> |r| == |entries| + 1 && r[..|entries|] == entries
    ensures a.Add? ==> r[|entries|] == Entry(a.kind, a.at)
    ensures a.Toggle? ==> IsFeedKind(r[|entries|].kind) && r[|entries|].ts == a.at
  {
    match a
    case Add(kind, at) => entries + [Entry(kind, at)]
    case Toggle(at) => entries + [Entry(ToggleKind(LastFeed(entries)), at)]
    case Clear => []
  }

  /** The log after a sequence of actions, performed in order. */
  function Run(entries: seq<Entry>, actions: seq<Action>): seq<Entry>
    decreases |actions|
  {
    if actions == [] then entries else Run(Step(entries, actions[0]), actions[1..])
  }

  /** One toggle always appends exactly one entry and flips the state. */
  lemma ToggleFlips(entries: seq<Entry>, at: int)
    ensures Step(entries, Toggle(at)) == entries + [Entry(ToggleKind(LastFeed(entries)), at)]
    ensures LastFeed(Step(entries, Toggle(at))) == Flip(LastFeed(entries))
  {
    AppendFeedSetsState(entries, Entry(ToggleKind(LastFeed(entries)), at));
  }

  /** A sequence of feeding types that goes feed_start, feed_stop,
      feed_start, ... from its first element on. */
  predicate Alternates(fs: seq<string>) {
    forall i :: 0 <= i < |fs| ==> fs[i] == (if i % 2 == 0 then FeedStart else FeedStop)
  }

  /** `Alternates` implies: it begins with feed_start and no two neighbours
      are equal. */
  lemma AlternatesPairwise(fs: seq<string>)
    requires Alternates(fs)
    ensures fs != [] ==> fs[0] == FeedStart
    ensures forall i :: 0 <= i < |fs| - 1 ==> fs[i] != fs[i + 1]
  {
    forall i | 0 <= i < |fs| - 1 ensures fs[i] != fs[i + 1] {
      assert (i % 2 == 0) != ((i + 1) % 2 == 0);
    }
  }

  /** The converse: a sequence of feeding types that begins with feed_start
      and has no two equal neighbours alternates. */
  lemma {:induction false} PairwiseAlternates(fs: seq<string>)
    requires forall i :: 0 <= i < |fs| ==> IsFeedKind(fs[i])
    requires fs != [] ==> fs[0] == FeedStart
    requires forall i :: 0 <= i < |fs| - 1 ==> fs[i] != fs[i + 1]
    ensures Alternates(fs)
    decreases |fs|
  {
    if |fs| > 1 {
      var init := fs[..|fs| - 1];
      assert forall i :: 0 <= i < |init| - 1 ==> init[i] != init[i + 1] by {
        forall i | 0 <= i < |init| - 1 ensures init[i] != init[i + 1] {
          assert init[i] == fs[i] && init[i + 1] == fs[i + 1];
        }
      }
      PairwiseAlternates(init);
      var n := |fs| - 1;
      assert init[n - 1] == fs[n - 1];
      assert fs[n - 1] != fs[n];
      assert (n % 2 == 0) != ((n - 1) % 2 == 0);
      forall i | 0 <= i < |fs| ensures fs[i] == (if i % 2 == 0 then FeedStart else FeedStop) {
        if i < n {
          assert fs[i] == init[i];
        }
      }
    }
  }

  /** On an alternating log the state is Started exactly when the number of
      feeding entries is odd. */
  lemma AlternatingState(entries: seq<Entry>)
    requires Alternates(FeedKinds(entries))
    ensures LastFeed(entries) == Started <==> |FeedKinds(entries)| % 2 == 1
  {
    LastFeedIsLastFeedKind(entries);
  }

  /** Every action a user can take, except adding a feeding type directly,
      keeps the feeding entries alternating. */
  lemma StepKeepsAlternation(entries: seq<Entry>, a: Action)
    requires Alternates(FeedKinds(entries))
    requires a.Add? ==> !IsFeedKind(a.kind)
    ensures Alternates(FeedKinds(Step(entries, a)))
  {
    match a
    case Add(kind, at) =>
      AppendOtherKeepsState(entries, Entry(kind, at));
    case Toggle(at) =>
      var e := Entry(ToggleKind(LastFeed(entries)), at);
      AppendFeedSetsState(entries, e);
      AlternatingState(entries);
      var fs := FeedKinds(entries);
      assert FeedKinds(entries + [e]) == fs + [e.kind];
      assert (fs + [e.kind])[|fs|] == (if |fs| % 2 == 0 then FeedStart else FeedStop);
    case Clear =>
  }

  /** Starting from a log with alternating feeding entries (in particular one
      with none), if feeding entries are only ever added through the feed
      button, the feeding entries keep alternating feed_start, feed_stop, ...
      beginning with feed_start. */
  lemma {:induction false} RunKeepsAlternation(entries: seq<Entry>, actions: seq<Action>)
    requires Alternates(FeedKinds(entries))
    requires forall i :: 0 <= i < |actions| && actions[i].Add? ==> !IsFeedKind(actions[i].kind)
    ensures Alternates(FeedKinds(Run(entries, actions)))
    decreases |actions|
  {
    if actions != [] {
      StepKeepsAlternation(entries, actions[0]);
      RunKeepsAlternation(Step(entries, actions[0]), actions[1..]);
    }
  }

  /** The corollary for the usual start: a log without any feeding entry. */
  lemma FromNoFeedingAlternates(entries: seq<Entry>, actions: seq<Action>)
    requires FeedKinds(entries) == []
    requires forall i :: 0 <= i < |actions| && actions[i].Add? ==> !IsFeedKind(actions[i].kind)
    ensures Alternates(FeedKinds(Run(entries, actions)))
    ensures var fs := FeedKinds(Run(entries, actions));
            fs != [] ==> fs[0] == FeedStart
  {
    RunKeepsAlternation(entries, actions);
    AlternatesPairwise(FeedKinds(Run(entries, actions)));
  }
}
