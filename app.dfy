/** The page's state: one `localStorage` slot, under the key
    'baby_log_entries_v1', holding the whole log as one JSON text, and the
    operations the buttons run on it. Every operation reads the whole log
    from the slot and, if it changes it, writes the whole log back. */
module App {
  import opened Log
  import Display

  datatype Option<T> = None | Some(value: T)

  /** What `JSON.parse` makes of a non-empty stored text: a list of entries,
      or a syntax error (the exception `loadLog` catches). */
  datatype ParseOutcome = Parsed(entries: seq<Entry>) | SyntaxError

  /** A stored text, known only by what matters to `loadLog`: whether it is
      the empty string (which JavaScript treats as false), and otherwise
      what parsing it gives. */
  datatype Blob = EmptyText | Text(parse: ParseOutcome)

  /** What `loadLog` returns for the slot's content: the parsed list, and the
      empty list when nothing is stored, when the empty string is stored, or
      when the text does not parse. */
  function Loaded(slot: Option<Blob>): seq<Entry> {
    match slot
    case Some(Text(Parsed(entries))) => entries
    case _ => []
  }

  /** The slot after `loadLog`: a text that does not parse is removed;
      anything else is left alone. */
  function AfterLoad(slot: Option<Blob>): Option<Blob> {
    if slot == Some(Text(SyntaxError)) then None else slot
  }

  /** The slot after `saveLog(entries)`: the JSON text of the list, which
      parses back to that list. */
  function Saved(entries: seq<Entry>): Option<Blob> {
    Some(Text(Parsed(entries)))
  }

  /** After `saveLog(e)`, `loadLog` returns `e` and leaves the slot alone. */
  lemma LoadAfterSave(entries: seq<Entry>)
    ensures Loaded(Saved(entries)) == entries
    ensures AfterLoad(Saved(entries)) == Saved(entries)
  {
  }

  /** Corruption never propagates: an empty or unparsable slot reads as the
      empty log, an unparsable one is discarded, and reading again gives the
      same list and leaves the slot as the first read left it. */
  lemma LoadRecovers(slot: Option<Blob>)
    ensures slot == None || slot == Some(EmptyText) ==> Loaded(slot) == [] && AfterLoad(slot) == slot
    ensures slot == Some(Text(SyntaxError)) ==> Loaded(slot) == [] && AfterLoad(slot) == None
    ensures Loaded(AfterLoad(slot)) == Loaded(slot)
    ensures AfterLoad(AfterLoad(slot)) == AfterLoad(slot)
  {
  }

  /** What one call of `render` produces. */
  datatype View = View(items: seq<Display.Item>, feedButton: string)

  class BabyLog {
    /** The content of the storage slot; None when the key is absent. */
    var slot: Option<Blob>

    /** The log as `loadLog` would read it now. */
    function Entries(): seq<Entry>
      reads this
    {
      Loaded(slot)
    }

    constructor (initial: Option<Blob>)
      ensures slot == initial
    {
      slot := initial;
    }

    method LoadLog() returns (entries: seq<Entry>)
      modifies this
      ensures entries == Loaded(old(slot))
      ensures slot == AfterLoad(old(slot))
      ensures Entries() == old(Entries())
    {
      match slot
      case None =>
        entries := [];
      case Some(EmptyText) =>
        entries := [];
      case Some(Text(Parsed(es))) =>
        entries := es;
      case Some(Text(SyntaxError)) =>
        slot := None;
        entries := [];
    }

    method SaveLog(entries: seq<Entry>)
      modifies this
      ensures slot == Saved(entries)
      ensures Entries() == entries
    {
      slot := Saved(entries);
    }

    /** `addEntry(type)`: the log grows by exactly the new entry at its end,
        every earlier entry unchanged; a non-feeding type leaves the feed
        state as it was. */
    method AddEntry(kind: string, now: int)
      modifies this
      ensures Entries() == old(Entries()) + [Entry(kind, now)]
      ensures |Entries()| == |old(Entries())| + 1
      ensures Entries()[..|old(Entries())|] == old(Entries())
      ensures !IsFeedKind(kind) ==> LastFeed(Entries()) == LastFeed(old(Entries()))
      ensures slot == Saved(Entries())
    {
      var entries := LoadLog();
      ghost var before := entries;
      entries := entries + [Entry(kind, now)];
      SaveLog(entries);
      assert entries[..|before|] == before;
      if !IsFeedKind(kind) {
        AppendOtherKeepsState(before, Entry(kind, now));
      }
    }

    /** `lastFeedState()`: the state the stored log is in. Reading may
        discard an unparsable slot, which does not change the log. */
    method LastFeedState() returns (state: FeedState)
      modifies this
      ensures state == LastFeed(old(Entries()))
      ensures slot == AfterLoad(old(slot))
      ensures Entries() == old(Entries())
    {
      var entries := LoadLog();
      state := ScanFeedState(entries);
    }

    /** `toggleFeed()`: appends feed_start when stopped and feed_stop when
        started, so the state afterwards is the opposite one. */
    method ToggleFeed(now: int)
      modifies this
      ensures Entries() == Step(old(Entries()), Toggle(now))
      ensures old(LastFeed(Entries())) == Stopped ==> Entries() == old(Entries()) + [Entry(FeedStart, now)]
      ensures old(LastFeed(Entries())) == Started ==> Entries() == old(Entries()) + [Entry(FeedStop, now)]
      ensures LastFeed(Entries()) == Flip(old(LastFeed(Entries())))
      ensures slot == Saved(Entries())
    {
      var state := LastFeedState();
      if state == Stopped {
        AddEntry(FeedStart, now);
      } else {
        AddEntry(FeedStop, now);
      }
      ToggleFlips(old(Entries()), now);
    }

    /** The clear button, once confirmed: the key is removed, so the log is empty. */
    method ClearLog()
      modifies this
      ensures slot == None
      ensures Entries() == Step(old(Entries()), Clear)
    {
      slot := None;
    }

    /** `render()`: the entries newest first (the stored log is read, not
        reordered) and the feed button's caption for the current state. */
    method Render(now: int) returns (view: View)
      modifies this
      ensures Entries() == old(Entries())
      ensures slot == AfterLoad(old(slot))
      ensures var stored := old(Entries());
              && (stored == [] ==> view.items == [Display.NoEntries])
              && (stored != [] ==> |view.items| == |stored|)
              && (stored != [] ==>
                    forall i :: 0 <= i < |stored| ==> view.items[i] == Display.ItemFor(stored[|stored| - 1 - i], now))
      ensures view.feedButton == Display.FeedButtonLabel(LastFeed(old(Entries())))
    {
      var entries := LoadLog();
      var items := Display.ListItems(entries, now);
      var state := LastFeedState();
      view := View(items, Display.FeedButtonLabel(state));
    }
  }
}
