/**
 The page session both scripts keep: the record queue, plus what the media
 region, the label region and the "Next" button currently show. The two
 scripts differ only in how they lay out the labels of a record, so the
 session is generic in the label view `L` and takes the layout as a
 function `render: Value -> Option<L>`, which gives `None` when laying out
 the record throws.
 */
module Viewer {
  import opened Json
  import opened Media
  import opened RecordQueue
  import opened Wrappers

  datatype MediaRegion =
    | MediaUntouched                 // the page's own markup, before any display
    | MediaCleared                   // emptied by createMediaPlayer just before it threw
    | NoMediaMessage                 // "No media to display."
    | MediaShown(view: MediaView)    // a player, or the unsupported-type message

  /** Why the label region holds the "Error loading labels" text. */
  datatype LoadError =
    | FetchFailed(message: string)   // network error, non-2xx status or malformed body
    | DisplayThrew                   // the first record could not be displayed

  datatype LabelRegion<L> =
    | LabelsUntouched
    | NoLabelsMessage                // "No labels to display."
    | LabelsShown(view: L)
    | LoadErrorShown(error: LoadError)

  datatype Screen<L> = Screen(media: MediaRegion, labels: LabelRegion<L>, nextEnabled: bool)

  datatype Session<L> = Session(queue: Queue<Value>, screen: Screen<L>)

  /** What the fetch of the records document delivers. */
  datatype LoadOutcome = Loaded(records: seq<Value>) | LoadFailed(message: string)

  /** `displayCurrentItem` either runs to its end or throws part-way. */
  datatype Display<L> = Completed(screen: Screen<L>) | Threw(screen: Screen<L>)

  /** The page as loaded: no records, position 0, and the "Next" button disabled. */
  function Init<L>(): (s: Session<L>)
    ensures s.queue.records == [] && s.queue.index == 0
    ensures s.screen.media == MediaUntouched && s.screen.labels == LabelsUntouched
    ensures !s.screen.nextEnabled && Valid(s)
  {
    Session(Queue([], 0), Screen(MediaUntouched, LabelsUntouched, false))
  }

  /** The screen after a successful display: the player for `path` beside the label view. */
  function Showing<L>(path: string, view: L): Screen<L> {
    Screen(MediaShown(CreateMediaPlayer(path)), LabelsShown(view), true)
  }

  /** The record on display has a string `file_path`. */
  predicate Displayable(q: Queue<Value>) {
    q.index < |q.records| && FilePath(q.records[q.index]).Some?
  }

  /** The record on display has a string `file_path` and its labels render. */
  predicate Shows<L>(q: Queue<Value>, render: Value -> Option<L>) {
    Displayable(q) && render(q.records[q.index]).Some?
  }

  /**
   `displayCurrentItem`. With no records it shows the two "no data" messages
   and reads no record. Otherwise it reads `records[index].file_path` and
   hands it to `createMediaPlayer`, which clears the media region and throws
   unless the path is a string. Then it renders the labels, which may throw
   too, and only after both enables "Next".
   */
  function DisplayCurrentItem<L>(q: Queue<Value>, screen: Screen<L>, render: Value -> Option<L>): (d: Display<L>)
    ensures |q.records| == 0 ==>
              d == Completed(Screen(NoMediaMessage, NoLabelsMessage, screen.nextEnabled))
    ensures d.Completed? <==> |q.records| == 0 || Shows(q, render)
    ensures |q.records| > 0 && Shows(q, render) ==>
              d.screen == Showing(FilePath(q.records[q.index]).value, render(q.records[q.index]).value)
    ensures d.Threw? ==> d.screen.labels == screen.labels && d.screen.nextEnabled == screen.nextEnabled
    ensures d.Threw? && Displayable(q) ==>
              d.screen.media == MediaShown(CreateMediaPlayer(FilePath(q.records[q.index]).value))
    ensures d.Threw? && q.index < |q.records| && !Displayable(q) && !q.records[q.index].Null? ==>
              d.screen.media == MediaCleared
    ensures d.Threw? && (q.index >= |q.records| || q.records[q.index].Null?) ==>
              d.screen.media == screen.media
  {
    if |q.records| == 0 then
      Completed(Screen(NoMediaMessage, NoLabelsMessage, screen.nextEnabled))
    else if q.index >= |q.records| then
      // `labels[index]` is undefined, so reading its `file_path` throws
      Threw(screen)
    else
      var record := q.records[q.index];
      match FilePath(record)
      case Some(path) =>
        // the player is built before the labels are rendered
        (match render(record)
         case Some(view) => Completed(Showing(path, view))
         case None => Threw(screen.(media := MediaShown(CreateMediaPlayer(path)))))
      case None =>
        // `null.file_path` throws before createMediaPlayer runs; any other
        // record reaches it, which clears the region and then fails on `.split`
        if record.Null? then Threw(screen) else Threw(screen.(media := MediaCleared))
  }

  /**
   `fetchLabels`. A failed fetch only writes the error into the label region.
   A successful one replaces the record list wholesale (the position is not
   reset) and displays; a display that throws is caught and also reported in
   the label region.
   */
  function Load<L>(s: Session<L>, outcome: LoadOutcome, render: Value -> Option<L>): (r: Session<L>)
    ensures outcome.LoadFailed? ==>
              && r.queue == s.queue
              && r.screen == s.screen.(labels := LoadErrorShown(FetchFailed(outcome.message)))
    ensures outcome.Loaded? ==> r.queue == Queue(outcome.records, s.queue.index)
    ensures outcome.Loaded? ==>
              (r.screen.labels == LoadErrorShown(DisplayThrew) <==> |outcome.records| > 0 && !Shows(r.queue, render))
  {
    match outcome
    case LoadFailed(message) =>
      s.(screen := s.screen.(labels := LoadErrorShown(FetchFailed(message))))
    case Loaded(records) =>
      var q := s.queue.(records := records);
      match DisplayCurrentItem(q, s.screen, render)
      case Completed(screen) => Session(q, screen)
      case Threw(screen) => Session(q, screen.(labels := LoadErrorShown(DisplayThrew)))
  }

  /** The one load the page performs, from its initial state. */
  function Start<L>(outcome: LoadOutcome, render: Value -> Option<L>): (s: Session<L>)
    ensures outcome.LoadFailed? ==>
              s == Session(Queue([], 0), Screen(MediaUntouched, LoadErrorShown(FetchFailed(outcome.message)), false))
    ensures outcome.Loaded? ==> s.queue == Queue(outcome.records, 0)
    ensures outcome.Loaded? && outcome.records == [] ==>
              s.screen == Screen(NoMediaMessage, NoLabelsMessage, false)
    ensures outcome.Loaded? && outcome.records != [] && Shows(Queue(outcome.records, 0), render) ==>
              s.screen == Showing(FilePath(outcome.records[0]).value, render(outcome.records[0]).value)
    ensures outcome.Loaded? && outcome.records != [] && !Shows(Queue(outcome.records, 0), render) ==>
              s.screen.labels == LoadErrorShown(DisplayThrew) && !s.screen.nextEnabled
    ensures outcome.Loaded? && outcome.records != [] && FilePath(outcome.records[0]).Some? ==>
              s.screen.media == MediaShown(CreateMediaPlayer(FilePath(outcome.records[0]).value))
  {
    Load(Init(), outcome, render)
  }

  /**
   `handleNext`: advance round the ring, then display. An exception from the
   display is not caught here, so whatever it had already changed stays.
   */
  function Next<L>(s: Session<L>, render: Value -> Option<L>): (r: Session<L>)
    requires |s.queue.records| > 0
    ensures r.queue == Advance(s.queue)
    ensures r.queue.records == s.queue.records
    ensures Shows(r.queue, render) ==>
              r.screen == Showing(FilePath(r.queue.records[r.queue.index]).value,
                                  render(r.queue.records[r.queue.index]).value)
    ensures Shows(r.queue, render) ==> r.screen.labels == LabelsShown(render(r.queue.records[r.queue.index]).value)
    ensures !Shows(r.queue, render) ==> r.screen.labels == s.screen.labels
    ensures Displayable(r.queue) ==>
              r.screen.media == MediaShown(CreateMediaPlayer(FilePath(r.queue.records[r.queue.index]).value))
  {
    var q := Advance(s.queue);
    Session(q, DisplayCurrentItem(q, s.screen, render).screen)
  }

  /** The session invariant: the position is valid, and "Next" is enabled only
      when there is a record to move to. */
  ghost predicate Valid<L>(s: Session<L>) {
    && InBounds(s.queue)
    && (|s.queue.records| == 0 ==> s.queue.index == 0)
    && (s.screen.nextEnabled ==> |s.queue.records| > 0)
  }

  lemma StartValid<L>(outcome: LoadOutcome, render: Value -> Option<L>)
    ensures Valid(Start(outcome, render))
  {
  }

  /** Every press of an enabled "Next" keeps the invariant. */
  lemma NextValid<L>(s: Session<L>, render: Value -> Option<L>)
    requires Valid(s) && s.screen.nextEnabled
    ensures |s.queue.records| > 0
    ensures Valid(Next(s, render))
  {
  }

  /** `k` presses of "Next". */
  function NextBy<L>(s: Session<L>, k: nat, render: Value -> Option<L>): (r: Session<L>)
    requires |s.queue.records| > 0
    ensures r.queue.records == s.queue.records
    ensures r.queue == AdvanceBy(s.queue, k)
    decreases k
  {
    if k == 0 then s else Next(NextBy(s, k - 1, render), render)
  }

  /** Every record has a string `file_path` and renders. */
  ghost predicate AllShown<L>(records: seq<Value>, render: Value -> Option<L>) {
    forall i :: 0 <= i < |records| ==> FilePath(records[i]).Some? && render(records[i]).Some?
  }

  /**
   `|records|` presses of "Next" bring the whole session back: the same
   position, the same records, and, when every record can be displayed and
   the current one is on screen, the same screen.
   */
  lemma FullCycleRestoresSession<L>(s: Session<L>, render: Value -> Option<L>)
    requires |s.queue.records| > 0 && InBounds(s.queue)
    ensures NextBy(s, |s.queue.records|, render).queue == s.queue
    ensures AllShown(s.queue.records, render)
            && s.screen == Showing(FilePath(s.queue.records[s.queue.index]).value,
                                   render(s.queue.records[s.queue.index]).value)
            ==> NextBy(s, |s.queue.records|, render) == s
  {
    var n := |s.queue.records|;
    FullCycle(s.queue);
    var r := NextBy(s, n, render);
    if AllShown(s.queue.records, render) {
      var prev := NextBy(s, n - 1, render);
      assert r == Next(prev, render);
      assert Shows(r.queue, render);
    }
  }
}
