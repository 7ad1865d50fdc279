/**
 script.js: the viewer whose label region is the structured list that
 `renderLabels` builds. `renderLabels` can throw, and then the label region
 is left as it was.
 */
module ScriptPage {
  import opened Json
  import opened RecordQueue
  import opened Labels
  import opened Media
  import opened Wrappers
  import Viewer

  type Session = Viewer.Session<seq<Entry>>

  /** `displayCurrentItem`: the "no data" messages for an empty list; otherwise
      the player for the current record's path, then its label layout. */
  function Display(q: Queue<Value>, screen: Viewer.Screen<seq<Entry>>): (d: Viewer.Display<seq<Entry>>)
    ensures |q.records| == 0 ==>
              d.Completed? && d.screen.media == Viewer.NoMediaMessage && d.screen.labels == Viewer.NoLabelsMessage
    ensures Viewer.Displayable(q) && !RenderThrows(q.records[q.index]) ==>
              && d.Completed?
              && d.screen.media == Viewer.MediaShown(CreateMediaPlayer(FilePath(q.records[q.index]).value))
              && d.screen.labels == Viewer.LabelsShown(Layout(q.records[q.index]))
              && d.screen.nextEnabled
    ensures Viewer.Displayable(q) && RenderThrows(q.records[q.index]) ==>
              && d.Threw?
              && d.screen.media == Viewer.MediaShown(CreateMediaPlayer(FilePath(q.records[q.index]).value))
              && d.screen.labels == screen.labels && d.screen.nextEnabled == screen.nextEnabled
    ensures |q.records| > 0 && !Viewer.Displayable(q) ==> d.Threw? && d.screen.labels == screen.labels
  {
    Viewer.DisplayCurrentItem(q, screen, RenderLabels)
  }

  /** The page after its one `fetchLabels`. */
  function Start(outcome: Viewer.LoadOutcome): (s: Session)
    ensures outcome.LoadFailed? ==>
              s.queue.records == [] && s.screen.media == Viewer.MediaUntouched
              && s.screen.labels == Viewer.LoadErrorShown(Viewer.FetchFailed(outcome.message))
    ensures outcome.Loaded? ==> s.queue == Queue(outcome.records, 0)
    ensures outcome.Loaded? && outcome.records == [] ==>
              s.screen == Viewer.Screen(Viewer.NoMediaMessage, Viewer.NoLabelsMessage, false)
    ensures outcome.Loaded? && outcome.records != [] && FilePath(outcome.records[0]).Some? ==>
              s.screen.media == Viewer.MediaShown(CreateMediaPlayer(FilePath(outcome.records[0]).value))
    ensures outcome.Loaded? && outcome.records != [] && FilePath(outcome.records[0]).Some?
            && !RenderThrows(outcome.records[0]) ==>
              && s.screen.labels == Viewer.LabelsShown(Layout(outcome.records[0]))
              && |s.screen.labels.view| == |Enumerate(outcome.records[0])|
              && s.screen.nextEnabled
    ensures outcome.Loaded? && outcome.records != [] && FilePath(outcome.records[0]).Some?
            && RenderThrows(outcome.records[0]) ==>
              && s.screen.media == Viewer.MediaShown(CreateMediaPlayer(FilePath(outcome.records[0]).value))
              && s.screen.labels == Viewer.LoadErrorShown(Viewer.DisplayThrew)
              && !s.screen.nextEnabled
  {
    Viewer.Start(outcome, RenderLabels)
  }

  /** A press of "Next": the label region shows the new record's layout, or
      keeps its old content when `renderLabels` throws on it. */
  function Next(s: Session): (r: Session)
    requires |s.queue.records| > 0
    ensures r.queue == Advance(s.queue)
    ensures r.queue.records == s.queue.records
    ensures Viewer.Displayable(r.queue) && !RenderThrows(r.queue.records[r.queue.index]) ==>
              r.screen.labels == Viewer.LabelsShown(Layout(r.queue.records[r.queue.index]))
    ensures Viewer.Displayable(r.queue) && RenderThrows(r.queue.records[r.queue.index]) ==>
              r.screen.labels == s.screen.labels
  {
    Viewer.Next(s, RenderLabels)
  }

  /** A record with its own `hasOwnProperty` key, such as
      `{"file_path": "a.mp4", "hasOwnProperty": 1}`: the player is shown,
      the labels are not, the caught error is reported and "Next" stays
      disabled. */
  lemma ShadowedFirstRecord(path: string, v: Value)
    ensures
      var record := Object([Property("file_path", Str(path)), Property("hasOwnProperty", v)]);
      var s := Start(Viewer.Loaded([record]));
      && s.screen.media == Viewer.MediaShown(CreateMediaPlayer(path))
      && s.screen.labels == Viewer.LoadErrorShown(Viewer.DisplayThrew)
      && !s.screen.nextEnabled
  {
    var props := [Property("file_path", Str(path)), Property("hasOwnProperty", v)];
    assert FilePath(Object(props)) == Some(path);
    ShadowedRecordThrows(props, v);
  }
}

/**
 website/script.js: the same viewer, whose label region is the current
 record pretty-printed by `JSON.stringify(record, null, 2)`. The serialiser
 is a library function whose text is not part of this model, so it is a
 parameter `serialise`. On a parsed value it never throws.
 */
module WebsitePage {
  import opened Json
  import opened RecordQueue
  import opened Media
  import opened Wrappers
  import Viewer

  type Session = Viewer.Session<string>

  /** The serialiser as a layout that always succeeds. */
  function Serialised(serialise: Value -> string): (render: Value -> Option<string>)
    ensures forall v :: render(v) == Some(serialise(v))
  {
    v => Some(serialise(v))
  }

  /** `displayCurrentItem`: the "no data" messages for an empty list; otherwise
      the player for the current record's path beside that record, serialised. */
  function Display(q: Queue<Value>, screen: Viewer.Screen<string>, serialise: Value -> string): (d: Viewer.Display<string>)
    ensures |q.records| == 0 ==>
              d.Completed? && d.screen.media == Viewer.NoMediaMessage && d.screen.labels == Viewer.NoLabelsMessage
    ensures Viewer.Displayable(q) ==>
              && d.Completed?
              && d.screen.media == Viewer.MediaShown(CreateMediaPlayer(FilePath(q.records[q.index]).value))
              && d.screen.labels == Viewer.LabelsShown(serialise(q.records[q.index]))
    ensures |q.records| > 0 && !Viewer.Displayable(q) ==> d.Threw? && d.screen.labels == screen.labels
  {
    Viewer.DisplayCurrentItem(q, screen, Serialised(serialise))
  }

  /** The page after its one `fetchLabels`. */
  function Start(outcome: Viewer.LoadOutcome, serialise: Value -> string): (s: Session)
    ensures outcome.LoadFailed? ==>
              s.queue.records == [] && s.screen.media == Viewer.MediaUntouched
              && s.screen.labels == Viewer.LoadErrorShown(Viewer.FetchFailed(outcome.message))
    ensures outcome.Loaded? ==> s.queue == Queue(outcome.records, 0)
    ensures outcome.Loaded? && outcome.records == [] ==>
              s.screen == Viewer.Screen(Viewer.NoMediaMessage, Viewer.NoLabelsMessage, false)
    ensures outcome.Loaded? && outcome.records != [] && FilePath(outcome.records[0]).Some? ==>
              s.screen.media == Viewer.MediaShown(CreateMediaPlayer(FilePath(outcome.records[0]).value))
    ensures outcome.Loaded? && outcome.records != [] && FilePath(outcome.records[0]).Some? ==>
              s.screen.labels == Viewer.LabelsShown(serialise(outcome.records[0])) && s.screen.nextEnabled
  {
    Viewer.Start(outcome, Serialised(serialise))
  }

  /** A press of "Next": the label region shows exactly the new current record, serialised. */
  function Next(s: Session, serialise: Value -> string): (r: Session)
    requires |s.queue.records| > 0
    ensures r.queue == Advance(s.queue)
    ensures r.queue.records == s.queue.records
    ensures Viewer.Displayable(r.queue) ==>
              r.screen.labels == Viewer.LabelsShown(serialise(r.queue.records[r.queue.index]))
  {
    Viewer.Next(s, Serialised(serialise))
  }
}
