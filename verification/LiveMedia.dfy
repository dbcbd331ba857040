/**
  The video watchdog of a call. One counter mixes seconds and frames: a tick adds 10000, a frame adds
  one, and 50000 at a tick means five seconds without a frame.
 */
module LiveMedia {
  import opened CallTables

  datatype Media = Media(counter: int, videoFailed: bool, unholdFailed: bool, unholdTicks: nat)

  datatype Event =
    | Tick(state: State)
    | Frame
    | AddRenderer
    | RemoveRenderer(last: bool)
    | Hold
    | Unhold

  // ----- The code -----

  predicate Counted(m: Media, state: State) {
    state.Current? && m.counter != -1
  }

  /** The video part of a tick, and whether it raises the failure. */
  function TickVideo(m: Media, state: State): (Media, bool) {
    if !Counted(m, state) then (m, false)
    else
      var counter := m.counter + 10000;
      if counter == 50000 then (m.(counter := 0, videoFailed := true), true)
      else if counter > 50000 then (m.(counter := 0), false)
      else (m.(counter := counter), false)
  }

  /** The hold part of a tick: resuming may take a while before it counts as failed. */
  function TickUnhold(m: Media, state: State): Media {
    if m.unholdTicks == 0 then m
    else if !state.Hold? then
      if m.unholdTicks > 5 then Media(m.counter, false, false, 0) else m.(unholdTicks := 0)
    else if m.unholdTicks > 5 then m.(unholdFailed := true, unholdTicks := 1)
    else m.(unholdTicks := m.unholdTicks + 1)
  }

  function Step(m: Media, e: Event): Media {
    match e
    case Tick(state) => TickUnhold(TickVideo(m, state).0, state)
    case Frame =>
      var cleared := if m.videoFailed then m.(videoFailed := false, unholdFailed := false) else m;
      cleared.(counter := m.counter + 1)
    case AddRenderer => m.(counter := m.counter + 1)
    case RemoveRenderer(last) => if last then m.(counter := -1) else m
    case Hold => if m.counter != 0 then m.(counter := 0, videoFailed := false, unholdFailed := false) else m
    case Unhold => m.(unholdTicks := m.unholdTicks + 1)
  }

  predicate Raises(m: Media, e: Event) {
    e.Tick? && TickVideo(m, e.state).1
  }

  function Run(m: Media, events: seq<Event>): Media
    decreases |events|
  {
    if events == [] then m else Run(Step(m, events[0]), events[1..])
  }

  // ----- What is being counted -----

  /** Ticks and frames since the last reset, or nothing while no renderer is left. */
  datatype Window = Off | On(ticks: nat, frames: nat)

  const OPEN := On(0, 0)

  function Next(w: Window, e: Event): Window {
    match e
    case Tick(state) =>
      if w.Off? || !state.Current? then w
      else if w.ticks >= 4 then OPEN
      else w.(ticks := w.ticks + 1)
    case Frame => if w.Off? then OPEN else w.(frames := w.frames + 1)
    case AddRenderer => if w.Off? then OPEN else w.(frames := w.frames + 1)
    case RemoveRenderer(last) => if last then Off else w
    case Hold => OPEN
    case Unhold => w
  }

  function Windows(w: Window, events: seq<Event>): Window
    decreases |events|
  {
    if events == [] then w else Windows(Next(w, events[0]), events[1..])
  }

  /** Fewer than 10000 frames between two resets. */
  predicate Few(w: Window, events: seq<Event>)
    decreases |events|
  {
    && (w.On? ==> w.frames < 10000)
    && (events != [] ==> Few(Next(w, events[0]), events[1..]))
  }

  predicate Matches(m: Media, w: Window) {
    match w
    case Off => m.counter == -1
    case On(ticks, frames) => ticks <= 4 && m.counter == 10000 * ticks + frames
  }

  lemma {:induction false} CounterIsWindow(m: Media, w: Window, events: seq<Event>)
    requires Matches(m, w) && Few(w, events)
    ensures Matches(Run(m, events), Windows(w, events))
    ensures Windows(w, events).On? ==> Windows(w, events).frames < 10000
    decreases |events|
  {
    if events != [] {
      CounterIsWindow(Step(m, events[0]), Next(w, events[0]), events[1..]);
    }
  }

  /**
    Over any interleaving, a tick raises the failure exactly when it is the fifth counted one since
    the last reset and no frame has come since.
   */
  lemma RaisedExactly(m: Media, w: Window, events: seq<Event>, state: State)
    requires Matches(m, w) && Few(w, events)
    ensures Raises(Run(m, events), Tick(state)) <==> state.Current? && Windows(w, events) == On(4, 0)
  {
    CounterIsWindow(m, w, events);
  }

  // ----- The window as counts over the history -----

  function Ticks(events: seq<Event>): nat {
    if events == [] then 0
    else (if events[0].Tick? && events[0].state.Current? then 1 else 0) + Ticks(events[1..])
  }

  function Frames(events: seq<Event>): nat {
    if events == [] then 0
    else (if events[0].Frame? || events[0].AddRenderer? then 1 else 0) + Frames(events[1..])
  }

  predicate NoReset(events: seq<Event>) {
    forall i :: 0 <= i < |events| ==> !events[i].Hold? && events[i] != RemoveRenderer(true)
  }

  lemma {:induction false} WindowCounts(w: Window, events: seq<Event>)
    requires NoReset(events) && w.On? && w.ticks + Ticks(events) <= 4
    ensures Windows(w, events) == On(w.ticks + Ticks(events), w.frames + Frames(events))
    decreases |events|
  {
    if events != [] {
      WindowCounts(Next(w, events[0]), events[1..]);
    }
  }

  lemma {:induction false} WindowsAppend(w: Window, a: seq<Event>, b: seq<Event>)
    ensures Windows(w, a + b) == Windows(Windows(w, a), b)
    decreases |a|
  {
    if a == [] {
      assert a + b == b;
    } else {
      assert (a + b)[1..] == a[1..] + b;
      WindowsAppend(Next(w, a[0]), a[1..], b);
    }
  }

  /** After a reset, at most four counted ticks later, the counts over the history decide. */
  lemma RaisedByHistory(m: Media, w: Window, before: seq<Event>, since: seq<Event>, state: State)
    requires Matches(m, w) && Few(w, before + since)
    requires Windows(w, before) == OPEN && NoReset(since) && Ticks(since) <= 4
    ensures Raises(Run(m, before + since), Tick(state))
       <==> state.Current? && Ticks(since) == 4 && Frames(since) == 0
  {
    WindowsAppend(w, before, since);
    WindowCounts(OPEN, since);
    RaisedExactly(m, w, before + since, state);
  }

  // ----- Without the bound on frames -----

  /** A tick raises the failure exactly when ticks and frames add up, whatever they are. */
  lemma RaisedBySum(m: Media, ticks: nat, frames: nat, state: State)
    requires m.counter == 10000 * ticks + frames
    ensures Raises(m, Tick(state)) <==> state.Current? && frames == 10000 * (4 - ticks)
  {
  }

  /** So 10000 frames stand in for a tick: the failure is raised although frames keep coming. */
  lemma RaisedWithFrames()
    ensures Raises(Media(10000 * 3 + 10000, false, false, 0), Tick(Current))
  {
    RaisedBySum(Media(10000 * 3 + 10000, false, false, 0), 3, 10000, Current);
  }

  // ----- The object -----

  class Watchdog {
    var videoFrameCounter: int
    var videoFailed: bool
    var unholdFailed: bool
    var unholdCounter: nat

    ghost function View(): Media
      reads this
    {
      Media(videoFrameCounter, videoFailed, unholdFailed, unholdCounter)
    }

    constructor ()
      ensures View() == Media(0, false, false, 0)
    {
      videoFrameCounter, videoFailed, unholdFailed, unholdCounter := 0, false, false, 0;
    }

    method SlotFrameAcquired()
      modifies this
      ensures View() == Step(old(View()), Frame)
    {
      if videoFailed {
        videoFailed, unholdFailed := false, false;
      }
      videoFrameCounter := videoFrameCounter + 1;
    }

    method RegisterRenderer()
      modifies this
      ensures View() == Step(old(View()), AddRenderer)
    {
      videoFrameCounter := videoFrameCounter + 1;
    }

    method RemoveRenderer(last: bool)
      modifies this
      ensures View() == Step(old(View()), Event.RemoveRenderer(last))
    {
      if last {
        videoFrameCounter := -1;
      }
    }

    method Hold()
      modifies this
      ensures View() == Step(old(View()), Event.Hold)
    {
      if videoFrameCounter != 0 {
        videoFrameCounter := 0;
        videoFailed, unholdFailed := false, false;
      }
    }

    method Unhold()
      modifies this
      ensures View() == Step(old(View()), Event.Unhold)
    {
      unholdCounter := unholdCounter + 1;
    }

    /** One second has passed; the result says whether the renderer is told of a failure. */
    method Updated(state: State) returns (failure: bool)
      modifies this
      ensures View() == Step(old(View()), Tick(state))
      ensures failure == Raises(old(View()), Tick(state))
    {
      failure := false;
      if state == Current && videoFrameCounter != -1 {
        videoFrameCounter := videoFrameCounter + 10000;
        if videoFrameCounter >= 50000 {
          if videoFrameCounter == 50000 {
            videoFailed := true;
            failure := true;
          }
          videoFrameCounter := 0;
        }
      }
      if unholdCounter != 0 {
        if state != State.Hold {
          if unholdCounter > 5 {
            videoFailed, unholdFailed := false, false;
          }
          unholdCounter := 0;
        } else if unholdCounter > 5 {
          unholdFailed := true;
          unholdCounter := 1;
        } else {
          unholdCounter := unholdCounter + 1;
        }
      }
    }
  }
}
