/** The playback cursor over a script's MIDI events (class AbstractScriptRenderer of
    src/script.py) and the player built on it (class ScriptPlayer).

    Game time is the wall-clock timestamp in seconds; script time is in beats.
    The cursor keeps the index of the next event to play and the repeat offset, the
    script time that game time 0 lies before the script's start (the start delay,
    plus one script length and delay per completed repetition). Each poll plays
    every event that has become due, in order. */
module Renderer {
  import opened Wrappers
  import opened Events
  import opened Script

  /** The cursor's mutable state: index of the next event and repeat offset. */
  datatype CursorState = CursorState(nextIdx: nat, repeatOffset: real)

  /** What one poll plays and the state it leaves. */
  datatype PollResult = PollResult(due: seq<MidiEvent>, after: CursorState)

  /** The script time of a timestamp. */
  function ScriptTime(bps: real, repeatOffset: real, timestamp: real): (r: real)
    ensures bps != 0.0 ==> (r + repeatOffset) / bps == timestamp
  {
    var r := timestamp * bps - repeatOffset;
    if bps != 0.0 then
      assert r + repeatOffset == timestamp * bps;
      DivideMultiply(timestamp, bps);
      r
    else
      r
  }

  /** The shift of the repeat offset when the script starts over: the time of its
      last event plus the start delay. */
  function CycleShift(events: seq<MidiEvent>, bps: real, delay: real): real
    requires events != []
  {
    events[|events| - 1].time + delay * bps
  }

  /** The end of the run of events from index `from` on that are due at script
      time st: the first index at or after `from` whose event is later than st, or
      the end of the list. */
  function DueEnd(events: seq<MidiEvent>, from: nat, st: real): (k: nat)
    requires from <= |events|
    ensures from <= k <= |events|
    ensures forall j :: from <= j < k ==> events[j].time <= st
    ensures k < |events| ==> events[k].time > st
    decreases |events| - from
  {
    if from == |events| || events[from].time > st then from else DueEnd(events, from + 1, st)
  }

  /** One poll at a timestamp, from state s: nothing once finished; otherwise the
      due run of events, after which the cursor rests on the first event not yet
      due, or, having played the last event, stays at the end or (repeating) starts
      over with the repeat offset shifted by one cycle. */
  function Poll(events: seq<MidiEvent>, bps: real, delay: real, repeat: bool,
                s: CursorState, timestamp: real): (r: PollResult)
    requires s.nextIdx <= |events|
    ensures r.after.nextIdx <= |events|
    ensures !repeat ==> r.after.repeatOffset == s.repeatOffset
  {
    if s.nextIdx >= |events| then
      PollResult([], s)
    else
      var end := DueEnd(events, s.nextIdx, ScriptTime(bps, s.repeatOffset, timestamp));
      var due := events[s.nextIdx..end];
      if end == |events| && repeat then
        PollResult(due, CursorState(0, s.repeatOffset + CycleShift(events, bps, delay)))
      else
        PollResult(due, CursorState(end, s.repeatOffset))
  }

  /** The repeat offset after n repetitions: the start delay (in beats) and one
      cycle shift per repetition. */
  function OffsetAfter(events: seq<MidiEvent>, bps: real, delay: real, n: nat): real
    requires n > 0 ==> events != []
  {
    if n == 0 then delay * bps else OffsetAfter(events, bps, delay, n - 1) + CycleShift(events, bps, delay)
  }

  /** n copies of the events, one after another: what n full repetitions play. */
  function Repeated(events: seq<MidiEvent>, n: nat): seq<MidiEvent> {
    if n == 0 then [] else Repeated(events, n - 1) + events
  }

  // ---------------------------------------------------------------------------
  // Properties of one poll

  /** In a sorted list, the events from `from` on that are due are exactly those
      before DueEnd. */
  lemma DueEndSorted(events: seq<MidiEvent>, from: nat, st: real, k: nat)
    requires Sorted(events) && from <= k < |events|
    ensures k < DueEnd(events, from, st) <==> events[k].time <= st
  {
    var end := DueEnd(events, from, st);
    if end <= k && end < |events| {
      if end < k {
        SortedEventOrder(events, end, k);
      }
    }
  }

  /** A poll plays a contiguous run of events in order, each due at the poll's
      script time; when it stops before the end, the next event is not yet due, so
      the run is the longest one. */
  lemma PollPlaysDueRun(events: seq<MidiEvent>, bps: real, delay: real, repeat: bool,
                        s: CursorState, timestamp: real)
    requires s.nextIdx < |events|
    ensures var r := Poll(events, bps, delay, repeat, s, timestamp);
            var st := ScriptTime(bps, s.repeatOffset, timestamp);
            var end := s.nextIdx + |r.due|;
            end <= |events| && r.due == events[s.nextIdx..end] &&
            (forall e :: e in r.due ==> e.time <= st) &&
            (end < |events| ==> r.after == CursorState(end, s.repeatOffset) && events[end].time > st)
  {
    var st := ScriptTime(bps, s.repeatOffset, timestamp);
    var end := DueEnd(events, s.nextIdx, st);
    var r := Poll(events, bps, delay, repeat, s, timestamp);
    assert r.due == events[s.nextIdx..end];
    forall e | e in r.due
      ensures e.time <= st
    {
      var j :| 0 <= j < |r.due| && r.due[j] == e;
      assert e == events[s.nextIdx + j];
    }
  }

  /** Once every event is played, a poll plays nothing and changes nothing. */
  lemma PollWhenFinished(events: seq<MidiEvent>, bps: real, delay: real, repeat: bool,
                         s: CursorState, timestamp: real)
    requires s.nextIdx == |events|
    ensures Poll(events, bps, delay, repeat, s, timestamp) == PollResult([], s)
  {
  }

  /** Without repeat the index never moves back or past the end, and a poll plays
      exactly the events between the old and the new index. */
  lemma PollWithoutRepeat(events: seq<MidiEvent>, bps: real, delay: real,
                          s: CursorState, timestamp: real)
    requires s.nextIdx <= |events|
    ensures var r := Poll(events, bps, delay, false, s, timestamp);
            s.nextIdx <= r.after.nextIdx <= |events| &&
            r.due == events[s.nextIdx..r.after.nextIdx] &&
            r.after.repeatOffset == s.repeatOffset
  {
  }

  /** With repeat, the poll that plays the last event ends there: it plays the rest
      of the list, resets the index to 0 and shifts the repeat offset by the last
      event's time plus the delay. Otherwise the repeat offset stays. */
  lemma PollWrapsAround(events: seq<MidiEvent>, bps: real, delay: real,
                        s: CursorState, timestamp: real)
    requires s.nextIdx < |events|
    ensures var r := Poll(events, bps, delay, true, s, timestamp);
            var end := s.nextIdx + |r.due|;
            end <= |events| &&
            (end == |events| ==>
               r.after == CursorState(0, s.repeatOffset + events[|events| - 1].time + delay * bps)) &&
            (end < |events| ==> r.after == CursorState(end, s.repeatOffset))
  {
    var end := DueEnd(events, s.nextIdx, ScriptTime(bps, s.repeatOffset, timestamp));
    assert |events[s.nextIdx..end]| == end - s.nextIdx;
  }

  /** With repeat, a poll never leaves the index at the end of a non-empty list, so
      a repeating cursor never finishes. */
  lemma PollRepeatNeverFinishes(events: seq<MidiEvent>, bps: real, delay: real,
                                s: CursorState, timestamp: real)
    requires s.nextIdx < |events|
    ensures Poll(events, bps, delay, true, s, timestamp).after.nextIdx < |events|
  {
  }

  lemma ConcatSlices(r: seq<MidiEvent>, events: seq<MidiEvent>, from: nat, k: nat)
    requires from <= k <= |events|
    ensures r + events[..from] + events[from..k] == r + events[..k]
  {
    assert events[..from] + events[from..k] == events[..k];
  }

  /** A run of due events ended by the end of the list or by an event not yet
      due ends where DueEnd says. */
  lemma {:induction false} DueRunEnd(events: seq<MidiEvent>, from: nat, st: real, k: nat)
    requires from <= k <= |events|
    requires forall j :: from <= j < k ==> events[j].time <= st
    requires k < |events| ==> events[k].time > st
    ensures DueEnd(events, from, st) == k
    decreases k - from
  {
    if from < k {
      DueRunEnd(events, from + 1, st, k);
    }
  }

  /** A poll that stops at an event not yet due leaves the cursor there. */
  lemma PollStopsAt(events: seq<MidiEvent>, bps: real, delay: real, repeat: bool,
                    s: CursorState, timestamp: real, k: nat)
    requires s.nextIdx <= k < |events|
    requires DueEnd(events, s.nextIdx, ScriptTime(bps, s.repeatOffset, timestamp)) == k
    ensures Poll(events, bps, delay, repeat, s, timestamp) ==
              PollResult(events[s.nextIdx..k], CursorState(k, s.repeatOffset))
  {
  }

  /** A poll that plays the last event stays at the end, or starts over. */
  lemma PollAtEnd(events: seq<MidiEvent>, bps: real, delay: real, repeat: bool,
                  s: CursorState, timestamp: real)
    requires s.nextIdx < |events|
    requires DueEnd(events, s.nextIdx, ScriptTime(bps, s.repeatOffset, timestamp)) == |events|
    ensures Poll(events, bps, delay, repeat, s, timestamp) ==
              PollResult(events[s.nextIdx..|events|],
                         if repeat then CursorState(0, s.repeatOffset + CycleShift(events, bps, delay))
                         else CursorState(|events|, s.repeatOffset))
  {
  }

  /** The cursor state s after `cycles` repetitions accounts for the history: it
      is that many full repetitions followed by the events before the index, and
      the repeat offset has moved by one cycle shift per repetition. */
  ghost predicate Accounted(events: seq<MidiEvent>, bps: real, delay: real, repeat: bool,
                            s: CursorState, cycles: nat, history: seq<MidiEvent>)
  {
    s.nextIdx <= |events| &&
    (!repeat || events == [] ==> cycles == 0) &&
    history == Repeated(events, cycles) + events[..s.nextIdx] &&
    s.repeatOffset == OffsetAfter(events, bps, delay, cycles)
  }

  /** Playing the run events[s.nextIdx..k] keeps the history accounted for, with
      the index moved to k. */
  lemma PlayedRunAccounted(events: seq<MidiEvent>, bps: real, delay: real, repeat: bool,
                           s: CursorState, cycles: nat, history: seq<MidiEvent>, k: nat)
    requires Accounted(events, bps, delay, repeat, s, cycles, history)
    requires s.nextIdx <= k <= |events|
    ensures Accounted(events, bps, delay, repeat, CursorState(k, s.repeatOffset), cycles,
                      history + events[s.nextIdx..k])
  {
    ConcatSlices(Repeated(events, cycles), events, s.nextIdx, k);
  }

  // ---------------------------------------------------------------------------
  // The cursor

  /** AbstractScriptRenderer: a cursor over the sorted events of a script. */
  class ScriptCursor {
    const events: seq<MidiEvent>
    /** Beats per second. */
    const bps: real
    /** Seconds of game time before the script starts. */
    const delay: real
    const repeat: bool

    var nextIdx: nat
    var repeatOffset: real

    /** How often the script has started over, and every event played so far. */
    ghost var cycles: nat
    ghost var history: seq<MidiEvent>

    /** The events are the sorted MIDI events of a script. They never change, so
        this holds for the cursor's whole life. */
    ghost predicate EventsSorted() {
      Sorted(events)
    }

    /** What has been played is some full repetitions and then the events before
        nextIdx; only a repeating cursor with events repeats, and each repetition
        has shifted the repeat offset by one cycle. */
    ghost predicate Consistent()
      reads this
    {
      Accounted(events, bps, delay, repeat, State(), cycles, history)
    }

    /** Between polls, moreover, a repeating cursor with events is never at the end. */
    ghost predicate Valid()
      reads this
    {
      Consistent() && (repeat && events != [] ==> nextIdx < |events|)
    }

    function State(): CursorState
      reads this
    {
      CursorState(nextIdx, repeatOffset)
    }

    /** A cursor at the start of a script's events, the sorted list MidiEvents of
        its notes (main.py parses the script before building any cursor over it). */
    constructor(events: seq<MidiEvent>, bpm: real, delay: real, repeat: bool)
      requires Sorted(events)
      ensures Valid() && EventsSorted()
      ensures this.events == events && bps == bpm / 60.0
      ensures this.delay == delay && this.repeat == repeat
      ensures nextIdx == 0 && repeatOffset == delay * bps && history == []
      ensures GetScriptTime(delay) == 0.0
    {
      var b := bpm / 60.0;
      this.events := events;
      bps := b;
      this.delay := delay;
      this.repeat := repeat;
      nextIdx := 0;
      repeatOffset := delay * b;
      cycles := 0;
      history := [];
      new;
      assert Repeated(events, 0) + events[..0] == [];
    }

    function GetScriptTime(timestamp: real): (r: real)
      reads this
      ensures bps != 0.0 ==> GetGameTime(r) == Some(timestamp)
    {
      ScriptTime(bps, repeatOffset, timestamp)
    }

    /** The timestamp of a script time; None where the original divides by a zero
        bps. */
    function GetGameTime(scriptTime: real): (r: Option<real>)
      reads this
      ensures r.None? <==> bps == 0.0
    {
      if bps == 0.0 then None else Some((scriptTime + repeatOffset) / bps)
    }

    predicate Finished()
      reads this
      ensures Valid() ==> (Finished() <==> nextIdx == |events|)
      ensures Valid() && repeat && events != [] ==> !Finished()
    {
      nextIdx >= |events|
    }

    /** Starts the script over (_repeat); only called by a repeating cursor once
        the last event was played. */
    method Repeat()
      requires Consistent() && repeat && events != [] && nextIdx == |events|
      modifies this
      ensures Valid()
      ensures nextIdx == 0
      ensures repeatOffset == old(repeatOffset) + CycleShift(events, bps, delay)
      ensures cycles == old(cycles) + 1 && history == old(history)
    {
      repeatOffset := repeatOffset + (events[|events| - 1].time + delay * bps);
      nextIdx := 0;
      cycles := cycles + 1;
      assert old(events[..nextIdx]) == events;
    }

    /** Plays every event due at the timestamp, in order (_get_new_midi_events). The
        script time is computed once, before the loop. The loop stops at the first
        event not yet due, or right after playing the last event; in that case a
        repeating cursor starts over, and the poll ends either way. */
    method GetNewMidiEvents(timestamp: real) returns (due: seq<MidiEvent>)
      requires Valid()
      modifies this
      ensures Valid()
      ensures PollResult(due, State()) == Poll(events, bps, delay, repeat, old(State()), timestamp)
      ensures history == old(history) + due
    {
      ghost var s0, h0, c0 := State(), history, cycles;
      if Finished() {
        PollWhenFinished(events, bps, delay, repeat, s0, timestamp);
        return [];
      }
      var scriptTime := GetScriptTime(timestamp);
      ghost var from := nextIdx;
      due := [];
      while events[nextIdx].time <= scriptTime
        invariant from <= nextIdx < |events|
        invariant due == events[from..nextIdx]
        invariant forall j :: from <= j < nextIdx ==> events[j].time <= scriptTime
        invariant State() == CursorState(nextIdx, s0.repeatOffset)
        invariant cycles == c0 && history == h0
        decreases |events| - nextIdx
      {
        assert events[from..nextIdx + 1] == events[from..nextIdx] + [events[nextIdx]];
        due := due + [events[nextIdx]];
        nextIdx := nextIdx + 1;
        if Finished() {
          break;
        }
      }
      ghost var k := nextIdx;
      PlayedRunAccounted(events, bps, delay, repeat, s0, c0, h0, k);
      history := history + due;
      assert State() == CursorState(k, s0.repeatOffset) && cycles == c0 &&
             history == h0 + events[from..k];
      if Finished() {
        DueRunEnd(events, from, scriptTime, k);
        PollAtEnd(events, bps, delay, repeat, s0, timestamp);
        if repeat {
          Repeat();
        }
        return;
      }
      DueRunEnd(events, from, scriptTime, k);
      PollStopsAt(events, bps, delay, repeat, s0, timestamp, k);
    }
  }

  lemma DivideMultiply(x: real, b: real)
    requires b != 0.0
    ensures (x * b) / b == x && (x / b) * b == x
  {
  }

  /** Script and game time are inverse to each other when bps is not zero. */
  lemma TimeRoundTrip(c: ScriptCursor, t: real, s: real)
    requires c.bps != 0.0
    ensures c.GetGameTime(c.GetScriptTime(t)) == Some(t)
    ensures c.GetGameTime(s).Some? && c.GetScriptTime(c.GetGameTime(s).value) == s
  {
    var b, o := c.bps, c.repeatOffset;
    var x := c.GetScriptTime(t);
    assert x + o == t * b;
    DivideMultiply(t, b);
    assert c.GetGameTime(x) == Some((x + o) / b);
    var g := (s + o) / b;
    DivideMultiply(s + o, b);
    assert c.GetScriptTime(g) == g * b - o;
  }

  /** Without repeat, what a cursor has played is the events before its index: a
      prefix of the events, each played once. */
  lemma PlayedWithoutRepeat(c: ScriptCursor)
    requires c.Valid() && !c.repeat
    ensures c.history == c.events[..c.nextIdx]
  {
  }

  // ---------------------------------------------------------------------------
  // The player

  /** ScriptPlayer: a cursor whose due events go to the MIDI output. */
  class ScriptPlayer {
    const cursor: ScriptCursor
    /** Every event sent to the MIDI output so far, in order. */
    var sent: seq<MidiEvent>

    ghost predicate Valid()
      reads this, cursor
    {
      cursor.Valid() && cursor.EventsSorted() && sent == cursor.history
    }

    constructor(notes: seq<Note>, bpm: real, delay: real, repeat: bool)
      ensures Valid() && fresh(cursor) && sent == []
      ensures cursor.events == MidiEvents(notes) && cursor.bps == bpm / 60.0
      ensures cursor.delay == delay && cursor.repeat == repeat
      ensures cursor.nextIdx == 0 && cursor.repeatOffset == delay * cursor.bps
    {
      cursor := new ScriptCursor(MidiEvents(notes), bpm, delay, repeat);
      sent := [];
    }

    /** Sends every event that is due at the timestamp to the MIDI output. */
    method Update(timestamp: real)
      requires Valid()
      modifies this, cursor
      ensures Valid()
      ensures var r := Poll(cursor.events, cursor.bps, cursor.delay, cursor.repeat, old(cursor.State()), timestamp);
              sent == old(sent) + r.due && cursor.State() == r.after
    {
      var due := cursor.GetNewMidiEvents(timestamp);
      sent := sent + due;
    }
  }
}
