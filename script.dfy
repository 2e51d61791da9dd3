/** The note script of a song (class Script of src/script.py): a CSV file read row
    by row into notes, and the notes expanded into the sorted list of MIDI events.

    A row is one of
      - blank, or a comment (its first field starts with '#'): ignored;
      - `SET,BAR,<n>` or `SET,BASE,<n>`: sets the bar length or the base pitch for
        the rows after it (a SET row with another key does nothing);
      - exactly `-`: a bar break, adding the bar length to the time offset;
      - `<pitch>,<start>,<duration>`: a note, played at base + pitch from
        offset + start for duration beats.
    The integer and float conversions of the original are parameters of the model
    (NumberParsers); a conversion that fails and a missing field are errors. */
module Script {
  import opened Wrappers
  import opened Events

  /** One row of the CSV file, already split into fields. */
  type Row = seq<string>

  /** The conversions `int(...)` and `float(...)` of the original, each returning
      None where the original raises ValueError. */
  datatype NumberParsers = NumberParsers(parseInt: string -> Option<int>, parseFloat: string -> Option<real>)

  /** A note: MIDI pitch, start time and duration, both in beats. */
  datatype Note = Note(pitch: int, start: real, duration: real)

  /** The parser's running variables. */
  datatype Running = Running(offset: int, bar: int, base: int)

  /** All running variables start at 0. */
  const Initial := Running(0, 0, 0)

  /** Why reading a row failed: a field index past the end of the row (IndexError
      in the original), or a field that int() or float() rejects (ValueError). */
  datatype ErrorKind = MissingField | BadInt | BadFloat

  /** A failed parse: the error and the index of the row it came from. */
  datatype ParseError = ParseError(row: nat, kind: ErrorKind)

  /** What reading one row does: the running variables after it, and the note it
      produces, if any. */
  datatype StepOut = StepOut(state: Running, note: Option<Note>)

  /** The parser's state after a sequence of rows: running variables and the notes so far. */
  datatype Progress = Progress(state: Running, notes: seq<Note>)

  // ---------------------------------------------------------------------------
  // Kinds of rows

  /** A blank row or a comment; it is skipped. */
  predicate IsSkipped(row: Row) {
    |row| == 0 || (|row[0]| > 0 && row[0][0] == '#')
  }

  /** A row setting one of the running variables. */
  predicate IsSet(row: Row) {
    |row| > 0 && row[0] == "SET"
  }

  /** A bar break: the row consisting of the single field "-". */
  predicate IsBarBreak(row: Row) {
    row == ["-"]
  }

  /** A row describing a note. */
  predicate IsNoteRow(row: Row) {
    !IsSkipped(row) && !IsSet(row) && !IsBarBreak(row)
  }

  /** A row that sets the bar length. */
  predicate SetsBar(row: Row) {
    IsSet(row) && |row| > 1 && row[1] == "BAR"
  }

  /** The number of note rows in rows. */
  function CountNoteRows(rows: seq<Row>): nat {
    if rows == [] then 0
    else CountNoteRows(rows[..|rows| - 1]) + (if IsNoteRow(rows[|rows| - 1]) then 1 else 0)
  }

  // ---------------------------------------------------------------------------
  // Reading rows

  /** Reads one row in the running state st, checking and converting its fields in
      the order the original evaluates them. */
  function Step(st: Running, row: Row, p: NumberParsers): (r: Result<StepOut, ErrorKind>)
    ensures r.Failure? ==> !IsSkipped(row) && !IsBarBreak(row)
    ensures r.Success? ==> (r.value.note.Some? <==> IsNoteRow(row))
    ensures r.Success? && !IsBarBreak(row) ==> r.value.state.offset == st.offset
  {
    if IsSkipped(row) then
      Success(StepOut(st, None))
    else if row[0] == "SET" then
      if |row| < 2 then
        Failure(MissingField)
      else if row[1] == "BAR" || row[1] == "BASE" then
        if |row| < 3 then
          Failure(MissingField)
        else
          match p.parseInt(row[2])
          case None => Failure(BadInt)
          case Some(v) =>
            if row[1] == "BAR" then Success(StepOut(st.(bar := v), None))
            else Success(StepOut(st.(base := v), None))
      else
        Success(StepOut(st, None))
    else if row == ["-"] then
      Success(StepOut(st.(offset := st.offset + st.bar), None))
    else
      match p.parseInt(row[0])
      case None => Failure(BadInt)
      case Some(pitch) =>
        if |row| < 2 then
          Failure(MissingField)
        else
          match p.parseFloat(row[1])
          case None => Failure(BadFloat)
          case Some(start) =>
            if |row| < 3 then
              Failure(MissingField)
            else
              match p.parseFloat(row[2])
              case None => Failure(BadFloat)
              case Some(duration) =>
                Success(StepOut(st, Some(Note(st.base + pitch, st.offset as real + start, duration))))
  }

  /** One more row, number k, read after the parser reached prior. */
  function Advance(prior: Result<Progress, ParseError>, k: nat, row: Row, p: NumberParsers): Result<Progress, ParseError> {
    match prior
    case Failure(e) => Failure(e)
    case Success(prev) =>
      match Step(prev.state, row, p)
      case Failure(kind) => Failure(ParseError(k, kind))
      case Success(out) =>
        match out.note
        case None => Success(Progress(out.state, prev.notes))
        case Some(n) => Success(Progress(out.state, prev.notes + [n]))
  }

  /** The parser's state after reading all of rows from the initial state, or the
      first error; the specification of ParseNotes. */
  function Run(rows: seq<Row>, p: NumberParsers): (r: Result<Progress, ParseError>)
    ensures r.Failure? ==> r.error.row < |rows|
    decreases |rows|
  {
    if rows == [] then
      Success(Progress(Initial, []))
    else
      Advance(Run(rows[..|rows| - 1], p), |rows| - 1, rows[|rows| - 1], p)
  }

  /** The notes of a script, in row order, or the first error. */
  function Notes(rows: seq<Row>, p: NumberParsers): (r: Result<seq<Note>, ParseError>)
    ensures r.Failure? ==> r.error.row < |rows|
    ensures r.Success? ==> |r.value| == CountNoteRows(rows)
  {
    match Run(rows, p)
    case Failure(e) => Failure(e)
    case Success(prog) =>
      RunNoteCount(rows, p);
      Success(prog.notes)
  }

  lemma RunSnoc(rows: seq<Row>, k: nat, p: NumberParsers)
    requires k < |rows|
    ensures Run(rows[..k + 1], p) == Advance(Run(rows[..k], p), k, rows[k], p)
  {
    assert rows[..k + 1][..k] == rows[..k];
  }

  /** Reading row i after rows that parsed to st and notes: an error of the row
      becomes the script's error at row i, and otherwise its note, if any, is
      appended. */
  lemma RunStep(rows: seq<Row>, i: nat, p: NumberParsers, st: Running, notes: seq<Note>)
    requires i < |rows| && Run(rows[..i], p) == Success(Progress(st, notes))
    ensures Run(rows[..i + 1], p) ==
              match Step(st, rows[i], p)
              case Failure(kind) => Failure(ParseError(i, kind))
              case Success(out) =>
                Success(Progress(out.state, if out.note.Some? then notes + [out.note.value] else notes))
  {
    RunSnoc(rows, i, p);
  }

  /** A row that fails after rows that parsed makes the whole script fail there. */
  lemma FailsAtRow(rows: seq<Row>, i: nat, p: NumberParsers, st: Running, notes: seq<Note>, kind: ErrorKind)
    requires i < |rows| && Run(rows[..i], p) == Success(Progress(st, notes))
    requires Step(st, rows[i], p) == Failure(kind)
    ensures Notes(rows, p) == Failure(ParseError(i, kind))
  {
    RunStep(rows, i, p, st, notes);
    FailurePersists(rows, i + 1, p);
  }

  /** Once a prefix of the rows fails, the whole script fails with the same error. */
  lemma {:induction false} FailurePersists(rows: seq<Row>, k: nat, p: NumberParsers)
    requires k <= |rows| && Run(rows[..k], p).Failure?
    ensures Run(rows, p) == Run(rows[..k], p)
    decreases |rows| - k
  {
    if k < |rows| {
      RunSnoc(rows, k, p);
      FailurePersists(rows, k + 1, p);
    } else {
      assert rows[..k] == rows;
    }
  }

  /** Reads the rows one by one, as the original's loop does, updating the running
      variables in place and collecting the notes; stops at the first error. */
  method ParseNotes(rows: seq<Row>, p: NumberParsers) returns (r: Result<seq<Note>, ParseError>)
    ensures r == Notes(rows, p)
  {
    var offset, bar, base := 0, 0, 0;
    var notes: seq<Note> := [];
    var i := 0;
    while i < |rows|
      invariant 0 <= i <= |rows|
      invariant Run(rows[..i], p) == Success(Progress(Running(offset, bar, base), notes))
    {
      var row := rows[i];
      ghost var st := Running(offset, bar, base);
      RunStep(rows, i, p, st, notes);
      if |row| == 0 || (|row[0]| > 0 && row[0][0] == '#') {
        assert Step(st, row, p) == Success(StepOut(st, None));
        i := i + 1;
        continue;
      }
      if row[0] == "SET" {
        if |row| < 2 {
          FailsAtRow(rows, i, p, st, notes, MissingField);
          return Failure(ParseError(i, MissingField));
        }
        if row[1] == "BAR" || row[1] == "BASE" {
          if |row| < 3 {
            FailsAtRow(rows, i, p, st, notes, MissingField);
            return Failure(ParseError(i, MissingField));
          }
          match p.parseInt(row[2]) {
            case None =>
              FailsAtRow(rows, i, p, st, notes, BadInt);
              return Failure(ParseError(i, BadInt));
            case Some(v) =>
              if row[1] == "BAR" {
                bar := v;
              } else {
                base := v;
              }
          }
        }
        assert Step(st, row, p) == Success(StepOut(Running(offset, bar, base), None));
        i := i + 1;
        continue;
      }
      if row == ["-"] {
        offset := offset + bar;
        assert Step(st, row, p) == Success(StepOut(Running(offset, bar, base), None));
        i := i + 1;
        continue;
      }
      var pitch := p.parseInt(row[0]);
      if pitch.None? {
        FailsAtRow(rows, i, p, st, notes, BadInt);
        return Failure(ParseError(i, BadInt));
      }
      if |row| < 2 {
        FailsAtRow(rows, i, p, st, notes, MissingField);
        return Failure(ParseError(i, MissingField));
      }
      var start := p.parseFloat(row[1]);
      if start.None? {
        FailsAtRow(rows, i, p, st, notes, BadFloat);
        return Failure(ParseError(i, BadFloat));
      }
      if |row| < 3 {
        FailsAtRow(rows, i, p, st, notes, MissingField);
        return Failure(ParseError(i, MissingField));
      }
      var duration := p.parseFloat(row[2]);
      if duration.None? {
        FailsAtRow(rows, i, p, st, notes, BadFloat);
        return Failure(ParseError(i, BadFloat));
      }
      var note := Note(base + pitch.value, offset as real + start.value, duration.value);
      assert Step(st, row, p) == Success(StepOut(st, Some(note)));
      notes := notes + [note];
      i := i + 1;
    }
    assert rows[..i] == rows;
    assert Run(rows, p) == Success(Progress(Running(offset, bar, base), notes));
    return Success(notes);
  }
  // ---------------------------------------------------------------------------
  // What one row does

  /** A row produces a note exactly when it is a note row. */
  lemma StepEmits(st: Running, row: Row, p: NumberParsers)
    requires Step(st, row, p).Success?
    ensures Step(st, row, p).value.note.Some? <==> IsNoteRow(row)
  {
  }

  /** Whether a row fails, and how, does not depend on the running variables. */
  lemma StepErrorsAreLocal(st1: Running, st2: Running, row: Row, p: NumberParsers)
    ensures Step(st1, row, p).Failure? <==> Step(st2, row, p).Failure?
    ensures Step(st1, row, p).Failure? ==> Step(st1, row, p).error == Step(st2, row, p).error
  {
  }

  /** Rows that are not notes: blank rows and comments change nothing; `SET,BAR`
      and `SET,BASE` change only the bar length or the base pitch, another SET key
      changes nothing; a bar break only advances the offset by the bar length. */
  lemma ControlRowEffect(st: Running, row: Row, p: NumberParsers)
    requires !IsNoteRow(row) && Step(st, row, p).Success?
    ensures Step(st, row, p).value.note == None
    ensures IsSkipped(row) ==> Step(st, row, p).value.state == st
    ensures SetsBar(row) ==> Step(st, row, p).value.state == st.(bar := p.parseInt(row[2]).value)
    ensures IsSet(row) && row[1] == "BASE" ==> Step(st, row, p).value.state == st.(base := p.parseInt(row[2]).value)
    ensures IsSet(row) && row[1] != "BAR" && row[1] != "BASE" ==> Step(st, row, p).value.state == st
    ensures IsBarBreak(row) ==> Step(st, row, p).value.state == st.(offset := st.offset + st.bar)
  {
  }

  /** A SET row fails with MissingField exactly when it lacks the key field, or is
      a BAR or BASE row without a value field; it fails with BadInt exactly when
      it is a BAR or BASE row whose value int() rejects; otherwise it succeeds. */
  lemma SetRowEffect(st: Running, row: Row, p: NumberParsers)
    requires IsSet(row)
    ensures Step(st, row, p) == Failure(MissingField) <==>
              |row| < 2 || ((row[1] == "BAR" || row[1] == "BASE") && |row| < 3)
    ensures Step(st, row, p) == Failure(BadInt) <==>
              |row| >= 3 && (row[1] == "BAR" || row[1] == "BASE") && p.parseInt(row[2]).None?
    ensures Step(st, row, p).Success? <==>
              |row| >= 2 && (row[1] == "BAR" || row[1] == "BASE" ==> |row| >= 3 && p.parseInt(row[2]).Some?)
  {
    assert row[0][0] == 'S';
  }

  /** A note row succeeds exactly when it has three fields that convert, and then
      it plays at the base pitch plus its pitch, from the current offset plus its
      start, and leaves the running variables as they are. A failing note row
      fails at the first field read, left to right, that is missing or does not
      convert: a bad pitch is BadInt, a missing field MissingField, a bad start
      or duration BadFloat. */
  lemma NoteRowEffect(st: Running, row: Row, p: NumberParsers)
    requires IsNoteRow(row)
    ensures Step(st, row, p) == Failure(BadInt) <==> p.parseInt(row[0]).None?
    ensures Step(st, row, p) == Failure(MissingField) <==>
              p.parseInt(row[0]).Some? && (|row| < 2 || (p.parseFloat(row[1]).Some? && |row| < 3))
    ensures Step(st, row, p) == Failure(BadFloat) <==>
              p.parseInt(row[0]).Some? && |row| >= 2 &&
              (p.parseFloat(row[1]).None? || (|row| >= 3 && p.parseFloat(row[2]).None?))
    ensures Step(st, row, p).Success? <==>
              |row| >= 3 && p.parseInt(row[0]).Some? &&
              p.parseFloat(row[1]).Some? && p.parseFloat(row[2]).Some?
    ensures Step(st, row, p).Success? ==>
              Step(st, row, p).value ==
                StepOut(st, Some(Note(st.base + p.parseInt(row[0]).value,
                                      st.offset as real + p.parseFloat(row[1]).value,
                                      p.parseFloat(row[2]).value)))
  {
  }

  // ---------------------------------------------------------------------------
  // What a whole script does

  /** A script that parses has every prefix parse, and the notes of a prefix are a
      prefix of its notes: notes come out in row order and are never revised. */
  lemma {:induction false} RunPrefix(rows: seq<Row>, k: nat, p: NumberParsers)
    requires k <= |rows| && Run(rows, p).Success?
    ensures Run(rows[..k], p).Success?
    ensures Run(rows[..k], p).value.notes <= Run(rows, p).value.notes
    decreases |rows| - k
  {
    if k == |rows| {
      assert rows[..k] == rows;
    } else {
      if Run(rows[..k], p).Failure? {
        FailurePersists(rows, k, p);
      }
      RunPrefix(rows, k + 1, p);
      RunSnoc(rows, k, p);
    }
  }

  /** A script that parses has exactly one note per note row. */
  lemma {:induction false} RunNoteCount(rows: seq<Row>, p: NumberParsers)
    requires Run(rows, p).Success?
    ensures |Run(rows, p).value.notes| == CountNoteRows(rows)
    decreases |rows|
  {
    if rows != [] {
      var k := |rows| - 1;
      RunNoteCount(rows[..k], p);
      StepEmits(Run(rows[..k], p).value.state, rows[k], p);
    }
  }

  /** The note of note row i is the next note after those of the rows before it,
      computed with the running variables in effect just before row i. */
  lemma NoteOfRow(rows: seq<Row>, i: nat, p: NumberParsers)
    requires i < |rows| && IsNoteRow(rows[i]) && Run(rows, p).Success?
    ensures Run(rows[..i], p).Success?
    ensures var st := Run(rows[..i], p).value.state;
            var notes := Run(rows, p).value.notes;
            var row := rows[i];
            |row| >= 3 && p.parseInt(row[0]).Some? &&
            p.parseFloat(row[1]).Some? && p.parseFloat(row[2]).Some? &&
            CountNoteRows(rows[..i]) < |notes| &&
            notes[CountNoteRows(rows[..i])] ==
              Note(st.base + p.parseInt(row[0]).value,
                   st.offset as real + p.parseFloat(row[1]).value,
                   p.parseFloat(row[2]).value)
  {
    RunPrefix(rows, i, p);
    RunPrefix(rows, i + 1, p);
    RunSnoc(rows, i, p);
    var st := Run(rows[..i], p).value.state;
    NoteRowEffect(st, rows[i], p);
    RunNoteCount(rows[..i], p);
  }

  /** A script fails with error e exactly when the rows before row e.row parse and
      row e.row fails with e's kind: the error reported is the first one. */
  lemma {:induction false} FirstError(rows: seq<Row>, p: NumberParsers, e: ParseError)
    ensures Run(rows, p) == Failure(e) <==>
              e.row < |rows| && Run(rows[..e.row], p).Success? &&
              Step(Run(rows[..e.row], p).value.state, rows[e.row], p) == Failure(e.kind)
    decreases |rows|
  {
    if e.row < |rows| && Run(rows[..e.row], p).Success? &&
       Step(Run(rows[..e.row], p).value.state, rows[e.row], p) == Failure(e.kind) {
      RunSnoc(rows, e.row, p);
      FailurePersists(rows, e.row + 1, p);
    }
    if Run(rows, p) == Failure(e) {
      var k := |rows| - 1;
      if Run(rows[..k], p).Failure? {
        FirstError(rows[..k], p, e);
        assert rows[..k][..e.row] == rows[..e.row];
      }
    }
  }

  /** Without a `SET,BAR` row the bar length stays 0, so bar breaks leave the
      offset at 0. */
  lemma {:induction false} DefaultsWithoutBar(rows: seq<Row>, p: NumberParsers)
    requires forall i :: 0 <= i < |rows| ==> !SetsBar(rows[i])
    requires Run(rows, p).Success?
    ensures Run(rows, p).value.state.bar == 0 && Run(rows, p).value.state.offset == 0
    decreases |rows|
  {
    if rows != [] {
      var k := |rows| - 1;
      DefaultsWithoutBar(rows[..k], p);
      var st := Run(rows[..k], p).value.state;
      if IsNoteRow(rows[k]) {
        NoteRowEffect(st, rows[k], p);
      } else {
        ControlRowEffect(st, rows[k], p);
      }
    }
  }

  // ---------------------------------------------------------------------------
  // From notes to MIDI events

  /** The NOTE_ON and NOTE_OFF events of the notes, in note order. */
  function Expand(notes: seq<Note>): (r: seq<MidiEvent>)
    ensures |r| == 2 * |notes|
    ensures forall i :: 0 <= i < |notes| ==>
              r[2 * i] == MidiEvent(notes[i].start, NoteOn, notes[i].pitch) &&
              r[2 * i + 1] == MidiEvent(notes[i].start + notes[i].duration, NoteOff, notes[i].pitch)
  {
    if notes == [] then
      []
    else
      var n := notes[0];
      [MidiEvent(n.start, NoteOn, n.pitch), MidiEvent(n.start + n.duration, NoteOff, n.pitch)] +
      Expand(notes[1..])
  }

  /** The MIDI events of a script: the expansion of its notes, sorted. */
  function MidiEvents(notes: seq<Note>): (r: seq<MidiEvent>)
    ensures Sorted(r)
    ensures multiset(r) == multiset(Expand(notes))
    ensures |r| == 2 * |notes|
  {
    SortEvents(Expand(notes))
  }

  /** MidiEvents is the only sorted arrangement of the expansion, so it is what
      any correct sort of the expansion returns. */
  lemma MidiEventsIsTheSort(notes: seq<Note>, s: seq<MidiEvent>)
    requires Sorted(s) && multiset(s) == multiset(Expand(notes))
    ensures s == MidiEvents(notes)
  {
    SortedUnique(s, MidiEvents(notes));
  }

  /** Every note sounds: its NOTE_ON at its start and its NOTE_OFF at its end are
      among the MIDI events. */
  lemma NoteSounds(notes: seq<Note>, i: nat)
    requires i < |notes|
    ensures MidiEvent(notes[i].start, NoteOn, notes[i].pitch) in MidiEvents(notes)
    ensures MidiEvent(notes[i].start + notes[i].duration, NoteOff, notes[i].pitch) in MidiEvents(notes)
  {
    var x := Expand(notes);
    assert x[2 * i] in multiset(x) && x[2 * i + 1] in multiset(x);
    assert x[2 * i] in multiset(MidiEvents(notes)) && x[2 * i + 1] in multiset(MidiEvents(notes));
  }
}
