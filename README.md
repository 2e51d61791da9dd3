# Musical keyboard: key map and script timeline

This project models the algorithmic core of a program that plays music from a computer keyboard.
The model is written in Dafny and its properties are proved.

- **Key map** (`keymap.dfy`, class `KeyMap` of `src/keymap.py`). Two rows of keyboard keys are laid out like the white and black keys of a piano.
  - A key map is calibrated by the MIDI pitch of the first white-row key.
  - Construction rejects a calibration pitch that is not a white key (`InvalidOffsetValue`). Otherwise it stores the diatonic position of that key (7 positions per octave).
  - `GetNote` turns a key into a pitch. A black-row key on one of the two holes of the black-key table gives `None`, and so does a key in neither row.
- **Events** (`midi_event.dfy`, class `MidiEvent`). A MIDI event is a time in beats, a name (NOTE_ON or NOTE_OFF) and a note.
  - Events are ordered lexicographically by (time, rank of name, note), with NOTE_OFF ranked first.
  - Python's `sorted` is modelled by an insertion sort. Since the order is a strict total order, the sorted arrangement is unique (`SortedUnique`), so this is what any correct sort returns.
- **Script** (`script.dfy`, class `Script`). A CSV script is read row by row with three running variables: the time offset, the bar length and the base pitch.
  - Rows are comments, blank rows, `SET,BAR,n`, `SET,BASE,n`, bar breaks `-`, or notes `pitch,start,duration`.
  - `ParseNotes` is the loop of the original. It is proved equal to the fold `Notes`/`Run`, and the properties of that fold are proved as lemmas.
  - `MidiEvents` expands each note into a NOTE_ON at its start and a NOTE_OFF at its end, then sorts the result.
- **Cursor and player** (`renderer.dfy`, classes `AbstractScriptRenderer` and `ScriptPlayer`).
  - `ScriptCursor` keeps the index of the next event and the repeat offset.
  - `GetNewMidiEvents` plays every event due at a timestamp. It is proved equal to the functional `Poll`, and `Poll`'s properties are lemmas.
  - Ghost fields record every event played so far and the number of completed repetitions. `Valid()` ties them to the real fields.
  - `ScriptPlayer.Update` passes the due events to the MIDI output. Here the output is the sequence `sent`.

Times are `real` numbers. The conversions `int()` and `float()` are parameters of the parser (`NumberParsers`): each is a partial function returning `None` where the original raises `ValueError`. A field index past the end of a row, where the original raises `IndexError`, is the error `MissingField`. A parse error carries the index of the failing row; the original raises without one.

The program's test and one of its callers use a key-from-pitch method `get_key` and a calibration keyword and attribute `z_note` (tests/test_keymap.py:4-13, src/script.py:279-281). The key-map class in src/keymap.py defines neither: it has only `a_note` and `get_note`. The model follows src/keymap.py. It states the round trip that the test expects as injectivity of `GetNote` (`GetNoteInjective`): two keys that give the same pitch are the same key.

## Model

| member | source | states |
|---|---|---|
| Keymap.NewKeyMap | src/keymap.py:50-57 | fails with InvalidOffsetValue exactly when the calibration pitch mod 12 is not a white-key semitone; otherwise the offset's slot in the white table holds that semitone and its octave (floor division by 7) is the pitch's octave (floor division by 12) |
| Keymap.IndexOf | src/keymap.py:57 | tuple.index: the first position at which the value occurs |
| Keymap.SlotClass | src/keymap.py:40-45 | every white slot holds a white semitone; each black slot is the white slot's semitone plus one, except slots 2 and 6, which are holes |
| Keymap.WhitePitchClass | src/keymap.py:70-74 | the white-row formula always gives a white pitch, and one semitone above it is black wherever the slot is not 2 or 6 |
| Keymap.WhitePitchStep | src/keymap.py:40-42 | neighbouring columns of the white-row formula differ by 1 or 2 semitones |
| Keymap.WhitePitchIncreasing | src/keymap.py:70-74 | the white-row formula is strictly increasing in the column |
| Keymap.BlackPitchFormula | src/keymap.py:63-74 | the black-row formula at column c is None when slot (c - 1 + offset) mod 7 is 2 or 6, and otherwise one more than the white-row formula at c - 1; it always gives a black pitch |
| Keymap.BlackPitchIncreasing | src/keymap.py:63-74 | the black-row formula is strictly increasing over the columns where it gives a pitch |
| Keymap.Lookup | src/keymap.py:70-74 | the slot (position mod 7) of a table decides whether there is a pitch; a slot holding semitone n gives a pitch whose pitch class is n and whose octave is the position's octave (floor division by 7) |
| Keymap.PrimaryColumn | src/keymap.py:60-61 | None exactly when the key is not in the primary row; otherwise a column that holds the key |
| Keymap.SecondaryColumn | src/keymap.py:63-64 | None exactly when the key is not in the secondary row; otherwise a column that holds the key |
| Keymap.GetNote | src/keymap.py:59-74 | a key in neither row gives None, a primary-row key always gives a white pitch, a secondary-row key gives a black pitch when it gives one; the exact pitches are pinned by Calibration, PrimaryRowPitch, SecondaryRowPitch, UnmappedKey and GetNoteInjective |
| Keymap.RowsDistinct | src/keymap.py:12-38 | no key occurs twice in either row |
| Keymap.ColumnKey | src/keymap.py:12-38 | a key's column locates that key in its row, and no key has a column in both rows |
| Keymap.RowsDisjoint | src/keymap.py:12-38 | no key is in both rows, so the primary-row test never hides a secondary-row key |
| Keymap.PrimaryColumnIsIndex | src/keymap.py:60-61 | the column lookup is the membership test plus tuple.index on the primary row |
| Keymap.SecondaryColumnIsIndex | src/keymap.py:63-65 | the column lookup is the membership test plus tuple.index on the secondary row |
| Keymap.PrimaryKeyPitch | src/keymap.py:60-62 | a primary-row key gives the white-row formula at its column |
| Keymap.SecondaryKeyPitch | src/keymap.py:63-66 | a secondary-row key gives the black-row formula at its column |
| Keymap.PrimaryRowPitch | src/keymap.py:59-74 | every primary-row key gives a pitch, namely the white-row formula at its column |
| Keymap.SecondaryRowPitch | src/keymap.py:63-74 | the secondary key at column i gives None iff (i - 1 + offset) mod 7 is 2 or 6, and otherwise one more than the white-row formula at column i - 1 |
| Keymap.UnmappedKey | src/keymap.py:67-68 | a key in neither row gives None |
| Keymap.Calibration | src/keymap.py:50-74 | for every valid calibration pitch, the first primary-row key gives exactly that pitch |
| Keymap.PrimaryRowIncreasing | src/keymap.py:59-74 | primary-row pitches rise strictly along the row, by 1 or 2 semitones per key |
| Keymap.SecondaryRowIncreasing | src/keymap.py:63-74 | secondary-row pitches rise strictly along the row, over the keys that give a pitch |
| Keymap.ColumnClass | src/keymap.py:59-74 | a pitched key has a primary column iff its pitch is white, and a secondary column iff its pitch is black |
| Keymap.GetNoteClass | src/keymap.py:59-74 | a pitched key is in the primary row iff its pitch is white, and in the secondary row iff its pitch is black |
| Keymap.PrimaryKeysInjective | src/keymap.py:60-62 | two primary-row keys with the same pitch are the same key |
| Keymap.SecondaryKeysInjective | src/keymap.py:63-66 | two secondary-row keys with the same pitch are the same key |
| Keymap.GetNoteInjective | tests/test_keymap.py:4-13 | any two keys that give the same pitch are the same key, which is what the key-from-pitch round trip needs |
| Events.Rank | src/script.py:18-21 | NOTE_OFF has rank 0 and NOTE_ON rank 1 |
| Events.Less | src/script.py:30-35 | an event before another is no later and differs from it; an earlier time always comes first, at equal time a NOTE_OFF comes before a NOTE_ON, and at equal time and name the lower note comes first; LessStrictTotalOrder proves it is a strict total order |
| Events.LessStrictTotalOrder | src/script.py:30-35 | the (time, rank, note) order is irreflexive, transitive, asymmetric and total on distinct events |
| Events.LessEqOrder | src/script.py:30-35 | the reflexive closure of the order is transitive and antisymmetric |
| Events.Insert | src/script.py:74 | inserting into a sorted list keeps it sorted and adds exactly one copy of the event |
| Events.SortEvents | src/script.py:74 | the result of sorted(): a sorted permutation of its input |
| Events.SortedUnique | src/script.py:74 | two sorted lists with the same elements are equal, so sorted() has one possible result |
| Events.SortedEventOrder | src/script.py:16-35 | in a sorted list times never decrease, and at equal time every NOTE_OFF precedes every NOTE_ON |
| Script.Step | src/script.py:53-71 | one row: blank, comment and bar-break rows never fail, a row read without error yields a note iff it is a note row, and only a bar break moves the offset; the cases are pinned by ControlRowEffect, SetRowEffect, NoteRowEffect and StepErrorsAreLocal |
| Script.SetRowEffect | src/script.py:56-61 | a SET row fails with MissingField iff it has under 2 fields or is a BAR or BASE row with under 3; with BadInt iff it is a BAR or BASE row with 3 fields whose value is not an integer; and succeeds otherwise |
| Script.Run | src/script.py:44-71 | the fold over the rows; a failure names a row that exists |
| Script.Notes | src/script.py:44-71 | the parsed notes, one per note row, or the error of a row that exists; FirstError and NoteOfRow pin which error and which notes |
| Script.RunStep | src/script.py:52-71 | reading one more row continues the fold with that row's step: its error at that row's index, or its new variables and its note appended |
| Script.FailsAtRow | src/script.py:52-71 | a row that fails after the rows before it parsed makes the whole script fail with that row's index and error |
| Script.ParseNotes | src/script.py:44-71 | the row loop updating offset, bar and base returns exactly the notes of the fold, or its first error |
| Script.FailurePersists | src/script.py:52-71 | once a row fails, the whole script fails with that error |
| Script.StepEmits | src/script.py:53-71 | a row that is read without error yields a note iff it is a note row |
| Script.StepErrorsAreLocal | src/script.py:56-71 | whether a row fails, and with which error, does not depend on the running variables |
| Script.ControlRowEffect | src/script.py:53-65 | blank and comment rows change nothing; SET,BAR and SET,BASE change only the bar or base; other SET keys change nothing; a bar break only adds the bar to the offset; none of them yields a note |
| Script.NoteRowEffect | src/script.py:67-71 | a note row succeeds iff it has three fields that convert, and then yields (base + pitch, offset + start, duration) and leaves the running variables unchanged; otherwise it fails at the first field read left to right: BadInt iff the pitch does not convert, MissingField iff the pitch converts and the start is missing, or the start converts and the duration is missing, BadFloat iff a present start or duration does not convert |
| Script.RunPrefix | src/script.py:52-71 | when a script parses, every prefix parses, and a prefix's notes are a prefix of the script's notes |
| Script.RunNoteCount | src/script.py:52-71 | a script that parses has exactly one note per note row |
| Script.NoteOfRow | src/script.py:67-71 | the note of note row i is at position (number of note rows before i) and uses the running variables in effect just before row i |
| Script.FirstError | src/script.py:52-71 | a script fails with error e iff the rows before e.row parse and row e.row fails with e's kind |
| Script.DefaultsWithoutBar | src/script.py:45-65 | without a SET,BAR row the bar length and the offset stay 0, so bar breaks move nothing |
| Script.Expand | src/script.py:75-86 | each note i becomes a NOTE_ON at its start (position 2i) and a NOTE_OFF at start + duration (position 2i + 1); the length is twice the number of notes |
| Script.MidiEvents | src/script.py:73-86 | the events are sorted, a permutation of the expansion, and twice as many as the notes |
| Script.MidiEventsIsTheSort | src/script.py:73-86 | any sorted permutation of the expansion equals MidiEvents |
| Script.NoteSounds | src/script.py:76-86 | every note's NOTE_ON at its start and NOTE_OFF at its end are among the events |
| Renderer.ScriptTime | src/script.py:109-110 | for a non-zero bps, script time is the timestamp converted back by the inverse (script time + repeat offset) / bps |
| Renderer.Poll | src/script.py:127-139 | one poll of the cursor: the index stays within the events, and without repeat the repeat offset stays; what it plays and where it leaves the cursor is pinned by PollPlaysDueRun, PollWhenFinished, PollWithoutRepeat, PollWrapsAround, PollStopsAt and PollAtEnd |
| Renderer.PlayedRunAccounted | src/script.py:132-134 | playing the run from the index up to k keeps the history accounted as full repetitions followed by the events before the index, now k |
| Renderer.DueEnd | src/script.py:131-134 | the due run from an index: every event before the result is due, and the event at the result, if any, is not |
| Renderer.DueEndSorted | src/script.py:131-134 | in a sorted list, an event from the start index on lies before the end of the due run iff it is due |
| Renderer.DueRunEnd | src/script.py:132-134 | a run of due events that ends at the list's end or at an event not yet due is exactly the due run |
| Renderer.PollPlaysDueRun | src/script.py:127-139 | a poll plays a contiguous run of events in order, each due at the poll's script time; if it stops before the end, the next event is not due and the index rests there |
| Renderer.PollWhenFinished | src/script.py:128-129 | a finished cursor plays nothing and changes nothing |
| Renderer.PollWithoutRepeat | src/script.py:127-139 | without repeat the index never decreases or passes the end, the repeat offset stays, and the poll plays exactly the events between the old and the new index |
| Renderer.PollWrapsAround | src/script.py:123-139 | with repeat, the poll that plays the last event resets the index to 0 and adds the last event's time plus delay times bps to the repeat offset; otherwise the offset stays |
| Renderer.PollRepeatNeverFinishes | src/script.py:136-139 | with repeat, a poll never leaves the index at the end of a non-empty list |
| Renderer.PollStopsAt | src/script.py:132-134 | a poll whose due run stops at an event leaves the cursor on that event |
| Renderer.PollAtEnd | src/script.py:136-139 | a poll that plays the last event stays at the end, or starts over when repeating |
| Renderer.ScriptCursor.constructor | src/script.py:93-107 | bps is bpm / 60, the index starts at 0, the repeat offset at delay times bps, so script time is 0 at the delay |
| Renderer.ScriptCursor.GetScriptTime | src/script.py:109-110 | for a non-zero bps, converting the script time back to game time gives the timestamp |
| Renderer.ScriptCursor.Finished | src/script.py:119-121 | for a valid cursor, finished exactly when the index is at the end of the events; a repeating cursor with events is never finished |
| Renderer.ScriptCursor.GetGameTime | src/script.py:112-113 | there is no game time exactly when bps is 0, where the original divides by zero |
| Renderer.ScriptCursor.Repeat | src/script.py:123-125 | the index goes back to 0 and the repeat offset grows by the last event's time plus delay times bps |
| Renderer.ScriptCursor.GetNewMidiEvents | src/script.py:127-139 | plays exactly what Poll says, leaves the state Poll gives, and appends the played events to the history |
| Renderer.TimeRoundTrip | src/script.py:109-113 | for a non-zero bps and a fixed repeat offset, game time of script time is the identity, and script time of game time too |
| Renderer.PlayedWithoutRepeat | src/script.py:119-139 | without repeat, everything played so far is the prefix of the events before the index, each event once |
| Renderer.ScriptPlayer.constructor | src/script.py:143-158 | a player starts on a fresh cursor over the sorted events of the notes and has sent nothing |
| Renderer.ScriptPlayer.Update | src/script.py:160-162 | sends exactly the events of one poll, in order, and moves the cursor to Poll's new state |

## Left out

- File opening and `csv.reader`: the parser takes rows that are already split into fields.
- `int()` and `float()`: they are parameters of the parser. The model does not fix which strings they accept.
- Floating-point rounding: times are exact reals.
- The `cached_property` and `returns` decorators: notes and events are plain functions of the rows, computed once.
- `Script.init`: it only forces the cached events. The player takes the parsed notes, because the program parses the script before it builds any player.
- The cursor's generator is consumed in full, as `ScriptPlayer.update` does. Stopping part-way through a generator is not modelled.
- `MidiEvent.__call__`, `MidiOutput` and the pygame MIDI device: sending an event to the output is appending it to `sent`.
- `ScriptRenderer`: font and surface drawing, pixel positions and glyph tables. It also relies on a key-from-pitch lookup that the key map does not have.
- `get_key`, `z_note` and `KeyboardPlayer`: they are not part of the key-map class as written, so they are not modelled. `GetNoteInjective` states what the round trip needs.
- The pygame key constants: keys are the constructors of `Key`, with `OtherKey` for every key outside the two rows.
- The application loop, argument parsing and mode selection in `src/main.py`.
- Renderer.ScriptCursor.GetGameTime: states only when a result exists. What the result is, is stated by `TimeRoundTrip`.
- Script.Run: its own contract states only where an error can be. What it computes is stated by the lemmas about it and by `ParseNotes`.
