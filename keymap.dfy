/** The keyboard-to-pitch mapping of a piano layout (class KeyMap of src/keymap.py).

    The primary row of keys plays the white keys of a piano and the secondary row,
    placed half a key to the left, the black keys. A key map is calibrated by the
    MIDI pitch of the first primary-row key; internally it keeps that key's
    position on an infinite diatonic scale with 7 positions per octave. */
module Keymap {
  import opened Wrappers

  /** A keyboard key. The keys of the two rows are named; every other key
      (any other pygame key constant) is an OtherKey. An OtherKey carries only
      codes of keys outside both rows: the code of the A key, say, is KeyA and
      never OtherKey. */
  datatype Key =
    | KeyA | KeyS | KeyD | KeyF | KeyG | KeyH | KeyJ | KeyK | KeyL | KeySemicolon | KeyQuote
    | KeyQ | KeyW | KeyE | KeyR | KeyT | KeyY | KeyU | KeyI | KeyO | KeyP
    | KeyLeftBracket | KeyRightBracket
    | OtherKey(code: int)

  /** The row of white keys, left to right. */
  const KeyboardPrimary: seq<Key> :=
    [KeyA, KeyS, KeyD, KeyF, KeyG, KeyH, KeyJ, KeyK, KeyL, KeySemicolon, KeyQuote]

  /** The row of black keys, left to right; it starts half a key left of KeyboardPrimary. */
  const KeyboardSecondary: seq<Key> :=
    [KeyQ, KeyW, KeyE, KeyR, KeyT, KeyY, KeyU, KeyI, KeyO, KeyP, KeyLeftBracket, KeyRightBracket]

  /** Semitone within the octave of each of the 7 diatonic positions, white keys. */
  const SequencePrimary: seq<Option<int>> :=
    [Some(0), Some(2), Some(4), Some(5), Some(7), Some(9), Some(11)]

  /** The same for black keys; positions 2 and 6 have no black key to their right. */
  const SequenceSecondary: seq<Option<int>> :=
    [Some(1), Some(3), None, Some(6), Some(8), Some(10), None]

  datatype KeyMapError = InvalidOffsetValue

  /** A calibrated key map: posOffset is the diatonic position of KeyboardPrimary[0]. */
  datatype KeyMap = KeyMap(posOffset: int)

  /** A pitch whose semitone within the octave is that of a white key. */
  predicate IsWhite(pitch: int) {
    pitch % 12 in {0, 2, 4, 5, 7, 9, 11}
  }

  /** A pitch whose semitone within the octave is that of a black key. */
  predicate IsBlack(pitch: int) {
    pitch % 12 in {1, 3, 6, 8, 10}
  }

  /** The first index at which x occurs in s (Python's tuple.index). */
  function IndexOf<T(==)>(s: seq<T>, x: T): (i: nat)
    requires x in s
    ensures i < |s| && s[i] == x
    ensures forall j :: 0 <= j < i ==> s[j] != x
  {
    IndexFrom(s, x, 0)
  }

  /** The first index at or after k at which x occurs in s. */
  function IndexFrom<T(==)>(s: seq<T>, x: T, k: nat): (i: nat)
    requires k <= |s| && x in s[k..]
    ensures k <= i < |s| && s[i] == x
    ensures forall j :: k <= j < i ==> s[j] != x
    decreases |s| - k
  {
    if s[k] == x then k else IndexFrom(s, x, k + 1)
  }

  /** Validates the calibration pitch aNote and computes the diatonic offset. */
  function NewKeyMap(aNote: int): (r: Result<KeyMap, KeyMapError>)
    ensures r.Failure? <==> !IsWhite(aNote)
    ensures r.Success? ==>
              SequencePrimary[r.value.posOffset % 7] == Some(aNote % 12) &&
              r.value.posOffset / 7 == aNote / 12
  {
    var seqPosOffset := aNote % 12;
    if Some(seqPosOffset) !in SequencePrimary then
      Failure(InvalidOffsetValue)
    else
      var i := IndexOf(SequencePrimary, Some(seqPosOffset));
      DiatonicSplit(i, aNote / 12);
      Success(KeyMap(i + 7 * (aNote / 12)))
  }

  /** The pitch of diatonic position absPos in a 7-slot table, or None at a hole. */
  function Lookup(table: seq<Option<int>>, absPos: int): (r: Option<int>)
    requires |table| == 7
    ensures r.None? <==> table[absPos % 7].None?
    ensures r.Some? && 0 <= table[absPos % 7].value < 12 ==>
              r.value % 12 == table[absPos % 7].value && r.value / 12 == absPos / 7
  {
    match table[absPos % 7]
    case None => None
    case Some(semitone) =>
      if 0 <= semitone < 12 then OctaveSplit(semitone, absPos / 7); Some(semitone + (absPos / 7) * 12)
      else Some(semitone + (absPos / 7) * 12)
  }

  /** The column of a key in KeyboardPrimary, or None when the key is not in that row
      (the membership test and tuple.index of the original; see PrimaryColumnIsIndex). */
  function PrimaryColumn(key: Key): (r: Option<nat>)
    ensures r.Some? ==> r.value < |KeyboardPrimary| && KeyboardPrimary[r.value] == key
    ensures r.None? <==> key !in KeyboardPrimary
  {
    match key
    case KeyA => Some(0)
    case KeyS => Some(1)
    case KeyD => Some(2)
    case KeyF => Some(3)
    case KeyG => Some(4)
    case KeyH => Some(5)
    case KeyJ => Some(6)
    case KeyK => Some(7)
    case KeyL => Some(8)
    case KeySemicolon => Some(9)
    case KeyQuote => Some(10)
    case _ => None
  }

  /** The column of a key in KeyboardSecondary, or None (see SecondaryColumnIsIndex). */
  function SecondaryColumn(key: Key): (r: Option<nat>)
    ensures r.Some? ==> r.value < |KeyboardSecondary| && KeyboardSecondary[r.value] == key
    ensures r.None? <==> key !in KeyboardSecondary
  {
    match key
    case KeyQ => Some(0)
    case KeyW => Some(1)
    case KeyE => Some(2)
    case KeyR => Some(3)
    case KeyT => Some(4)
    case KeyY => Some(5)
    case KeyU => Some(6)
    case KeyI => Some(7)
    case KeyO => Some(8)
    case KeyP => Some(9)
    case KeyLeftBracket => Some(10)
    case KeyRightBracket => Some(11)
    case _ => None
  }

  /** The pitch of a key, or None for a key in neither row or on a hole of the black row. */
  function GetNote(km: KeyMap, key: Key): (r: Option<int>)
    ensures key !in KeyboardPrimary && key !in KeyboardSecondary ==> r == None
    ensures key in KeyboardPrimary ==> r.Some? && IsWhite(r.value)
    ensures key in KeyboardSecondary && r.Some? ==> IsBlack(r.value)
  {
    ColumnKey(key);
    match PrimaryColumn(key)
    case Some(relPos) =>
      SlotClass((relPos + km.posOffset) % 7);
      WhitePitchClass(km, relPos);
      Lookup(SequencePrimary, relPos + km.posOffset)
    case None =>
      match SecondaryColumn(key)
      // - 1: the secondary row is half a key to the left of the primary row
      case Some(col) =>
        BlackPitchFormula(km, col);
        Lookup(SequenceSecondary, col - 1 + km.posOffset)
      case None => None
  }

  /** The primary-row formula of GetNote at any column, inside the row or not. */
  function WhitePitch(km: KeyMap, col: int): int {
    var absPos := col + km.posOffset;
    SequencePrimary[absPos % 7].value + (absPos / 7) * 12
  }

  /** The secondary-row formula of GetNote at any column: the black key half a
      column to the left, which is None on a hole. */
  function BlackPitch(km: KeyMap, col: int): Option<int> {
    Lookup(SequenceSecondary, col - 1 + km.posOffset)
  }

  // ---------------------------------------------------------------------------
  // Arithmetic of diatonic positions

  /** A position splits uniquely into a slot and an octave. */
  lemma DiatonicSplit(slot: int, octave: int)
    requires 0 <= slot < 7
    ensures (slot + 7 * octave) % 7 == slot && (slot + 7 * octave) / 7 == octave
  {
    var p := slot + 7 * octave;
    assert p == 7 * octave + slot;
  }

  /** A pitch splits uniquely into a semitone and an octave. */
  lemma OctaveSplit(semitone: int, octave: int)
    requires 0 <= semitone < 12
    ensures (semitone + octave * 12) % 12 == semitone && (semitone + octave * 12) / 12 == octave
  {
    var p := semitone + octave * 12;
    assert p == 12 * octave + semitone;
  }

  /** Every slot of the white table holds a white semitone; the black table holds
      the semitone above it, except at the two holes. */
  lemma SlotClass(slot: int)
    requires 0 <= slot < 7
    ensures SequencePrimary[slot].Some? && IsWhite(SequencePrimary[slot].value)
    ensures SequenceSecondary[slot] ==
              if slot == 2 || slot == 6 then None else Some(SequencePrimary[slot].value + 1)
    ensures SequenceSecondary[slot].Some? ==> IsBlack(SequenceSecondary[slot].value)
  {
    if slot == 0 {
    } else if slot == 1 {
    } else if slot == 2 {
    } else if slot == 3 {
    } else if slot == 4 {
    } else if slot == 5 {
    } else {
    }
  }

  /** No pitch is both white and black. */
  lemma WhiteIsNotBlack(pitch: int)
    ensures !(IsWhite(pitch) && IsBlack(pitch))
  {
  }

  /** The white-key formula gives white pitches, and a semitone above it a black
      pitch wherever the black table has no hole. */
  lemma WhitePitchClass(km: KeyMap, col: int)
    ensures IsWhite(WhitePitch(km, col))
    ensures var slot := (col + km.posOffset) % 7;
            slot != 2 && slot != 6 ==> IsBlack(WhitePitch(km, col) + 1)
  {
    var absPos := col + km.posOffset;
    var slot := absPos % 7;
    SlotClass(slot);
    OctaveSplit(SequencePrimary[slot].value, absPos / 7);
    if slot != 2 && slot != 6 {
      OctaveSplit(SequenceSecondary[slot].value, absPos / 7);
    }
  }

  /** Neighbouring white keys are one or two semitones apart. */
  lemma WhitePitchStep(km: KeyMap, col: int)
    ensures 1 <= WhitePitch(km, col + 1) - WhitePitch(km, col) <= 2
  {
    var a := col + km.posOffset;
    var slot, octave := a % 7, a / 7;
    assert a == slot + 7 * octave;
    if slot < 6 {
      DiatonicSplit(slot + 1, octave);
    } else {
      DiatonicSplit(0, octave + 1);
    }
  }

  /** The white-key formula is strictly increasing in the column. */
  lemma {:induction false} WhitePitchIncreasing(km: KeyMap, c1: int, c2: int)
    requires c1 < c2
    ensures WhitePitch(km, c1) < WhitePitch(km, c2)
    decreases c2 - c1
  {
    WhitePitchStep(km, c1);
    if c1 + 1 < c2 {
      WhitePitchIncreasing(km, c1 + 1, c2);
    }
  }

  /** The black-key formula is a semitone above the white key one column to the
      left, or None where that white key has no black key to its right; what it
      gives is always a black pitch. */
  lemma BlackPitchFormula(km: KeyMap, col: int)
    ensures var slot := (col - 1 + km.posOffset) % 7;
            BlackPitch(km, col) == if slot == 2 || slot == 6 then None else Some(WhitePitch(km, col - 1) + 1)
    ensures BlackPitch(km, col).Some? ==> IsBlack(BlackPitch(km, col).value)
  {
    var slot := (col - 1 + km.posOffset) % 7;
    SlotClass(slot);
    WhitePitchClass(km, col - 1);
  }

  /** The black-key formula is strictly increasing over the columns where it gives a pitch. */
  lemma BlackPitchIncreasing(km: KeyMap, c1: int, c2: int)
    requires c1 < c2
    requires BlackPitch(km, c1).Some? && BlackPitch(km, c2).Some?
    ensures BlackPitch(km, c1).value < BlackPitch(km, c2).value
  {
    BlackPitchFormula(km, c1);
    BlackPitchFormula(km, c2);
    WhitePitchIncreasing(km, c1 - 1, c2 - 1);
  }

  // ---------------------------------------------------------------------------
  // The two rows

  /** No key occurs twice in a row. */
  lemma RowsDistinct()
    ensures forall i, j :: 0 <= i < j < |KeyboardPrimary| ==> KeyboardPrimary[i] != KeyboardPrimary[j]
    ensures forall i, j :: 0 <= i < j < |KeyboardSecondary| ==> KeyboardSecondary[i] != KeyboardSecondary[j]
  {
  }

  lemma IndexOfDistinct<T>(s: seq<T>, i: nat)
    requires i < |s|
    requires forall a, b :: 0 <= a < b < |s| ==> s[a] != s[b]
    ensures IndexOf(s, s[i]) == i
  {
  }

  /** The key in column i of the primary row has column i there and is not in the
      secondary row. */
  lemma PrimaryColumnOf(i: nat)
    requires i < |KeyboardPrimary|
    ensures PrimaryColumn(KeyboardPrimary[i]) == Some(i)
    ensures SecondaryColumn(KeyboardPrimary[i]) == None
  {
  }

  /** The key in column i of the secondary row has column i there and is not in the
      primary row. */
  lemma SecondaryColumnOf(i: nat)
    requires i < |KeyboardSecondary|
    ensures PrimaryColumn(KeyboardSecondary[i]) == None
    ensures SecondaryColumn(KeyboardSecondary[i]) == Some(i)
  {
  }

  /** A key with a column is the key of the row at that column, and no key has a
      column in both rows. */
  lemma ColumnKey(key: Key)
    ensures PrimaryColumn(key).Some? ==>
              PrimaryColumn(key).value < |KeyboardPrimary| &&
              KeyboardPrimary[PrimaryColumn(key).value] == key
    ensures SecondaryColumn(key).Some? ==>
              SecondaryColumn(key).value < |KeyboardSecondary| &&
              KeyboardSecondary[SecondaryColumn(key).value] == key
    ensures !(PrimaryColumn(key).Some? && SecondaryColumn(key).Some?)
  {
  }

  /** PrimaryColumn is the membership test and index lookup on the primary row. */
  lemma PrimaryColumnIsIndex(key: Key)
    ensures PrimaryColumn(key) == if key in KeyboardPrimary then Some(IndexOf(KeyboardPrimary, key)) else None
  {
    ColumnKey(key);
    if key in KeyboardPrimary {
      var i := IndexOf(KeyboardPrimary, key);
      PrimaryColumnOf(i);
      RowsDistinct();
      IndexOfDistinct(KeyboardPrimary, i);
    }
  }

  /** SecondaryColumn is the membership test and index lookup on the secondary row. */
  lemma SecondaryColumnIsIndex(key: Key)
    ensures SecondaryColumn(key) == if key in KeyboardSecondary then Some(IndexOf(KeyboardSecondary, key)) else None
  {
    ColumnKey(key);
    if key in KeyboardSecondary {
      var i := IndexOf(KeyboardSecondary, key);
      SecondaryColumnOf(i);
      RowsDistinct();
      IndexOfDistinct(KeyboardSecondary, i);
    }
  }

  /** No key is in both rows, so the primary-row test of GetNote never hides a
      secondary-row key. */
  lemma RowsDisjoint(key: Key)
    ensures !(key in KeyboardPrimary && key in KeyboardSecondary)
  {
    PrimaryColumnIsIndex(key);
    SecondaryColumnIsIndex(key);
    ColumnKey(key);
  }

  // ---------------------------------------------------------------------------
  // Properties of the mapping

  /** A primary-row key plays the white-key formula at its column. */
  lemma PrimaryKeyPitch(km: KeyMap, key: Key)
    requires PrimaryColumn(key).Some?
    ensures GetNote(km, key) == Some(WhitePitch(km, PrimaryColumn(key).value))
  {
  }

  /** A secondary-row key plays the black-key formula at its column. */
  lemma SecondaryKeyPitch(km: KeyMap, key: Key)
    requires SecondaryColumn(key).Some?
    ensures GetNote(km, key) == BlackPitch(km, SecondaryColumn(key).value)
  {
    ColumnKey(key);
  }

  /** The primary-row key in column i plays the white-key formula at column i;
      in particular every primary-row key has a pitch. */
  lemma PrimaryRowPitch(km: KeyMap, i: nat)
    requires i < |KeyboardPrimary|
    ensures GetNote(km, KeyboardPrimary[i]) == Some(WhitePitch(km, i))
  {
    PrimaryColumnOf(i);
    PrimaryKeyPitch(km, KeyboardPrimary[i]);
  }

  /** The secondary-row key in column i sounds a semitone above the white key in
      primary column i - 1, unless that white key has no black key to its right. */
  lemma SecondaryRowPitch(km: KeyMap, i: nat)
    requires i < |KeyboardSecondary|
    ensures var slot := (i - 1 + km.posOffset) % 7;
            GetNote(km, KeyboardSecondary[i]) ==
              if slot == 2 || slot == 6 then None else Some(WhitePitch(km, i - 1) + 1)
  {
    SecondaryColumnOf(i);
    SecondaryKeyPitch(km, KeyboardSecondary[i]);
    BlackPitchFormula(km, i);
  }

  /** A key in neither row has no pitch. */
  lemma UnmappedKey(km: KeyMap, key: Key)
    requires key !in KeyboardPrimary && key !in KeyboardSecondary
    ensures GetNote(km, key) == None
  {
    PrimaryColumnIsIndex(key);
    SecondaryColumnIsIndex(key);
  }

  /** Calibration: the first primary-row key plays exactly the calibration pitch. */
  lemma Calibration(aNote: int)
    requires NewKeyMap(aNote).Success?
    ensures GetNote(NewKeyMap(aNote).value, KeyboardPrimary[0]) == Some(aNote)
  {
    var km := NewKeyMap(aNote).value;
    PrimaryRowPitch(km, 0);
    assert aNote == aNote % 12 + (aNote / 12) * 12;
  }

  /** Pitches rise strictly along the primary row, by one or two semitones per key. */
  lemma PrimaryRowIncreasing(km: KeyMap, i: nat, j: nat)
    requires i < j < |KeyboardPrimary|
    ensures GetNote(km, KeyboardPrimary[i]).Some? && GetNote(km, KeyboardPrimary[j]).Some?
    ensures GetNote(km, KeyboardPrimary[i]).value < GetNote(km, KeyboardPrimary[j]).value
    ensures j == i + 1 ==>
              1 <= GetNote(km, KeyboardPrimary[j]).value - GetNote(km, KeyboardPrimary[i]).value <= 2
  {
    PrimaryRowPitch(km, i);
    PrimaryRowPitch(km, j);
    WhitePitchIncreasing(km, i, j);
    WhitePitchStep(km, i);
  }

  /** Pitches rise strictly along the secondary row, over the keys that have one. */
  lemma SecondaryRowIncreasing(km: KeyMap, i: nat, j: nat)
    requires i < j < |KeyboardSecondary|
    requires GetNote(km, KeyboardSecondary[i]).Some? && GetNote(km, KeyboardSecondary[j]).Some?
    ensures GetNote(km, KeyboardSecondary[i]).value < GetNote(km, KeyboardSecondary[j]).value
  {
    SecondaryColumnOf(i);
    SecondaryColumnOf(j);
    SecondaryKeyPitch(km, KeyboardSecondary[i]);
    SecondaryKeyPitch(km, KeyboardSecondary[j]);
    BlackPitchIncreasing(km, i, j);
  }

  /** The colour of a pitch tells which row played it, stated on columns. */
  lemma ColumnClass(km: KeyMap, key: Key)
    requires GetNote(km, key).Some?
    ensures PrimaryColumn(key).Some? <==> IsWhite(GetNote(km, key).value)
    ensures SecondaryColumn(key).Some? <==> IsBlack(GetNote(km, key).value)
  {
    var p := GetNote(km, key).value;
    WhiteIsNotBlack(p);
    ColumnKey(key);
    if PrimaryColumn(key).Some? {
      PrimaryKeyPitch(km, key);
      WhitePitchClass(km, PrimaryColumn(key).value);
    } else {
      SecondaryKeyPitch(km, key);
      BlackPitchFormula(km, SecondaryColumn(key).value);
    }
  }

  /** Primary-row keys play white pitches and secondary-row keys black ones, so the
      colour of a pitch tells which row played it. */
  lemma GetNoteClass(km: KeyMap, key: Key)
    requires GetNote(km, key).Some?
    ensures key in KeyboardPrimary <==> IsWhite(GetNote(km, key).value)
    ensures key in KeyboardSecondary <==> IsBlack(GetNote(km, key).value)
  {
    ColumnClass(km, key);
    PrimaryColumnIsIndex(key);
    SecondaryColumnIsIndex(key);
  }

  /** Two primary-row keys that play the same pitch are the same key. */
  lemma PrimaryKeysInjective(km: KeyMap, k1: Key, k2: Key)
    requires PrimaryColumn(k1).Some? && PrimaryColumn(k2).Some?
    requires GetNote(km, k1) == GetNote(km, k2)
    ensures k1 == k2
  {
    var c1, c2 := PrimaryColumn(k1).value, PrimaryColumn(k2).value;
    ColumnKey(k1);
    ColumnKey(k2);
    PrimaryKeyPitch(km, k1);
    PrimaryKeyPitch(km, k2);
    if c1 < c2 {
      WhitePitchIncreasing(km, c1, c2);
    } else if c2 < c1 {
      WhitePitchIncreasing(km, c2, c1);
    }
  }

  /** Two secondary-row keys that play the same pitch are the same key. */
  lemma SecondaryKeysInjective(km: KeyMap, k1: Key, k2: Key)
    requires SecondaryColumn(k1).Some? && SecondaryColumn(k2).Some?
    requires GetNote(km, k1).Some? && GetNote(km, k1) == GetNote(km, k2)
    ensures k1 == k2
  {
    var c1, c2 := SecondaryColumn(k1).value, SecondaryColumn(k2).value;
    ColumnKey(k1);
    ColumnKey(k2);
    SecondaryKeyPitch(km, k1);
    SecondaryKeyPitch(km, k2);
    if c1 < c2 {
      BlackPitchIncreasing(km, c1, c2);
    } else if c2 < c1 {
      BlackPitchIncreasing(km, c2, c1);
    }
  }

  /** Two keys that play the same pitch are the same key: the forward mapping can be
      inverted on every key that has a pitch. */
  lemma GetNoteInjective(km: KeyMap, k1: Key, k2: Key)
    requires GetNote(km, k1).Some? && GetNote(km, k1) == GetNote(km, k2)
    ensures k1 == k2
  {
    ColumnClass(km, k1);
    ColumnClass(km, k2);
    if PrimaryColumn(k1).Some? {
      PrimaryKeysInjective(km, k1, k2);
    } else {
      SecondaryKeysInjective(km, k1, k2);
    }
  }
}
