/** MIDI events of a script and their order (class MidiEvent of src/script.py).

    An event is ordered by the triple (time, rank of its name, note), compared
    lexicographically, where the rank lists NOTE_OFF before NOTE_ON. Python's
    `sorted` is modelled by an insertion sort; since the order is a strict total
    order on event values, every sorted permutation of a list is the same list
    (SortedUnique), so any correct sort gives this result. */
module Events {

  /** The two message names an event can carry. */
  datatype EventName = NoteOff | NoteOn

  /** A message to the MIDI output at a script time (in beats). */
  datatype MidiEvent = MidiEvent(time: real, name: EventName, note: int)

  /** The position of a name in the name ranking: NOTE_OFF first, then NOTE_ON. */
  function Rank(name: EventName): (r: nat)
    ensures r < 2
    ensures r == 0 <==> name == NoteOff
  {
    match name
    case NoteOff => 0
    case NoteOn => 1
  }

  /** The order of events: lexicographic on (time, rank of name, note). */
  predicate Less(a: MidiEvent, b: MidiEvent)
    ensures Less(a, b) ==> a.time <= b.time && a != b
    ensures a.time < b.time ==> Less(a, b)
    ensures a.time == b.time && a.name == NoteOff && b.name == NoteOn ==> Less(a, b)
    ensures a.time == b.time && a.name == b.name && a.note < b.note ==> Less(a, b)
  {
    a.time < b.time ||
    (a.time == b.time && (Rank(a.name) < Rank(b.name) ||
                          (Rank(a.name) == Rank(b.name) && a.note < b.note)))
  }

  predicate LessEq(a: MidiEvent, b: MidiEvent) {
    a == b || Less(a, b)
  }

  /** Less is a strict total order on event values: irreflexive, transitive, and
      any two distinct events are comparable. */
  lemma LessStrictTotalOrder(a: MidiEvent, b: MidiEvent, c: MidiEvent)
    ensures !Less(a, a)
    ensures Less(a, b) && Less(b, c) ==> Less(a, c)
    ensures a != b ==> Less(a, b) || Less(b, a)
    ensures !(Less(a, b) && Less(b, a))
  {
    if a != b && Rank(a.name) == Rank(b.name) {
      assert a.name == b.name;
    }
  }

  /** LessEq is transitive and antisymmetric. */
  lemma LessEqOrder(a: MidiEvent, b: MidiEvent, c: MidiEvent)
    ensures LessEq(a, b) && LessEq(b, c) ==> LessEq(a, c)
    ensures LessEq(a, b) && LessEq(b, a) ==> a == b
  {
    LessStrictTotalOrder(a, b, c);
  }

  /** Every event is at most every later event. */
  predicate Sorted(s: seq<MidiEvent>) {
    forall i, j :: 0 <= i < j < |s| ==> LessEq(s[i], s[j])
  }

  /** Putting in front of a sorted list an event that is at most all its elements
      keeps it sorted. */
  lemma ConsSorted(x: MidiEvent, s: seq<MidiEvent>)
    requires Sorted(s)
    requires forall j :: 0 <= j < |s| ==> LessEq(x, s[j])
    ensures Sorted([x] + s)
  {
    var t := [x] + s;
    forall i, j | 0 <= i < j < |t|
      ensures LessEq(t[i], t[j])
    {
      if i == 0 {
        assert t[j] == s[j - 1];
      } else {
        assert t[i] == s[i - 1] && t[j] == s[j - 1];
      }
    }
  }

  /** A lower bound of every element of s and of e bounds every element of a list
      holding the elements of s and e. */
  lemma LowerBoundCarries(x: MidiEvent, s: seq<MidiEvent>, e: MidiEvent, r: seq<MidiEvent>)
    requires forall j :: 0 <= j < |s| ==> LessEq(x, s[j])
    requires LessEq(x, e)
    requires multiset(r) == multiset(s) + multiset{e}
    ensures forall j :: 0 <= j < |r| ==> LessEq(x, r[j])
  {
    forall j | 0 <= j < |r|
      ensures LessEq(x, r[j])
    {
      assert r[j] in multiset(r);
      if r[j] != e {
        assert r[j] in multiset(s);
        var k :| 0 <= k < |s| && s[k] == r[j];
      }
    }
  }

  /** The head of a sorted list is a lower bound of all of it. */
  lemma HeadBoundsAll(s: seq<MidiEvent>)
    requires Sorted(s) && s != []
    ensures forall j :: 0 <= j < |s| ==> LessEq(s[0], s[j])
  {
    forall j | 0 <= j < |s|
      ensures LessEq(s[0], s[j])
    {
      if j > 0 {
        assert LessEq(s[0], s[j]);
      }
    }
  }

  /** Inserts e into a sorted list before the first element that is not less than it. */
  function Insert(e: MidiEvent, s: seq<MidiEvent>): (r: seq<MidiEvent>)
    requires Sorted(s)
    ensures Sorted(r)
    ensures multiset(r) == multiset(s) + multiset{e}
  {
    if s == [] then
      [e]
    else if Less(s[0], e) then
      var rest := Insert(e, s[1..]);
      assert s == [s[0]] + s[1..];
      HeadBoundsAll(s);
      LowerBoundCarries(s[0], s[1..], e, rest);
      ConsSorted(s[0], rest);
      [s[0]] + rest
    else
      LessStrictTotalOrder(s[0], e, e);
      HeadBoundsAll(s);
      assert forall j :: 0 <= j < |s| ==> LessEq(e, s[j]) by {
        forall j | 0 <= j < |s| {
          LessEqOrder(e, s[0], s[j]);
        }
      }
      ConsSorted(e, s);
      [e] + s
  }

  /** The events of s in ascending order: the value of Python's `sorted(s)`. */
  function SortEvents(s: seq<MidiEvent>): (r: seq<MidiEvent>)
    ensures Sorted(r)
    ensures multiset(r) == multiset(s)
    ensures |r| == |s|
  {
    if s == [] then
      []
    else
      assert s == s[..|s| - 1] + [s[|s| - 1]];
      var r := Insert(s[|s| - 1], SortEvents(s[..|s| - 1]));
      assert |r| == |multiset(r)| == |multiset(s)| == |s|;
      r
  }

  /** The first element of a sorted list is at most every element of it. */
  lemma SortedHeadIsLeast(s: seq<MidiEvent>, x: MidiEvent)
    requires Sorted(s) && x in multiset(s)
    ensures LessEq(s[0], x)
  {
    var k :| 0 <= k < |s| && s[k] == x;
    if k > 0 {
      assert LessEq(s[0], s[k]);
    }
  }

  lemma SortedTail(s: seq<MidiEvent>)
    requires Sorted(s) && s != []
    ensures Sorted(s[1..])
  {
    forall i, j | 0 <= i < j < |s| - 1
      ensures LessEq(s[1..][i], s[1..][j])
    {
      assert s[1..][i] == s[i + 1] && s[1..][j] == s[j + 1];
    }
  }

  /** Removing the head of a list removes one copy of it from its elements. */
  lemma TailMultiset(s: seq<MidiEvent>)
    requires s != []
    ensures multiset(s[1..]) == multiset(s) - multiset{s[0]}
  {
    assert s == [s[0]] + s[1..];
    assert multiset(s) == multiset{s[0]} + multiset(s[1..]);
  }

  /** Two sorted non-empty lists with the same elements start with the same event. */
  lemma SortedHeadsEqual(a: seq<MidiEvent>, b: seq<MidiEvent>)
    requires Sorted(a) && Sorted(b) && a != []
    requires multiset(a) == multiset(b)
    ensures b != [] && a[0] == b[0]
  {
    assert a[0] in multiset(b);
    assert b != [];
    assert b[0] in multiset(a);
    SortedHeadIsLeast(b, a[0]);
    SortedHeadIsLeast(a, b[0]);
    LessEqOrder(a[0], b[0], a[0]);
  }

  /** Two sorted lists with the same elements are equal: sorting has exactly one
      possible result. */
  lemma {:induction false} SortedUnique(a: seq<MidiEvent>, b: seq<MidiEvent>)
    requires Sorted(a) && Sorted(b)
    requires multiset(a) == multiset(b)
    ensures a == b
    decreases |a|
  {
    if a == [] {
      assert |b| == |multiset(b)| == 0;
    } else {
      SortedHeadsEqual(a, b);
      TailMultiset(a);
      TailMultiset(b);
      SortedTail(a);
      SortedTail(b);
      SortedUnique(a[1..], b[1..]);
      assert a == [a[0]] + a[1..] && b == [b[0]] + b[1..];
    }
  }

  /** What the order means for a sorted list: times never decrease, and among
      events at the same time every NOTE_OFF comes before every NOTE_ON. */
  lemma SortedEventOrder(s: seq<MidiEvent>, i: nat, j: nat)
    requires Sorted(s) && i < j < |s|
    ensures s[i].time <= s[j].time
    ensures s[i].time == s[j].time && s[j].name == NoteOff ==> s[i].name == NoteOff
  {
    assert LessEq(s[i], s[j]);
  }
}
