/**
 * What the track built by `save_midi` looks like: its length, the position and
 * fields of every note's message pair, the ranges of all fields, what a reader
 * of the track can recover, and how its delta times add up.
 */
module SerializerProperties {
  import opened Mido
  import opened MidiSerializer

  /** The k-th note's pair occupies positions 2k and 2k+1 of the encoded track. */
  lemma {:induction false} EncodeAt(notes: seq<Note>, k: nat)
    requires k < |notes|
    ensures Encode(notes)[2 * k] == NoteMessages(notes[k])[0]
    ensures Encode(notes)[2 * k + 1] == NoteMessages(notes[k])[1]
  {
    var front := notes[..|notes| - 1];
    assert Encode(notes) == Encode(front) + NoteMessages(notes[|notes| - 1]);
    if k < |front| {
      EncodeAt(front, k);
    }
  }

  /** The first k notes' pairs are the first 2k messages of the track. */
  lemma {:induction false} EncodePrefix(notes: seq<Note>, k: nat)
    requires k <= |notes|
    ensures Encode(notes)[..2 * k] == Encode(notes[..k])
  {
    EncodeAppend(notes[..k], notes[k..]);
    assert notes[..k] + notes[k..] == notes;
  }

  /**
   * The j-th note of the i-th instrument is note number TotalNotes(ins[..i]) + j
   * of the instrument-then-note order.
   */
  lemma {:induction false} AllNotesAt(ins: seq<Instrument>, i: nat, j: nat)
    requires i < |ins| && j < |ins[i].notes|
    ensures TotalNotes(ins[..i]) + j < TotalNotes(ins)
    ensures AllNotes(ins)[TotalNotes(ins[..i]) + j] == ins[i].notes[j]
  {
    var front := ins[..|ins| - 1];
    assert AllNotes(ins) == AllNotes(front) + ins[|ins| - 1].notes;
    if i == |ins| - 1 {
      assert front == ins[..i];
    } else {
      assert front[..i] == ins[..i];
      AllNotesAt(front, i, j);
    }
  }

  /**
   * Ordering and field values: the j-th note of the i-th instrument yields
   * messages 2k and 2k+1 (k its position in instrument-then-note order): first
   * a `note_on` with the clamped pitch and velocity at its start in ms, then a
   * `note_off` with the same note number, velocity 0 and time end_ms - start_ms.
   */
  lemma SerializeAt(ins: seq<Instrument>, i: nat, j: nat)
    requires i < |ins| && j < |ins[i].notes|
    ensures 2 * (TotalNotes(ins[..i]) + j) + 1 < |Serialize(ins)|
    ensures var k, n := TotalNotes(ins[..i]) + j, ins[i].notes[j];
      Serialize(ins)[2 * k] ==
        Message(NoteOn, ClampDataByte(n.pitch), ClampDataByte(n.velocity), Millis(n.start)) &&
      Serialize(ins)[2 * k + 1] ==
        Message(NoteOff, ClampDataByte(n.pitch), 0, Millis(n.end) - Millis(n.start))
  {
    AllNotesAt(ins, i, j);
    EncodeAt(AllNotes(ins), TotalNotes(ins[..i]) + j);
  }

  /** A message's fields are within what `save_midi` ever emits. */
  predicate InRange(m: Message)
  {
    && 0 <= m.note <= MAX_DATA_BYTE
    && 0 <= m.velocity <= MAX_DATA_BYTE
    && (m.kind == NoteOn ==> m.time >= 0)
    && (m.kind == NoteOff ==> m.velocity == 0)
  }

  /** Positions 2k and 2k+1 hold a `note_on` and the `note_off` for the same note. */
  predicate PairAt(track: seq<Message>, k: nat)
    requires 2 * k + 1 < |track|
  {
    track[2 * k].kind == NoteOn && track[2 * k + 1].kind == NoteOff &&
    track[2 * k + 1].note == track[2 * k].note
  }

  /** The track invariant: adjacent on/off pairs, every field in range. */
  predicate WellFormedTrack(track: seq<Message>)
  {
    && |track| % 2 == 0
    && (forall k: nat :: k < |track| / 2 ==> PairAt(track, k))
    && (forall m :: m in track ==> InRange(m))
  }

  /** Every track the serializer builds satisfies the track invariant. */
  lemma EncodeWellFormed(notes: seq<Note>)
    ensures WellFormedTrack(Encode(notes))
  {
    var track := Encode(notes);
    forall k: nat | k < |track| / 2
      ensures PairAt(track, k)
    {
      EncodeAt(notes, k);
    }
    forall m | m in track
      ensures InRange(m)
    {
      var p :| 0 <= p < |track| && track[p] == m;
      EncodeAt(notes, p / 2);
    }
  }

  /** The saved track of any PrettyMIDI result is well formed. */
  lemma SerializeWellFormed(ins: seq<Instrument>)
    ensures WellFormedTrack(Serialize(ins))
  {
    EncodeWellFormed(AllNotes(ins));
  }

  /** What a track keeps of a note: note number, velocity, on and off time in ms. */
  datatype TimedNote = TimedNote(note: int, velocity: int, onMs: int, offMs: int)

  /** The note as `save_midi` quantizes it. */
  function Quantize(n: Note): (q: TimedNote)
  {
    TimedNote(ClampDataByte(n.pitch), ClampDataByte(n.velocity), Millis(n.start), Millis(n.end))
  }

  /** Quantize every note, in order. */
  function QuantizeAll(notes: seq<Note>): (qs: seq<TimedNote>)
    ensures |qs| == |notes|
  {
    if notes == [] then []
    else QuantizeAll(notes[..|notes| - 1]) + [Quantize(notes[|notes| - 1])]
  }

  /**
   * Reading a track back: each on/off pair gives a note whose on time is the
   * `note_on` delta and whose off time adds the `note_off` delta to it.
   */
  function Decode(track: seq<Message>): (notes: seq<TimedNote>)
    requires |track| % 2 == 0
    ensures |notes| == |track| / 2
  {
    if track == [] then []
    else
      var on, off := track[|track| - 2], track[|track| - 1];
      Decode(track[..|track| - 2]) + [TimedNote(on.note, on.velocity, on.time, on.time + off.time)]
  }

  /**
   * Round trip: reading back a serialized track gives every note's clamped
   * pitch and velocity and its start and end in ms, in input order; nothing
   * else is lost and no note is merged or reordered.
   */
  lemma {:induction false} DecodeEncode(notes: seq<Note>)
    ensures Decode(Encode(notes)) == QuantizeAll(notes)
  {
    if notes != [] {
      var front := notes[..|notes| - 1];
      var track := Encode(notes);
      assert track == Encode(front) + NoteMessages(notes[|notes| - 1]);
      assert track[..|track| - 2] == Encode(front);
      DecodeEncode(front);
    }
  }

  /** The absolute time reached after a track's messages: the sum of their delta times. */
  function Elapsed(track: seq<Message>): (t: int)
  {
    if track == [] then 0 else Elapsed(track[..|track| - 1]) + track[|track| - 1].time
  }

  /** Sum of the notes' end times in ms. */
  function SumEndMillis(notes: seq<Note>): (t: int)
    ensures t >= 0
  {
    if notes == [] then 0 else SumEndMillis(notes[..|notes| - 1]) + Millis(notes[|notes| - 1].end)
  }

  /** Each pair advances the running time by exactly the note's end in ms. */
  lemma {:induction false} ElapsedEncode(notes: seq<Note>)
    ensures Elapsed(Encode(notes)) == SumEndMillis(notes)
  {
    if notes != [] {
      var front := notes[..|notes| - 1];
      var track := Encode(notes);
      assert track == Encode(front) + NoteMessages(notes[|notes| - 1]);
      assert track[..|track| - 1][..|track| - 2] == Encode(front);
      ElapsedEncode(front);
    }
  }

  /**
   * Because times are deltas, the k-th note starts sounding at the sum of the
   * earlier notes' end times plus its own start, not at its own start: the
   * recorded onset equals the recognized one only when every earlier note ends
   * at time 0.
   */
  lemma NoteOnAbsoluteTime(notes: seq<Note>, k: nat)
    requires k < |notes|
    ensures Elapsed(Encode(notes)[..2 * k + 1]) == SumEndMillis(notes[..k]) + Millis(notes[k].start)
  {
    var track := Encode(notes);
    assert Elapsed(track[..2 * k + 1]) == Elapsed(track[..2 * k]) + track[2 * k].time by {
      ElapsedTake(track, 2 * k);
    }
    assert track[..2 * k] == Encode(notes[..k]) by { EncodePrefix(notes, k); }
    assert track[2 * k].time == Millis(notes[k].start) by { EncodeAt(notes, k); }
    ElapsedEncode(notes[..k]);
  }

  /** One more message advances the running time by its delta. */
  lemma ElapsedTake(track: seq<Message>, n: nat)
    requires n < |track|
    ensures Elapsed(track[..n + 1]) == Elapsed(track[..n]) + track[n].time
  {
    assert track[..n + 1][..n] == track[..n];
  }

  /**
   * The track can be written exactly when no note ends, in whole
   * milliseconds, before it starts: only `note_off` deltas can be negative.
   */
  lemma EncodeWritable(notes: seq<Note>)
    ensures NonNegativeDeltas(Encode(notes)) <==>
      forall k :: 0 <= k < |notes| ==> Millis(notes[k].start) <= Millis(notes[k].end)
  {
    var track := Encode(notes);
    if NonNegativeDeltas(track) {
      forall k | 0 <= k < |notes|
        ensures Millis(notes[k].start) <= Millis(notes[k].end)
      {
        assert track[2 * k + 1].time == Millis(notes[k].end) - Millis(notes[k].start) by {
          EncodeAt(notes, k);
        }
        assert track[2 * k + 1] in track;
      }
    }
    if forall k :: 0 <= k < |notes| ==> Millis(notes[k].start) <= Millis(notes[k].end) {
      forall m | m in track
        ensures m.time >= 0
      {
        var p :| 0 <= p < |track| && track[p] == m;
        assert track[p].time >= 0 by {
          EncodeAt(notes, p / 2);
        }
      }
    }
  }

  /** A note that ends before it starts yields a negative `note_off` time. */
  lemma NegativeDuration(n: Note)
    requires Millis(n.end) < Millis(n.start)
    ensures Encode([n])[1].time < 0
  {
  }

  /** No notes, in any number of instruments, give a track with no messages. */
  lemma {:induction false} ScenarioEmpty(ins: seq<Instrument>)
    requires forall i :: 0 <= i < |ins| ==> ins[i].notes == []
    ensures Serialize(ins) == []
  {
    if ins != [] {
      ScenarioEmpty(ins[..|ins| - 1]);
    }
  }

  /** One note at 60/100 from 0 s to 0.5 s. */
  lemma ScenarioPlainNote()
    ensures Serialize([Instrument([Note(60, 100, 0.0, 0.5)])])
      == [Message(NoteOn, 60, 100, 0), Message(NoteOff, 60, 0, 500)]
  {
  }

  /** Out-of-range pitch, velocity and negative times are clamped, not rejected. */
  lemma ScenarioClampedNote()
    ensures Serialize([Instrument([Note(-5, 200, -1.0, -0.5)])])
      == [Message(NoteOn, 0, 127, 0), Message(NoteOff, 0, 0, 0)]
  {
  }
}
