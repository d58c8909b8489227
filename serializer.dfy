/**
 * The note-list to MIDI-track serializer `save_midi`. The recognizer's result
 * is an opaque value that is either a PrettyMIDI container (instruments, each
 * holding notes) or something else; a note becomes one `note_on` and one
 * `note_off` message with pitch and velocity clamped to the 7-bit data-byte
 * range 0..127 and times converted to non-negative milliseconds.
 */
module MidiSerializer {
  import opened Wrappers
  import opened Mido

  /** A recognized note: pitch and velocity as integers, start and end in seconds. */
  datatype Note = Note(pitch: int, velocity: int, start: real, end: real)

  /** An instrument of the recognized result: its notes, in order. */
  datatype Instrument = Instrument(notes: seq<Note>)

  /**
   * The value of `midi_chords`: a PrettyMIDI object with its instruments, or a
   * value of some other type (named by `typeName`).
   */
  datatype MidiChords = PrettyMidi(instruments: seq<Instrument>) | Other(typeName: string)

  /**
   * Why `save_midi` raises: the `TypeError` when `midi_chords` is not a
   * PrettyMIDI object, the `OSError` when the output path cannot be opened for
   * writing, or the writer's refusal of a negative delta time.
   */
  datatype SaveError = NotPrettyMidi(actualType: string) | OutputNotWritable | NegativeDeltaTime

  /** The file written by `midi.save(output_file)`: its path and its tracks. */
  datatype SavedFile = SavedFile(path: string, tracks: seq<seq<Message>>)

  /** Largest value of a 7-bit MIDI data byte. */
  const MAX_DATA_BYTE: int := 127

  /** `min(max(v, 0), 127)`: the nearest value in the data-byte range. */
  function ClampDataByte(v: int): (r: int)
    ensures 0 <= r <= MAX_DATA_BYTE
    ensures 0 <= v <= MAX_DATA_BYTE ==> r == v
    ensures v < 0 ==> r == 0
    ensures v > MAX_DATA_BYTE ==> r == MAX_DATA_BYTE
  {
    var low := if v > 0 then v else 0;
    if low < MAX_DATA_BYTE then low else MAX_DATA_BYTE
  }

  /** Python's `int(x)` on a number: truncation toward zero. */
  function Trunc(x: real): (t: int)
    ensures x >= 0.0 ==> 0 <= t && t as real <= x < t as real + 1.0
    ensures x < 0.0 ==> t <= 0 && t as real - 1.0 < x <= t as real
  {
    if x >= 0.0 then x.Floor else -((-x).Floor)
  }

  /** `max(int(seconds * 1000), 0)`: whole milliseconds, never negative. */
  function Millis(seconds: real): (ms: int)
    ensures ms >= 0
    ensures seconds < 0.0 ==> ms == 0
    ensures seconds >= 0.0 ==> ms as real <= seconds * 1000.0 < ms as real + 1.0
  {
    var t := Trunc(seconds * 1000.0);
    if t > 0 then t else 0
  }

  /** The `note_on` / `note_off` pair that `save_midi` appends for one note. */
  function NoteMessages(n: Note): (pair: seq<Message>)
    ensures |pair| == 2
    ensures pair[0].kind == NoteOn && pair[1].kind == NoteOff
    ensures pair[0].note == pair[1].note == ClampDataByte(n.pitch)
    ensures pair[0].velocity == ClampDataByte(n.velocity) && pair[1].velocity == 0
    ensures pair[0].time == Millis(n.start)
    ensures pair[0].time + pair[1].time == Millis(n.end)
  {
    var midiNote := ClampDataByte(n.pitch);
    var velocity := ClampDataByte(n.velocity);
    var startTime := Millis(n.start);
    var endTime := Millis(n.end);
    [Message(NoteOn, midiNote, velocity, startTime),
     Message(NoteOff, midiNote, 0, endTime - startTime)]
  }

  /** The track built from a flat list of notes: one message pair per note, in order. */
  function Encode(notes: seq<Note>): (track: seq<Message>)
    ensures |track| == 2 * |notes|
  {
    if notes == [] then []
    else Encode(notes[..|notes| - 1]) + NoteMessages(notes[|notes| - 1])
  }

  /** Number of notes over all instruments. */
  function TotalNotes(instruments: seq<Instrument>): (n: nat)
  {
    if instruments == [] then 0
    else TotalNotes(instruments[..|instruments| - 1]) + |instruments[|instruments| - 1].notes|
  }

  /** All notes in instrument-then-note order, the order of the nested loops. */
  function AllNotes(instruments: seq<Instrument>): (notes: seq<Note>)
    ensures |notes| == TotalNotes(instruments)
  {
    if instruments == [] then []
    else AllNotes(instruments[..|instruments| - 1]) + instruments[|instruments| - 1].notes
  }

  /** The single track `save_midi` builds from the instruments of a PrettyMIDI result. */
  function Serialize(instruments: seq<Instrument>): (track: seq<Message>)
    ensures |track| == 2 * TotalNotes(instruments)
  {
    Encode(AllNotes(instruments))
  }

  /**
   * `save_midi(converter, output_file)`: creates a file with one track, fails
   * with `TypeError` unless `midi_chords` is a PrettyMIDI object, then appends a
   * message pair per note and saves the file. Saving opens the output path
   * first (whether it can be opened is `writable`, a property of the file
   * system) and then fails when a delta time is negative. On the `TypeError`
   * path nothing is written.
   */
  method SaveMidi(midiChords: MidiChords, outputFile: string, writable: bool)
    returns (r: Result<SavedFile, SaveError>)
    ensures midiChords.Other? ==> r == Failure(NotPrettyMidi(midiChords.typeName))
    ensures midiChords.PrettyMidi? && !writable ==> r == Failure(OutputNotWritable)
    ensures midiChords.PrettyMidi? && writable && NonNegativeDeltas(Serialize(midiChords.instruments)) ==>
      r == Success(SavedFile(outputFile, [Serialize(midiChords.instruments)]))
    ensures midiChords.PrettyMidi? && writable && !NonNegativeDeltas(Serialize(midiChords.instruments)) ==>
      r == Failure(NegativeDeltaTime)
  {
    var midi := new MidiFile();
    var track := new MidiTrack();
    midi.AppendTrack(track);

    if !midiChords.PrettyMidi? {
      return Failure(NotPrettyMidi(midiChords.typeName));
    }

    var instruments := midiChords.instruments;
    var i := 0;
    while i < |instruments|
      invariant 0 <= i <= |instruments|
      invariant midi.tracks == [track]
      invariant track.messages == Encode(AllNotes(instruments[..i]))
    {
      AppendNotes(track, instruments[i].notes);
      EncodeAppend(AllNotes(instruments[..i]), instruments[i].notes);
      AllNotesSnoc(instruments, i);
      i := i + 1;
    }
    assert instruments[..i] == instruments;
    var image := midi.Image();
    assert image == [track.messages];
    if !writable {
      return Failure(OutputNotWritable);
    }
    if !NonNegativeDeltas(image[0]) {
      return Failure(NegativeDeltaTime);
    }
    return Success(SavedFile(outputFile, image));
  }

  /**
   * The inner loop of `save_midi`: for each note of one instrument, clamp its
   * pitch and velocity, convert its times to milliseconds and append its
   * `note_on` and `note_off` to the track.
   */
  method AppendNotes(track: MidiTrack, notes: seq<Note>)
    modifies track
    ensures track.messages == old(track.messages) + Encode(notes)
  {
    var j := 0;
    while j < |notes|
      invariant 0 <= j <= |notes|
      invariant track.messages == old(track.messages) + Encode(notes[..j])
    {
      var note := notes[j];
      var midiNote := ClampDataByte(note.pitch);
      var velocity := ClampDataByte(note.velocity);
      var startTime := Millis(note.start);
      var endTime := Millis(note.end);
      var duration := endTime - startTime;

      track.Append(Message(NoteOn, midiNote, velocity, startTime));
      track.Append(Message(NoteOff, midiNote, 0, duration));
      assert Encode(notes[..j + 1]) == Encode(notes[..j]) + NoteMessages(note) by {
        assert notes[..j + 1] == notes[..j] + [note];
        EncodeSnoc(notes[..j], note);
      }
      j := j + 1;
    }
    assert notes[..j] == notes;
  }

  /** Appending a note appends its pair: the step of the inner loop. */
  lemma EncodeSnoc(notes: seq<Note>, n: Note)
    ensures Encode(notes + [n]) == Encode(notes) + NoteMessages(n)
  {
  }

  /** Taking one more instrument appends its notes: the step of the outer loop. */
  lemma AllNotesSnoc(instruments: seq<Instrument>, i: nat)
    requires i < |instruments|
    ensures AllNotes(instruments[..i + 1]) == AllNotes(instruments[..i]) + instruments[i].notes
  {
    assert instruments[..i + 1][..i] == instruments[..i];
  }

  /** Notes are serialized independently: the track of a concatenation is the concatenation of the tracks. */
  lemma {:induction false} EncodeAppend(a: seq<Note>, b: seq<Note>)
    ensures Encode(a + b) == Encode(a) + Encode(b)
    decreases |b|
  {
    if b == [] {
      assert a + b == a;
    } else {
      var last := b[|b| - 1];
      var front := b[..|b| - 1];
      assert a + b == (a + front) + [last];
      assert b == front + [last];
      EncodeSnoc(a + front, last);
      EncodeSnoc(front, last);
      EncodeAppend(a, front);
    }
  }
}
