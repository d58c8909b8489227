# Moonarch chords analyzer: the note-list to MIDI-track serializer

The repository exposes an external chord-recognition library through three
front-ends: an HTTP upload endpoint (`api.py`), a Streamlit web page (`app.py`)
and a command-line script (`moonarch_chords_extractor.py`). The logic it owns
is `save_midi`. This routine takes the recognizer's PrettyMIDI result, walks
its instruments and their notes, and writes a one-track MIDI file. Each note
becomes a `note_on`/`note_off` pair. Pitch and velocity are clamped to the
7-bit data-byte range 0..127 of the MIDI 1.0 channel voice messages. Times are
converted from seconds to non-negative milliseconds. `save_midi` appears three
times with the same body (`api.py:16-35`, `moonarch_chords_extractor.py:12-31`
and the method bound onto the converter in `app.py:60-83`). It is modelled once,
and the rows below cite whichever copy states a property most directly. Beside
it sit three small checks: the content-type whitelist of the HTTP handler, the
case-insensitive extension check of the script, and the `.mid` output name of
the web page.

Files:

- `wrappers.dfy`: `Option`, `Result`, `Outcome`.
- `mido.dfy`: the MIDI objects `save_midi` mutates. A `MidiTrack` class has a
  message list that `Append` grows in place. A `MidiFile` class holds a list of
  tracks, shared by reference, and its `Image` is what `save` writes. Messages
  are abstract values, not bytes.
- `serializer.dfy`: the data model (`Note`, `Instrument`, and `MidiChords`,
  which is either a PrettyMIDI value or a value of another type), the per-note
  conversions, and the specification functions. `Encode` works on the flat
  note list, `AllNotes` flattens instruments in loop order, and `Serialize`
  combines the two. `SaveMidi` is the imperative serializer. It creates the
  file and the track, attaches the track, checks the type, runs the nested
  loops, and saves. It returns the saved image, the `TypeError`, the
  writer's failure to open the output path, or its refusal of a negative delta
  time. The inner per-note
  loop is the method `AppendNotes`.
- `serializer_properties.dfy`: what the track looks like. It covers positions
  and fields of each pair, ranges, reading the track back, and the running
  time.
- `api.py`, `moonarch_chords_extractor.py` and `app.py` front-end checks:
  `api.dfy`, `extractor.dfy`, `app.dfy`.

Abstractions: note times are `real`s rather than IEEE doubles. Python's
`int(x)` is truncation toward zero (`Trunc`). `max(int(x*1000), 0)` equals
`max(floor(x*1000), 0)`, since the two roundings differ only below zero.
Python's `str.lower()` is modelled on the ASCII letters only. The results of
`os.path.isfile`, of `UploadFile.content_type` and of the recognizer are
parameters.

## Model

| member | source | states |
|---|---|---|
| `Mido.MidiTrack.constructor` | api.py:18 | a new track holds no messages |
| `Mido.MidiTrack.Append` | api.py:32-33 | appending adds exactly one message at the end |
| `Mido.MidiFile.constructor` | api.py:17 | a new file holds no tracks |
| `Mido.MidiFile.AppendTrack` | api.py:19 | the track is attached by reference at the end of the track list |
| `Mido.MidiFile.Image` | api.py:35 | what is saved is, per track, that track's messages at save time, in track order |
| `MidiSerializer.ClampDataByte` | api.py:26-27 | result lies in 0..127; an in-range value passes unchanged (so clamping is idempotent); below 0 gives 0, above 127 gives 127 |
| `MidiSerializer.Trunc` | api.py:28-29 | `int(x)` truncates toward zero: for x >= 0 it is the largest integer <= x, for x < 0 the smallest integer >= x |
| `MidiSerializer.Millis` | moonarch_chords_extractor.py:24-25 | milliseconds are never negative, are 0 for any negative time, and otherwise are the whole milliseconds not exceeding the time |
| `MidiSerializer.NoteMessages` | moonarch_chords_extractor.py:22-29 | a note yields a `note_on` then a `note_off` with the same clamped note number; on-velocity is the clamped velocity, off-velocity 0; on-time is start ms, and on-time + off-time is end ms |
| `MidiSerializer.Encode` | moonarch_chords_extractor.py:20-29 | N notes give exactly 2N messages |
| `MidiSerializer.AllNotes` | api.py:24-25 | the instrument-then-note order lists exactly the total number of notes |
| `MidiSerializer.Serialize` | api.py:24-33 | the track of a PrettyMIDI result has twice as many messages as there are notes over all instruments |
| `MidiSerializer.SaveMidi` | api.py:16-35 | fails with `TypeError` when the result is not PrettyMIDI, and then writes nothing; otherwise fails with `OutputNotWritable` when the output path cannot be opened for writing, which the writer checks before encoding; otherwise, if no delta time of `Serialize` of the instruments is negative, writes one file at the given path with exactly that one track; if one is negative, saving fails with `NegativeDeltaTime` |
| `MidiSerializer.AppendNotes` | app.py:71-81 | after one instrument's loop, the track is its old contents followed by the pairs of that instrument's notes, in order |
| `MidiSerializer.EncodeAppend` | moonarch_chords_extractor.py:20-29 | notes are serialized independently: the track of a concatenation is the concatenation of the tracks |
| `SerializerProperties.EncodeAt` | moonarch_chords_extractor.py:20-29 | the k-th note's `note_on` and `note_off` are messages 2k and 2k+1 (0-indexed), adjacent and in input order |
| `SerializerProperties.EncodePrefix` | api.py:24-33 | the first 2k messages are exactly the track of the first k notes |
| `SerializerProperties.AllNotesAt` | app.py:70-71 | note j of instrument i is note number (notes of instruments before i) + j of the walk |
| `SerializerProperties.SerializeAt` | app.py:70-81 | note j of instrument i yields messages 2k and 2k+1: `note_on(clamp(pitch), clamp(velocity), start_ms)` then `note_off(clamp(pitch), 0, end_ms - start_ms)` |
| `SerializerProperties.EncodeWellFormed` | moonarch_chords_extractor.py:22-29 | every encoded track has even length and adjacent on/off pairs with equal note numbers; every note and velocity is in 0..127, every `note_on` time is >= 0 and every `note_off` velocity is 0 |
| `SerializerProperties.SerializeWellFormed` | app.py:73-81 | the same track invariant holds for the track saved from any PrettyMIDI result |
| `SerializerProperties.DecodeEncode` | api.py:26-33 | reading the track back gives, in order, each note's clamped pitch and velocity and its start and end ms; notes are not merged, dropped or reordered |
| `SerializerProperties.ElapsedEncode` | api.py:28-33 | the delta times of the whole track add up to the sum of the notes' end ms |
| `SerializerProperties.NoteOnAbsoluteTime` | api.py:28-33 | since times are deltas, note k starts at the earlier notes' end ms summed plus its own start ms, not at its own start |
| `SerializerProperties.EncodeWritable` | api.py:28-35 | a track can be saved exactly when every note's end ms is at least its start ms; only `note_off` deltas can be negative |
| `SerializerProperties.NegativeDuration` | app.py:75-81 | the `note_off` time is not clamped: it is negative whenever end ms < start ms |
| `SerializerProperties.ScenarioPlainNote` | api.py:26-33 | note (60, 100, 0 s, 0.5 s) gives `note_on(60, 100, 0)`, `note_off(60, 0, 500)` |
| `SerializerProperties.ScenarioClampedNote` | app.py:73-81 | note (-5, 200, -1 s, -0.5 s) gives `note_on(0, 127, 0)`, `note_off(0, 0, 0)` |
| `SerializerProperties.ScenarioEmpty` | api.py:24-33 | a PrettyMIDI result with no notes, in any number of instruments, gives a track with no messages |
| `Api.CheckContentType` | api.py:39-40 | an upload passes exactly when its content type is `audio/mpeg` or `audio/wav`; anything else, a missing type included, is rejected with status 400 |
| `Api.ContentTypeIsExact` | api.py:39 | the comparison is exact: `audio/MPEG`, `audio/mp3`, `audio/x-wav` and no content type are all rejected |
| `ChordsExtractor.LowerChar` | moonarch_chords_extractor.py:38 | A-Z map to a-z, every other character is kept |
| `ChordsExtractor.Lower` | moonarch_chords_extractor.py:38 | lower-casing keeps the length and lower-cases each character in place |
| `ChordsExtractor.HasSupportedExtension` | moonarch_chords_extractor.py:38 | a path is accepted exactly when its last four characters are `.mp3` or `.wav` ignoring letter case |
| `ChordsExtractor.LowerSuffix` | moonarch_chords_extractor.py:38 | the lowered path ends with a lower-case suffix exactly when the path ends with it ignoring case |
| `ChordsExtractor.MixedCaseAccepted` | moonarch_chords_extractor.py:38-40 | any name ending in `.MP3` or `.Wav` is accepted |
| `ChordsExtractor.OtherFormatsRefused` | moonarch_chords_extractor.py:38-40 | names ending in `.flac` or `.mp3x` are refused |
| `ChordsExtractor.ValidateInput` | moonarch_chords_extractor.py:34-40 | input passes exactly when the file exists and has a supported extension; a missing file is reported first, then an unsupported format |
| `App.RFind` | app.py:48 | the index of the last occurrence of a character, or -1 when there is none |
| `App.SplitExt` | app.py:48 | root + ext is the name; a non-empty ext starts at a dot of the last component preceded there by a non-dot and holds no further dot or '/'; an empty ext means no dot of the name starts an extension |
| `App.OutputMidiName` | app.py:54 | the output name ends in `.mid`, and what precedes it is a prefix of the upload name |
| `App.OutputNameReplacesExtension` | app.py:48-54 | stem + extension gives stem + `.mid` (`song.mp3` to `song.mid`, `a.b.wav` to `a.b.mid`) |
| `App.OutputNameWithoutExtension` | app.py:48-54 | a name with no dot in its last component just gains `.mid` |
| `App.OutputNameOfDotFile` | app.py:48-54 | a name whose last component has dots only at its start has no extension and just gains `.mid` (`.hidden`, `..cfg`, `dir/.hidden`) |

## Left out

- The recognizer (`MusicToChordsConverter`, `recognize_chords`, `generate_midi`) is an external library. Its result is the `MidiChords` input value.
- Byte-level MIDI encoding by `midi.save`, including file headers and variable-length delta encoding, is not modelled. The saved file is its list of tracks' messages. A negative delta time makes the writer raise an error, which is modelled as the `NegativeDeltaTime` failure. Whether `midi.save` can open the output path is the `writable` parameter of `SaveMidi`; an `OSError` there is the `OutputNotWritable` failure. The file system itself, and the file the writer had already opened and partly written when it meets a negative delta, are not modelled.
- The unit of `time`: the file keeps the library's default ticks per beat, and the model does not relate the millisecond values written into `time` to ticks.
- The `TypeError` message text is not modelled. It names `converter.midi_chords` in `api.py` and `moonarch_chords_extractor.py` and `self.midi_chords` in `app.py`; the three copies differ in nothing else.
- MidiSerializer.Millis: IEEE double rounding of `start * 1000` is not modelled; times are exact reals.
- ChordsExtractor.Lower: only ASCII letters are folded, whereas Python's `str.lower` also folds non-ASCII letters. No non-ASCII character lowers to a character of `.mp3` or `.wav`, so acceptance is unaffected.
- App.SplitExt: POSIX `os.path.splitext` is modelled ('/' is the only separator).
- File I/O is not modelled: writing uploads, `tempfile.mkdtemp`, `shutil.copyfile`, the `print` calls and `sys.exit` (status 1 for both failures). Only the order and outcome of the input checks are kept, with `os.path.isfile` as a parameter.
- FastAPI routing, the health check, the `async` handler and the wrapping of any other exception into status 500 (`api.py:42-73`) are not modelled.
- The uuid-based output name of the HTTP handler (`api.py:57`) is random and is not modelled.
- The Streamlit page is not modelled: layout, the progress bar with `time.sleep`, the uploader's type filter and the download button.
- The rest of `process_audio` from `moonarch_chords_extractor.py:55` on (output naming, saving the MIDI file, clean-up) is not part of this model.
- Atomic output (write-then-rename) is not modelled, because the code does not do it. The model only states that the `TypeError` path writes no file.
