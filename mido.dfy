/**
 * The parts of the MIDI objects that `save_midi` builds: abstract channel
 * voice messages, a track that messages are appended to in place, and a file
 * that holds a list of tracks. Byte-level encoding is not modelled; a saved
 * file is the list of its tracks' message sequences.
 */
module Mido {

  /** The two channel voice message types `save_midi` emits. */
  datatype MessageType = NoteOn | NoteOff

  /**
   * `Message('note_on' | 'note_off', note=…, velocity=…, time=…)`; `time` is
   * the delta time since the previous message on the same track. The channel
   * is always the default 0 and is not represented.
   */
  datatype Message = Message(kind: MessageType, note: int, velocity: int, time: int)

  /**
   * The writer stores each delta time as a variable-length quantity, which
   * cannot be negative: a track can be written only if all its deltas are >= 0.
   */
  predicate NonNegativeDeltas(track: seq<Message>)
  {
    forall m :: m in track ==> m.time >= 0
  }

  /** A track: an ordered list of messages that grows by `append`. */
  class MidiTrack {
    var messages: seq<Message>

    constructor ()
      ensures messages == []
    {
      messages := [];
    }

    method Append(m: Message)
      modifies this
      ensures messages == old(messages) + [m]
    {
      messages := messages + [m];
    }
  }

  /** The contents of each of the given tracks, in order. */
  function Contents(tracks: seq<MidiTrack>): (r: seq<seq<Message>>)
    reads tracks
    ensures |r| == |tracks|
    ensures forall k :: 0 <= k < |tracks| ==> r[k] == tracks[k].messages
  {
    if tracks == [] then []
    else Contents(tracks[..|tracks| - 1]) + [tracks[|tracks| - 1].messages]
  }

  /** A MIDI file: a list of tracks, each shared by reference with the caller. */
  class MidiFile {
    var tracks: seq<MidiTrack>

    constructor ()
      ensures tracks == []
    {
      tracks := [];
    }

    method AppendTrack(t: MidiTrack)
      modifies this
      ensures tracks == old(tracks) + [t]
    {
      tracks := tracks + [t];
    }

    /** What `save` writes: the current contents of every track. */
    function Image(): (r: seq<seq<Message>>)
      reads this, tracks
      ensures |r| == |tracks|
      ensures forall k :: 0 <= k < |tracks| ==> r[k] == tracks[k].messages
    {
      Contents(tracks)
    }
  }
}
