/** The instant-replay buffer of replay.py: the last 30 camera frames (about
    one second at 30 fps) in a bounded deque, and a snapshot of that buffer
    for every registered shot.  Frames are copied on entry, so they are
    values here (type parameter `Frame`). */
module Replay {
  import opened Common

  /** The deque's maxlen. */
  const Capacity: nat := 30

  /** Shots taken from a history are still the snapshots of its prefixes
      once a frame is appended. */
  lemma SnapshotsSurvive<Frame>(frames: seq<Frame>, f: Frame, shots: seq<seq<Frame>>, marks: seq<nat>)
    requires |shots| == |marks|
    requires forall i :: 0 <= i < |marks| ==> marks[i] <= |frames| && shots[i] == LastN(frames[..marks[i]], Capacity)
    ensures forall i :: 0 <= i < |marks| ==> marks[i] <= |frames + [f]| && shots[i] == LastN((frames + [f])[..marks[i]], Capacity)
  {
    forall i | 0 <= i < |marks| ensures (frames + [f])[..marks[i]] == frames[..marks[i]] {
    }
  }

  class Recorder<Frame> {
    var buffer: seq<Frame>
    var shots: seq<seq<Frame>>
    /** Every frame ever added, oldest first. */
    ghost var frames: seq<Frame>
    /** For each registered shot, how many frames had been added by then. */
    ghost var marks: seq<nat>

    /** The buffer is the last 30 frames; each shot is the buffer as it was
        when the shot was registered. */
    ghost predicate Valid()
      reads this
    {
      && buffer == LastN(frames, Capacity)
      && |shots| == |marks|
      && forall i :: 0 <= i < |marks| ==> marks[i] <= |frames| && shots[i] == LastN(frames[..marks[i]], Capacity)
    }

    constructor ()
      ensures Valid()
      ensures buffer == [] && shots == [] && frames == [] && marks == []
    {
      buffer := [];
      shots := [];
      frames := [];
      marks := [];
    }

    /** add_frame: append, dropping the oldest frame once the deque is full. */
    method AddFrame(f: Frame)
      requires Valid()
      modifies this
      ensures Valid()
      ensures frames == old(frames) + [f] && shots == old(shots) && marks == old(marks)
      ensures |old(buffer)| < Capacity ==> buffer == old(buffer) + [f]
      ensures |old(buffer)| == Capacity ==> buffer == old(buffer)[1..] + [f]
      ensures |buffer| <= Capacity && buffer[|buffer| - 1] == f
    {
      if |buffer| == Capacity {
        buffer := buffer[1..] + [f];
      } else {
        buffer := buffer + [f];
      }
      LastNStep(frames, f, Capacity);
      SnapshotsSurvive(frames, f, shots, marks);
      frames := frames + [f];
    }

    /** register_shot: snapshot the current buffer as a new shot. */
    method RegisterShot()
      requires Valid()
      modifies this
      ensures Valid()
      ensures shots == old(shots) + [old(buffer)]
      ensures buffer == old(buffer) && frames == old(frames) && marks == old(marks) + [|frames|]
    {
      shots := shots + [buffer];
      marks := marks + [|frames|];
      assert frames[..|frames|] == frames;
    }

    /** get_shots: each clip holds at most 30 frames, the ones that
        preceded its shot, and clips come in registration order. */
    function GetShots(): (clips: seq<seq<Frame>>)
      reads this
      requires Valid()
      ensures |clips| == |marks|
      ensures forall i :: 0 <= i < |clips| ==>
        |clips[i]| <= Capacity && clips[i] == LastN(frames[..marks[i]], Capacity)
    {
      shots
    }
  }
}
