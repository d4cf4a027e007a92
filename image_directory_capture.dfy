/**
 * ImageDirectoryCapture.cs: the frame cursor of a capture that plays the image
 * files of a directory. The file list is fixed at construction; `currentFrame`
 * is moved by Seek, reset by Stop and advanced by each timer tick.
 *
 * The timer, the directory listing and the image loader are not modelled: the
 * list of file names is a constructor argument, and a tick returns the name of
 * the file it hands to the loader (None for the null frame).
 */
module DirectoryCapture {
  import opened Wrappers

  /** System.IO.SeekOrigin. */
  datatype SeekOrigin = Begin | Current | End

  datatype CaptureError = IndexOutOfRange

  /** The seek target before clamping: `offset` counted from the start, the cursor or the end. */
  function SeekTarget(origin: SeekOrigin, offset: int, position: int, length: nat): (target: int)
    ensures origin == Begin ==> target == offset
    ensures origin == Current ==> target - position == offset
    ensures origin == End ==> target - length == offset
  {
    match origin
    case Begin => offset
    case Current => position + offset
    case End => length + offset
  }

  /** Math.Min(length, Math.Max(0, target)): the point of [0, length] nearest to `target`. */
  function Clamp(target: int, length: nat): (p: int)
    ensures 0 <= p <= length
    ensures 0 <= target <= length ==> p == target
    ensures target < 0 ==> p == 0
    ensures target > length ==> p == length
  {
    if target < 0 then 0 else if target > length then length else target
  }

  /**
   * The three origins are three ways of naming one target: from any position,
   * seeking to `target` from the beginning, by the matching offset from the
   * current position, or by the matching offset from the end all land on the
   * same frame.
   */
  lemma SeekOriginsAgree(target: int, position: int, length: nat)
    ensures Clamp(SeekTarget(Begin, target, position, length), length)
         == Clamp(SeekTarget(Current, target - position, position, length), length)
         == Clamp(SeekTarget(End, target - length, position, length), length)
  {
  }

  /** One timer tick from `position`: the file handed to the loader, and the next position. */
  function Tick(fileNames: seq<string>, position: nat): (r: (Option<string>, nat))
    ensures r.0.Some? <==> position < |fileNames|
    ensures r.0.Some? ==> r.0.value == fileNames[position] && r.1 == position + 1
    ensures r.0.None? ==> r.1 == position
    ensures position <= |fileNames| ==> r.1 <= |fileNames|
  {
    if position >= |fileNames| then (None, position)
    else (Some(fileNames[position]), position + 1)
  }

  /** The frames emitted by `ticks` consecutive ticks starting at `position`. */
  function Playback(fileNames: seq<string>, position: nat, ticks: nat): seq<Option<string>>
    decreases ticks
  {
    if ticks == 0 then []
    else
      var (frame, next) := Tick(fileNames, position);
      [frame] + Playback(fileNames, next, ticks - 1)
  }

  function Nones(n: nat): (r: seq<Option<string>>)
    ensures |r| == n && forall i :: 0 <= i < n ==> r[i] == None
  {
    if n == 0 then [] else [None] + Nones(n - 1)
  }

  function Frames(names: seq<string>): (r: seq<Option<string>>)
    ensures |r| == |names| && forall i :: 0 <= i < |names| ==> r[i] == Some(names[i])
  {
    if names == [] then [] else [Some(names[0])] + Frames(names[1..])
  }

  /** Once the cursor is at or past the end, every tick emits the null frame and the cursor stays. */
  lemma {:induction false} PlaybackPastEnd(fileNames: seq<string>, position: nat, ticks: nat)
    requires position >= |fileNames|
    ensures Playback(fileNames, position, ticks) == Nones(ticks)
  {
    if ticks > 0 {
      PlaybackPastEnd(fileNames, position, ticks - 1);
    }
  }

  /**
   * From `position`, playing on emits every remaining file once, in list order,
   * and then only null frames.
   */
  lemma {:induction false} PlaybackEmitsRemainingFiles(fileNames: seq<string>, position: nat, extra: nat)
    requires position <= |fileNames|
    ensures Playback(fileNames, position, |fileNames| - position + extra)
            == Frames(fileNames[position..]) + Nones(extra)
    decreases |fileNames| - position
  {
    if position == |fileNames| {
      PlaybackPastEnd(fileNames, position, extra);
      assert fileNames[position..] == [];
    } else {
      PlaybackEmitsRemainingFiles(fileNames, position + 1, extra);
      assert fileNames[position..][1..] == fileNames[position + 1..];
    }
  }

  class ImageDirectoryCapture {
    const fileNames: seq<string>
    var currentFrame: int

    /** The cursor lies in [0, Length]; every operation keeps it there. */
    ghost predicate Valid()
      reads this
    {
      0 <= currentFrame <= |fileNames|
    }

    constructor (files: seq<string>)
      ensures Valid()
      ensures fileNames == files && currentFrame == 0
    {
      fileNames := files;
      currentFrame := 0;
    }

    /** The number of files found at construction. */
    function Length(): (n: nat)
      ensures n == |fileNames|
    {
      |fileNames|
    }

    function Position(): (p: int)
      reads this
      ensures p == currentFrame
    {
      currentFrame
    }

    /** Moves the cursor relative to `origin` and clamps it to [0, Length]; returns the new position. */
    method Seek(offset: int, origin: SeekOrigin := Current) returns (p: int)
      modifies this
      ensures Valid()
      ensures currentFrame == Clamp(SeekTarget(origin, offset, old(currentFrame), |fileNames|), |fileNames|)
      ensures p == currentFrame
    {
      var newPosition := 0;
      match origin {
        case Begin =>
          newPosition := offset;
        case Current =>
          newPosition := Position() + offset;
        case End =>
          newPosition := Length() + offset;
      }
      currentFrame := Clamp(newPosition, Length());
      p := currentFrame;
    }

    /** Stops playback and rewinds to the first file. */
    method Stop()
      modifies this
      ensures Valid()
      ensures currentFrame == 0
    {
      currentFrame := 0;
    }

    /**
     * timer_Elapsed: at or past the end, emits the null frame and leaves the
     * cursor; otherwise hands the current file to the loader and advances by one.
     */
    method TimerElapsed() returns (frame: Option<string>)
      requires Valid()
      modifies this
      ensures Valid()
      ensures (frame, currentFrame) == Tick(fileNames, old(currentFrame))
      ensures old(currentFrame) >= |fileNames| ==> frame == None && currentFrame == old(currentFrame)
      ensures old(currentFrame) < |fileNames| ==>
                frame == Some(fileNames[old(currentFrame)]) && currentFrame == old(currentFrame) + 1
    {
      if currentFrame >= |fileNames| {
        frame := None;
        return;
      }
      frame := Some(fileNames[currentFrame]);
      currentFrame := currentFrame + 1;
    }

    /** The name of the file at the cursor; at the end of the list there is none and the array access fails. */
    function CurrentImageName(): (r: Result<string, CaptureError>)
      reads this
      requires Valid()
      ensures r.Success? <==> Position() < Length()
      ensures r.Success? ==> r.value == fileNames[Position()]
      ensures r.Failure? ==> r.error == IndexOutOfRange
    {
      if currentFrame < |fileNames| then Success(fileNames[currentFrame]) else Failure(IndexOutOfRange)
    }
  }

  /** Seek's origin defaults to Current: a seek by `offset` alone moves the cursor relative to itself. */
  method SeekDefaultIsRelative(capture: ImageDirectoryCapture, offset: int)
    modifies capture
    ensures capture.currentFrame == Clamp(old(capture.currentFrame) + offset, |capture.fileNames|)
  {
    var p := capture.Seek(offset);
  }

  /** Seeking to the end, a valid position, leaves no current image name. */
  method SeekToEndHasNoName(capture: ImageDirectoryCapture)
    modifies capture
    ensures capture.Valid() && capture.CurrentImageName().Failure?
  {
    var p := capture.Seek(0, End);
  }
}
