/** The frame counter of include/scenePlayer.h that steps through the frames
    of an animation. */
module ScenePlayers {

  /** One call of getNextFrame: the frame returned and the current frame
      left behind. */
  datatype Tick = Tick(frame: int, next: int)

  /** getNextFrame from a current frame: the current frame, advancing by one,
      unless it is past the last frame, in which case frame 1 is returned and
      the counter restarts at 1. */
  function Step(current: int, frameCount: int): (t: Tick)
    ensures current <= frameCount ==> t.frame == current && t.next == current + 1
    ensures current > frameCount ==> t.frame == 1 && t.next == 1
  {
    if current > frameCount then Tick(1, 1) else Tick(current, current + 1)
  }

  /** The frames of k successive calls, from a current frame. */
  function Frames(current: int, frameCount: int, k: nat): (frames: seq<int>)
    ensures |frames| == k
    decreases k
  {
    if k == 0 then []
    else
      var t := Step(current, frameCount);
      [t.frame] + Frames(t.next, frameCount, k - 1)
  }

  /** The current frame after k successive calls. */
  function After(current: int, frameCount: int, k: nat): int
    decreases k
  {
    if k == 0 then current else After(Step(current, frameCount).next, frameCount, k - 1)
  }

  /** With at least one frame, a current frame in [1, frameCount + 1] returns
      a frame in [1, frameCount] and stays in [1, frameCount + 1]. */
  lemma StepInRange(current: int, frameCount: int)
    requires frameCount >= 1 && 1 <= current <= frameCount + 1
    ensures 1 <= Step(current, frameCount).frame <= frameCount
    ensures 1 <= Step(current, frameCount).next <= frameCount + 1
  {
  }

  /** Every frame of any run from a fresh player lies in [1, frameCount]. */
  lemma {:induction false} FramesInRange(current: int, frameCount: int, k: nat)
    requires frameCount >= 1 && 1 <= current <= frameCount + 1
    ensures forall i :: 0 <= i < k ==> 1 <= Frames(current, frameCount, k)[i] <= frameCount
    decreases k
  {
    if k > 0 {
      var t := Step(current, frameCount);
      StepInRange(current, frameCount);
      FramesInRange(t.next, frameCount, k - 1);
    }
  }

  /** With no frames (frameCount <= 0, the default -1 included) every call
      returns frame 1. */
  lemma {:induction false} NoFramesAlwaysOne(current: int, frameCount: int, k: nat)
    requires frameCount <= 0 && current >= 1
    ensures forall i :: 0 <= i < k ==> Frames(current, frameCount, k)[i] == 1
    decreases k
  {
    if k > 0 {
      NoFramesAlwaysOne(Step(current, frameCount).next, frameCount, k - 1);
    }
  }

  /** The frames of a run from frame 1 up to and including the wrap: 1, ...,
      frameCount, and then 1 once more, leaving the counter at 1. */
  lemma {:induction false} CycleFrom(first: int, frameCount: int)
    requires 1 <= first <= frameCount + 1
    ensures Frames(first, frameCount, frameCount + 2 - first)
      == seq(frameCount + 1 - first, i => first + i) + [1]
    ensures After(first, frameCount, frameCount + 2 - first) == 1
    decreases frameCount + 1 - first
  {
    if first <= frameCount {
      CycleFrom(first + 1, frameCount);
      assert Frames(first, frameCount, frameCount + 2 - first)
        == [first] + Frames(first + 1, frameCount, frameCount + 1 - first);
      assert seq(frameCount + 1 - first, i => first + i)
        == [first] + seq(frameCount - first, i => first + 1 + i);
    } else {
      assert Frames(first, frameCount, 1) == [1] + Frames(1, frameCount, 0);
    }
  }

  /** A fresh player with frameCount >= 1 plays 1, 2, ..., frameCount, 1 and
      is then back at its starting state: the period is frameCount + 1 calls,
      and frame 1 comes twice in a row across the wrap. */
  lemma Cycle(frameCount: int)
    requires frameCount >= 1
    ensures Frames(1, frameCount, frameCount + 1) == seq(frameCount, i => 1 + i) + [1]
    ensures After(1, frameCount, frameCount + 1) == 1
    ensures Frames(1, frameCount, frameCount + 2)[frameCount..] == [1, 1]
  {
    CycleFrom(1, frameCount);
    FramesSplit(1, frameCount, frameCount + 1, 1);
    assert Frames(1, frameCount, frameCount + 2)[frameCount] == Frames(1, frameCount, frameCount + 1)[frameCount];
  }

  /** A run of j + k calls is a run of j calls followed by a run of k calls
      from where the first one stopped. */
  lemma {:induction false} FramesSplit(current: int, frameCount: int, j: nat, k: nat)
    ensures Frames(current, frameCount, j + k)
      == Frames(current, frameCount, j) + Frames(After(current, frameCount, j), frameCount, k)
    decreases j
  {
    if j > 0 {
      var t := Step(current, frameCount);
      FramesSplit(t.next, frameCount, j - 1, k);
    }
  }

  /** For three frames the sequence is 1, 2, 3, 1, 1, 2, 3, 1. */
  lemma ThreeFrames()
    ensures Frames(1, 3, 8) == [1, 2, 3, 1, 1, 2, 3, 1]
  {
    Cycle(3);
    FramesSplit(1, 3, 4, 4);
  }

  class ScenePlayer {
    var play: bool
    var currentFrame: int
    var frameCount: int

    /** ScenePlayer(frameCount): not playing, at frame 1. */
    constructor (frameCount: int)
      ensures !play && currentFrame == 1 && this.frameCount == frameCount
    {
      play := false;
      currentFrame := 1;
      this.frameCount := frameCount;
    }

    /** ScenePlayer(): the default frame count is -1. */
    constructor Default()
      ensures !play && currentFrame == 1 && frameCount == -1
    {
      play := false;
      currentFrame := 1;
      frameCount := -1;
    }

    /** With at least one frame, the current frame is within [1, frameCount + 1]. */
    predicate InRange()
      reads this
    {
      frameCount >= 1 ==> 1 <= currentFrame <= frameCount + 1
    }

    /** playPause: toggles playing and nothing else. */
    method PlayPause()
      modifies this
      ensures play == !old(play)
      ensures currentFrame == old(currentFrame) && frameCount == old(frameCount)
    {
      play := !play;
    }

    /** isPaused: true exactly when not playing. */
    function IsPaused(): (r: bool)
      reads this
      ensures r <==> !play
    {
      play == false
    }

    /** getNextFrame: one Step of the counter; play and the frame count are
        untouched, the range invariant is kept, and with at least one frame
        the returned frame is a real one. */
    method GetNextFrame() returns (frame: int)
      modifies this
      ensures frame == Step(old(currentFrame), frameCount).frame
      ensures currentFrame == Step(old(currentFrame), frameCount).next
      ensures play == old(play) && frameCount == old(frameCount)
      ensures old(InRange()) ==> InRange()
      ensures old(InRange()) && frameCount >= 1 ==> 1 <= frame <= frameCount
    {
      var nextFrame := currentFrame;
      currentFrame := currentFrame + 1;
      if nextFrame > frameCount {
        nextFrame := 1;
        currentFrame := nextFrame;
      }
      frame := nextFrame;
    }
  }

  /** Pressing play/pause twice restores the playing state. */
  method PlayPauseTwice(player: ScenePlayer)
    modifies player
    ensures player.play == old(player.play) && player.IsPaused() == old(player.IsPaused())
    ensures player.currentFrame == old(player.currentFrame) && player.frameCount == old(player.frameCount)
  {
    player.PlayPause();
    player.PlayPause();
  }
}
