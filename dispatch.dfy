/**
 * The edge-triggered command dispatcher: the globals RozkazDrona (the
 * current command) and PoprzedniRozkaz (the previous one), updated once per
 * camera frame, and the rule that a command is sent to the board only when
 * it differs from the one before.
 *
 * The first half is a specification on values: the state after a run of
 * frames (After) and the commands handed to the transport on the way
 * (Writes), with the lemmas about them. The second half is the program's
 * own state as a class whose methods are proved against that specification.
 */
module Dispatch {
  import opened Wrappers
  import opened Gesture
  import opened Serial

  /** The pair (RozkazDrona, PoprzedniRozkaz). */
  datatype DispatchState = DispatchState(current: int, previous: int)

  /** Both globals start at 0, the "no command" code. */
  const Initial: DispatchState := DispatchState(CodeNone, CodeNone)

  /** One frame: the old current code becomes the previous one, `code` the current. */
  function Step(s: DispatchState, code: int): DispatchState {
    DispatchState(code, s.current)
  }

  /** What one frame hands to send_to_arduino: `code`, if it is a change. */
  function Emitted(s: DispatchState, code: int): seq<int> {
    if code != s.current then [code] else []
  }

  /** The state after the frames classified as `codes`. */
  function After(s: DispatchState, codes: seq<int>): DispatchState {
    if codes == [] then s
    else Step(After(s, codes[..|codes| - 1]), codes[|codes| - 1])
  }

  /** Everything handed to send_to_arduino over the frames classified as `codes`. */
  function Writes(s: DispatchState, codes: seq<int>): seq<int> {
    if codes == [] then []
    else Writes(s, codes[..|codes| - 1]) + Emitted(After(s, codes[..|codes| - 1]), codes[|codes| - 1])
  }

  /** The last element of `w`, or `default` when `w` is empty. */
  function LastOr(default: int, w: seq<int>): int {
    if w == [] then default else w[|w| - 1]
  }

  /**
   * After a non-empty run, the current code is the last classified code and
   * the previous code is the one classified the frame before.
   */
  lemma AfterRun(s: DispatchState, codes: seq<int>)
    requires codes != []
    ensures After(s, codes).current == codes[|codes| - 1]
    ensures After(s, codes).previous ==
            if |codes| == 1 then s.current else codes[|codes| - 2]
  {
    var init := codes[..|codes| - 1];
    if |codes| > 1 {
      assert init[..|init| - 1] == codes[..|codes| - 2];
      assert After(s, init).current == init[|init| - 1];
    } else {
      assert init == [];
    }
  }

  /**
   * A run of one repeated code hands at most one command to the transport:
   * the first, and only if it differs from the code held before the run.
   */
  lemma {:induction false} HeldCodeSentAtMostOnce(s: DispatchState, codes: seq<int>, c: int)
    requires forall i :: 0 <= i < |codes| ==> codes[i] == c
    ensures Writes(s, codes) == if codes != [] && c != s.current then [c] else []
    decreases |codes|
  {
    if codes != [] {
      var init := codes[..|codes| - 1];
      HeldCodeSentAtMostOnce(s, init, c);
      if init != [] {
        AfterRun(s, init);
      }
    }
  }

  /** Classifying the same hand twice in a row sends nothing the second time. */
  lemma RepeatedCodeSentOnce(s: DispatchState, c: int)
    ensures Writes(s, [c, c]) == Writes(s, [c])
    ensures Writes(s, [c]) == if c != s.current then [c] else []
  {
    HeldCodeSentAtMostOnce(s, [c, c], c);
    HeldCodeSentAtMostOnce(s, [c], c);
  }

  /**
   * Every command handed to the transport is a transition: it differs from
   * the command handed over before it, and the first one differs from the
   * code held at the start.
   */
  lemma {:induction false} WritesAreTransitions(s: DispatchState, codes: seq<int>)
    ensures Writes(s, codes) != [] ==> Writes(s, codes)[0] != s.current
    ensures forall k :: 0 < k < |Writes(s, codes)| ==> Writes(s, codes)[k] != Writes(s, codes)[k - 1]
    decreases |codes|
  {
    if codes != [] {
      var init := codes[..|codes| - 1];
      var c := codes[|codes| - 1];
      WritesAreTransitions(s, init);
      PeerFollowsDispatcher(s, init);
      var w := Writes(s, init);
      if c != After(s, init).current {
        assert Writes(s, codes) == w + [c];
        assert w != [] ==> w[|w| - 1] == After(s, init).current;
      } else {
        assert Writes(s, codes) == w;
      }
    }
  }

  /**
   * The board never drifts out of step: a board that starts in the code the
   * dispatcher holds and takes every command handed over ends in the
   * dispatcher's current code. (Both sides start at 0.)
   */
  lemma {:induction false} PeerFollowsDispatcher(s: DispatchState, codes: seq<int>)
    ensures LastOr(s.current, Writes(s, codes)) == After(s, codes).current
    decreases |codes|
  {
    if codes != [] {
      var init := codes[..|codes| - 1];
      PeerFollowsDispatcher(s, init);
    }
  }

  /** At most one command per frame, and each one is a classified code of the run. */
  lemma {:induction false} WritesComeFromCodes(s: DispatchState, codes: seq<int>)
    ensures |Writes(s, codes)| <= |codes|
    ensures forall k :: 0 <= k < |Writes(s, codes)| ==> Writes(s, codes)[k] in codes
    decreases |codes|
  {
    if codes != [] {
      var init := codes[..|codes| - 1];
      WritesComeFromCodes(s, init);
      assert forall x :: x in init ==> x in codes;
    }
  }

  /** Every frame's observation is a full hand (or no hand at all). */
  predicate FramesWellFormed(frames: seq<Option<Hand>>) {
    forall i :: 0 <= i < |frames| ==> frames[i].Some? ==> WellFormed(frames[i].value)
  }

  /** The code a frame sets: the hand's classification, or 0 if no hand is seen. */
  function FrameCode(frame: Option<Hand>, sqrt: real -> real): int
    requires frame.Some? ==> WellFormed(frame.value)
  {
    match frame
    case None => CodeNone
    case Some(hand) => Classify(hand, sqrt)
  }

  /** One code per frame; every frame's code is a command code. */
  function FrameCodes(frames: seq<Option<Hand>>, sqrt: real -> real): (codes: seq<int>)
    requires FramesWellFormed(frames)
    ensures |codes| == |frames|
    ensures forall i :: 0 <= i < |codes| ==> codes[i] in {CodeNone, CodeFist, CodePeace}
  {
    seq(|frames|, i requires 0 <= i < |frames| => FrameCode(frames[i], sqrt))
  }

  /** Only the codes 0, 1 and 2 are ever handed to send_to_arduino. */
  lemma FramesSendOnlyCommandCodes(s: DispatchState, frames: seq<Option<Hand>>, sqrt: real -> real)
    requires FramesWellFormed(frames)
    ensures forall k :: 0 <= k < |Writes(s, FrameCodes(frames, sqrt))| ==>
              Writes(s, FrameCodes(frames, sqrt))[k] in {CodeNone, CodeFist, CodePeace}
  {
    WritesComeFromCodes(s, FrameCodes(frames, sqrt));
  }

  /** `a` is `b` with some elements dropped, the rest in their order. */
  ghost predicate IsSubsequence(a: seq<int>, b: seq<int>)
    decreases |b|
  {
    if a == [] then true
    else if b == [] then false
    else (a[|a| - 1] == b[|b| - 1] && IsSubsequence(a[..|a| - 1], b[..|b| - 1]))
         || IsSubsequence(a, b[..|b| - 1])
  }

  /** A subsequence of `b` is a subsequence of any extension of `b`. */
  lemma {:induction false} SubsequenceOfExtension(a: seq<int>, b: seq<int>, e: seq<int>)
    requires IsSubsequence(a, b)
    ensures IsSubsequence(a, b + e)
    decreases |e|
  {
    if e == [] {
      assert b + e == b;
    } else {
      SubsequenceOfExtension(a, b, e[..|e| - 1]);
      assert (b + e)[..|b + e| - 1] == b + e[..|e| - 1];
    }
  }

  /** Appending the same element to both sides keeps a subsequence. */
  lemma SubsequenceAppend(a: seq<int>, b: seq<int>, x: int)
    requires IsSubsequence(a, b)
    ensures IsSubsequence(a + [x], b + [x])
  {
    assert (a + [x])[..|a|] == a;
    assert (b + [x])[..|b|] == b;
  }

  /** A subsequence is no longer than the sequence and takes its elements from it. */
  lemma {:induction false} SubsequenceElements(a: seq<int>, b: seq<int>)
    requires IsSubsequence(a, b)
    ensures |a| <= |b|
    ensures forall k :: 0 <= k < |a| ==> a[k] in b
    decreases |b|
  {
    if a != [] {
      var b' := b[..|b| - 1];
      assert forall x :: x in b' ==> x in b;
      if a[|a| - 1] == b[|b| - 1] && IsSubsequence(a[..|a| - 1], b') {
        var a' := a[..|a| - 1];
        SubsequenceElements(a', b');
        forall k | 0 <= k < |a|
          ensures a[k] in b
        {
          if k < |a'| {
            assert a[k] == a'[k];
          } else {
            assert a[k] == b[|b| - 1];
          }
        }
      } else {
        SubsequenceElements(a, b');
      }
    }
  }

  /**
   * One frame on the wire: the board either received nothing new or the one
   * command this frame handed over, so the bytes received since the start
   * stay a subsequence of the commands handed over.
   */
  lemma WireStep(w0: seq<int>, before: seq<int>, after: seq<int>,
                 sent: seq<int>, emitted: seq<int>, c: int)
    requires |w0| <= |before| && before[..|w0|] == w0
    requires IsSubsequence(before[|w0|..], sent)
    requires after == before || (emitted == [c] && after == before + [c])
    ensures |w0| <= |after| && after[..|w0|] == w0
    ensures IsSubsequence(after[|w0|..], sent + emitted)
  {
    if after == before {
      SubsequenceOfExtension(before[|w0|..], sent, emitted);
    } else {
      assert after[|w0|..] == before[|w0|..] + [c];
      SubsequenceAppend(before[|w0|..], sent, c);
    }
  }

  /** Bytes received that form a subsequence of command codes are command codes. */
  lemma WireCodes(w0: seq<int>, w: seq<int>, sent: seq<int>)
    requires |w0| <= |w| && IsSubsequence(w[|w0|..], sent)
    requires forall k :: 0 <= k < |sent| ==> sent[k] in {CodeNone, CodeFist, CodePeace}
    ensures forall k :: |w0| <= k < |w| ==> w[k] in {CodeNone, CodeFist, CodePeace}
  {
    SubsequenceElements(w[|w0|..], sent);
    forall k | |w0| <= k < |w|
      ensures w[k] in {CodeNone, CodeFist, CodePeace}
    {
      assert w[k] == w[|w0|..][k - |w0|];
    }
  }

  /** What became of one call of send_to_arduino. */
  datatype SendOutcome = NotConnected | Written | Failed

  /** The program's command state and its (optional) connection to the board. */
  class Controller {
    /** RozkazDrona. */
    var current: int
    /** PoprzedniRozkaz. */
    var previous: int
    /** The connection opened at start-up, or null; fixed for the run. */
    const arduino: SerialPort?
    /** Every command handed to send_to_arduino, oldest first. */
    ghost var dispatched: seq<int>

    constructor (arduino: SerialPort?)
      ensures State() == Initial && this.arduino == arduino && dispatched == []
    {
      current := CodeNone;
      previous := CodeNone;
      this.arduino := arduino;
      dispatched := [];
    }

    function State(): DispatchState
      reads this
    {
      DispatchState(current, previous)
    }

    /**
     * send_to_arduino: without a connection nothing happens; otherwise one
     * byte equal to `command` is written. A failed write, or a command that
     * does not fit a byte (`bytes([command])` raises), is caught and reported
     * and never propagates.
     */
    method SendToArduino(command: int) returns (outcome: SendOutcome)
      modifies this`dispatched, arduino
      ensures dispatched == old(dispatched) + [command]
      ensures arduino == null <==> outcome == NotConnected
      ensures outcome == Written ==>
                0 <= command < 256 && arduino.written == old(arduino.written) + [command]
      ensures outcome == Failed ==> arduino.written == old(arduino.written)
    {
      dispatched := dispatched + [command];
      if arduino == null {
        outcome := NotConnected;
      } else if 0 <= command < 256 {
        var ok := arduino.Write([command]);
        outcome := if ok then Written else Failed;
      } else {
        outcome := Failed;
      }
    }

    /**
     * detect_gesture: classify the hand, shift the current code into the
     * previous one, and send the new code if it changed.
     */
    method DetectGesture(hand: Hand, sqrt: real -> real) returns (gesture: string)
      requires WellFormed(hand)
      modifies this`current, this`previous, this`dispatched, arduino
      ensures State() == Step(old(State()), Classify(hand, sqrt))
      ensures gesture == Label(current)
      ensures dispatched == old(dispatched) + Emitted(old(State()), current)
      ensures arduino != null ==>
                arduino.written == old(arduino.written) ||
                (current != old(current) && arduino.written == old(arduino.written) + [current])
    {
      var indexUp := IsFingerUp(IndexPoints, hand);
      var middleUp := IsFingerUp(MiddlePoints, hand);
      var ringUp := IsFingerUp(RingPoints, hand);
      var pinkyUp := IsFingerUp(PinkyPoints, hand);
      var avgDistance := ComputeAverageTipDistance(hand, sqrt);
      previous := current;
      if avgDistance < FistThreshold {
        current := CodeFist;
        gesture := "Pięść";
      } else if indexUp && middleUp && !ringUp && !pinkyUp {
        current := CodePeace;
        gesture := "Peace";
      } else {
        current := CodeNone;
        gesture := "Inna pozycja";
      }
      if current != previous {
        var _ := SendToArduino(current);
      }
    }

    /** The main loop's branch for a frame in which no hand is detected. */
    method NoHandFrame()
      modifies this`current, this`previous, this`dispatched, arduino
      ensures current == CodeNone && previous == old(current)
      ensures State() == Step(old(State()), CodeNone)
      ensures dispatched == old(dispatched) + (if old(current) != CodeNone then [CodeNone] else [])
      ensures arduino != null ==>
                arduino.written == old(arduino.written) ||
                (old(current) != CodeNone && arduino.written == old(arduino.written) + [CodeNone])
    {
      previous := current;
      current := CodeNone;
      if current != previous {
        var _ := SendToArduino(current);
      }
    }

    /**
     * One pass of the main loop: the hand's branch when a hand is seen,
     * the no-hand branch otherwise.
     */
    method Frame(frame: Option<Hand>, sqrt: real -> real)
      requires frame.Some? ==> WellFormed(frame.value)
      modifies this`current, this`previous, this`dispatched, arduino
      ensures State() == Step(old(State()), FrameCode(frame, sqrt))
      ensures dispatched == old(dispatched) + Emitted(old(State()), current)
      ensures arduino != null ==>
                arduino.written == old(arduino.written) ||
                (Emitted(old(State()), current) == [current] &&
                 arduino.written == old(arduino.written) + [current])
    {
      match frame {
        case None =>
          NoHandFrame();
        case Some(hand) =>
          var _ := DetectGesture(hand, sqrt);
      }
    }

    /**
     * The main loop over a sequence of frames (at most one hand each): the
     * state and the commands handed to the transport are those of the
     * specification.
     */
    method Run(frames: seq<Option<Hand>>, sqrt: real -> real)
      requires FramesWellFormed(frames)
      modifies this`current, this`previous, this`dispatched, arduino
      ensures State() == After(old(State()), FrameCodes(frames, sqrt))
      ensures dispatched == old(dispatched) + Writes(old(State()), FrameCodes(frames, sqrt))
      ensures arduino != null ==>
                |old(arduino.written)| <= |arduino.written| &&
                arduino.written[..|old(arduino.written)|] == old(arduino.written) &&
                IsSubsequence(arduino.written[|old(arduino.written)|..],
                              Writes(old(State()), FrameCodes(frames, sqrt)))
      ensures arduino != null ==>
                forall k :: |old(arduino.written)| <= k < |arduino.written| ==>
                  arduino.written[k] in {CodeNone, CodeFist, CodePeace}
    {
      ghost var start := State();
      ghost var codes := FrameCodes(frames, sqrt);
      ghost var w0: seq<int> := if arduino != null then arduino.written else [];
      for i := 0 to |frames|
        invariant State() == After(start, codes[..i])
        invariant dispatched == old(dispatched) + Writes(start, codes[..i])
        invariant arduino != null ==>
                    |w0| <= |arduino.written| && arduino.written[..|w0|] == w0 &&
                    IsSubsequence(arduino.written[|w0|..], Writes(start, codes[..i]))
      {
        assert codes[..i + 1][..i] == codes[..i];
        ghost var before: seq<int> := if arduino != null then arduino.written else [];
        ghost var sentBefore := Writes(start, codes[..i]);
        ghost var emitted := Emitted(After(start, codes[..i]), codes[i]);
        Frame(frames[i], sqrt);
        assert Writes(start, codes[..i + 1]) == sentBefore + emitted;
        if arduino != null {
          WireStep(w0, before, arduino.written, sentBefore, emitted, current);
        }
      }
      assert codes[..|frames|] == codes;
      if arduino != null {
        FramesSendOnlyCommandCodes(start, frames, sqrt);
        WireCodes(w0, arduino.written, Writes(start, codes));
      }
    }
  }
}
