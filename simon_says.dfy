/**
 * The game object and the main loop's per-frame logic. The object's fields are
 * updated in place, as in the source; the two locals of the main loop that
 * time the SHOW phase (`show_state`, `show_start`) are folded into the object.
 * Each method is proved to produce the state the matching GameSpec function
 * gives, so every lemma of GameSpec applies to the object.
 */
module Game {
  import opened Gestures
  import opened GameSpec

  class SimonSays {
    var sequence: seq<Gesture>
    var round: int
    var score: int
    var phase: Phase
    var showIndex: nat
    var inputIndex: nat
    var stableCount: nat
    var currentTarget: Gesture
    var gestureStartMs: int
    var showStage: ShowStage
    var showStartMs: int

    /** The object's fields as one value. */
    function State(): GameState
      reads this
    {
      GameState(sequence, round, score, phase, showIndex, inputIndex, stableCount,
                currentTarget, gestureStartMs, showStage, showStartMs)
    }

    predicate Valid()
      reads this
    {
      Inv(State())
    }

    /** The object as built at program start, with the SHOW timer started at `nowMs`. */
    constructor (first: Gesture, nowMs: int)
      requires InVocabulary(first)
      ensures Valid()
      ensures State() == Initial(first, nowMs)
    {
      sequence := [];
      round, score, phase := 0, 0, Menu;
      showIndex, inputIndex, stableCount := 0, 0, 0;
      currentTarget, gestureStartMs := first, 0;
      showStage, showStartMs := ShowGesture, nowMs;
      new;
      ResetGame(true, first);
      InitialKeepsInv(first, nowMs);
    }

    method ResetGame(full: bool, first: Gesture)
      modifies this
      ensures State() == Reset(old(State()), full, first)
    {
      if full || |sequence| == 0 {
        sequence := [first];
      }
      round := 1;
      score := 0;
      phase := Menu;
      showIndex := 0;
      inputIndex := 0;
      stableCount := 0;
      currentTarget := sequence[0];
      gestureStartMs := 0;
    }

    method StartGame()
      modifies this
      ensures State() == GameSpec.StartGame(old(State()))
    {
      phase := Show;
      showIndex := 0;
    }

    method StartInput(nowMs: int)
      requires |sequence| >= 1
      modifies this
      ensures State() == GameSpec.StartInput(old(State()), nowMs)
    {
      phase := Input;
      inputIndex := 0;
      currentTarget := sequence[inputIndex];
      stableCount := 0;
      gestureStartMs := nowMs;
    }

    method AdvanceRound(grow: Gesture)
      modifies this
      ensures State() == GameSpec.AdvanceRound(old(State()), grow)
      ensures sequence == old(sequence) + [grow] && score == old(score) + PointsPerRound
    {
      round := |sequence|;
      score := score + PointsPerRound;
      sequence := sequence + [grow];
      StartGame();
    }

    method EndGame()
      modifies this
      ensures State() == GameSpec.EndGame(old(State()))
    {
      phase := GameOver;
    }

    /** The SHOW branch of a frame. */
    method ShowTick(nowMs: int)
      requires |sequence| >= 1
      modifies this
      ensures State() == ShowLogic(old(State()), nowMs)
    {
      var elapsed := nowMs - showStartMs;
      if showStage == ShowGesture {
        if elapsed >= ShowGestureMs {
          showStage := Gap;
          showStartMs := nowMs;
        }
      } else if elapsed >= ShowGapMs {
        showIndex := showIndex + 1;
        showStage := ShowGesture;
        showStartMs := nowMs;
        if showIndex >= |sequence| {
          StartInput(nowMs);
        }
      }
    }

    /** A confirmed target: move to the next one, or complete the round. */
    method ConfirmTarget(nowMs: int, grow: Gesture)
      modifies this
      ensures State() == Confirm(old(State()), nowMs, grow)
    {
      inputIndex := inputIndex + 1;
      if inputIndex >= |sequence| {
        AdvanceRound(grow);
        showStage := ShowGesture;
        showStartMs := nowMs;
      } else {
        currentTarget := sequence[inputIndex];
        stableCount := 0;
        gestureStartMs := nowMs;
      }
    }

    /** The INPUT branch of a frame: debounce, confirm, then the timeout test on the starting deadline. */
    method InputTick(detected: Gesture, nowMs: int, grow: Gesture)
      modifies this
      ensures State() == InputLogic(old(State()), detected, nowMs, grow)
    {
      var elapsed := nowMs - gestureStartMs;
      if detected == currentTarget {
        stableCount := stableCount + 1;
      } else {
        stableCount := 0;
      }
      if stableCount >= StableFramesRequired {
        ConfirmTarget(nowMs, grow);
      }
      if elapsed > GestureTimeoutMs {
        EndGame();
      }
    }

    /** The key handling at the end of a frame. */
    method KeyTick(key: Key, first: Gesture, nowMs: int)
      modifies this
      ensures State() == KeyLogic(old(State()), key, first, nowMs)
    {
      if (key == KeyR && phase != Menu) || (key == KeyI && (phase == Menu || phase == GameOver)) {
        ResetGame(true, first);
        StartGame();
        showStartMs := nowMs;
      }
    }

    /**
     * One frame of the main loop after detection: the phase logic, then the
     * key. `grow` is the draw appended on a completed round, `first` the draw
     * of a restart.
     */
    method Tick(detected: Gesture, nowMs: int, key: Key, grow: Gesture, first: Gesture)
      requires Valid() && InVocabulary(grow) && InVocabulary(first)
      modifies this
      ensures Valid()
      ensures State() == Step(old(State()), TickInput(detected, nowMs, key, grow, first))
    {
      StepKeepsInv(State(), TickInput(detected, nowMs, key, grow, first));
      if phase == Show {
        ShowTick(nowMs);
      } else if phase == Input {
        InputTick(detected, nowMs, grow);
      }
      KeyTick(key, first, nowMs);
    }

    /** The round shown on the status bar, which is the sequence length, not the `round` field. */
    method DisplayedRound() returns (n: nat)
      requires Valid()
      ensures n == |sequence| && n >= 1
      ensures n == round || (n == round + 1 && n >= 2)
    {
      n := |sequence|;
    }

    /** The gesture displayed during the display stage of SHOW. */
    method ShownGesture() returns (g: Gesture)
      requires Valid() && phase == Show
      ensures showIndex < |sequence| && g == sequence[showIndex]
      ensures InVocabulary(g)
    {
      g := sequence[showIndex];
    }
  }
}
