# Simon Says with hand gestures: a Dafny model

The program is a "Simon Says" memory game played with hand gestures in front of
a camera. Its core, all in `main.py`, has two parts:

- a **gesture classifier**. It takes the 21 landmarks of one detected hand and its handedness. It decides which of the four non-thumb fingers are extended and whether the thumb is up. An ordered rule list then picks PALM, FIST, POINT, THUMBS_UP or UNKNOWN.
- the **game state machine**. This is the `SimonSays` object plus the per-frame logic of the main loop. The game shows a growing gesture sequence (SHOW), then waits for the player to repeat it (INPUT) with a 7-frame debounce and a 6-second timeout per target. A completed round scores 10 points and appends one gesture. A timeout ends the game (GAME_OVER). The `r` and `i` keys restart it.

The project has three files:

- `gestures.dfy` (module `Gestures`) holds the classifier as pure functions over exact reals.
- `game_spec.dfy` (module `GameSpec`) holds the game state as a value. `Step` is one frame of the main loop. The lemmas state what the game promises.
- `simon_says.dfy` (module `Game`) holds the `SimonSays` class. It has the source's fields, plus the loop locals `show_state`/`show_start` as `showStage`/`showStartMs`. Its mutators and its `Tick` method update the fields in place. Each one is proved to produce exactly the state that the matching `GameSpec` function gives. So every `GameSpec` lemma also holds for the object.

The finger-extension test compares two Euclidean distances: `d_tip - d_pip > threshold`. The model states it without square roots (`Gestures.Exceeds`). The lemma `ExceedsMatchesDistances` proves that this form agrees with the distance test, for any non-negative square roots of the two squared distances.

Behaviour is modelled as the code has it, including these points:

- `advance_round` sets `round` from the length *before* the append. So the invariant is `round == 1` for a one-gesture sequence and `round == |sequence| - 1` after that (`GameSpec.RoundFor`). The status bar shows `|sequence|` instead (`DisplayedRound`).
- The score is always `10 * (|sequence| - 1)`.
- The INPUT timeout uses the elapsed time taken at the start of the frame. The test is strict (`> 6000` ms). It runs after any advance in the same frame. So a frame can confirm a target, or even complete a round, and still end the game.
- `r` restarts in every phase except MENU, so it also works mid-SHOW and mid-INPUT. `i` restarts only in MENU or GAME_OVER. Keys are handled after the phase logic.
- A restart does not reset the display/gap stage. If `r` is pressed during a gap, the fresh game's only gesture is counted as shown without being displayed (`RestartDuringGapSkipsDisplay`).

- Classification fails, with an index error, only on fewer than 21 landmarks. Any landmarks after the 21st are ignored (`ClassifyGesture`).
- The timeout fires only when the elapsed time is strictly greater than 6000 ms; exactly 6000 ms is still in time.
- A two-gesture sequence always comes with a score of 10, since the score is tied to the length. So `WrongGestureTimeoutScenario` states that a timeout leaves the score unchanged, not that it is 0.
- Completing a round does not clear `stable_count`; it stays at 7 through SHOW until `start_input` clears it (`RoundCompletion`).
- `reset_game(full=False)` on a sequence of two or more gestures keeps the sequence but sets score 0 and round 1, which breaks the invariant tying both to the length. The program never calls it that way (every call passes `full=True`), so the invariant is proved for `Tick` and the constructor. The separate mutators (`ResetGame`, `StartGame`, ...) are proved against their `GameSpec` functions and neither require nor promise the invariant.

Time is a caller-supplied integer number of milliseconds (`nowMs`). The random draws (`random.choice`) are caller-supplied gestures of the vocabulary: `grow` is the gesture appended on round completion, and `first` is the first gesture of a restarted game.

## Model

| member | source | states |
|---|---|---|
| `Gestures.ExceedsMatchesDistances` | main.py:90-98 | for non-negative distances and a positive threshold, the root-free test on the squared distances holds iff `d_tip - d_pip > threshold` |
| `Gestures.FingerExtendedMeansDistanceGap` | main.py:90-98 | on a landmark list, `FingerExtended` is exactly "wrist-to-tip distance minus wrist-to-PIP distance exceeds the threshold", for the square roots of the squared distances |
| `Gestures.FingerExtended` | main.py:90-98 | an extended finger has its tip strictly farther from the wrist than its PIP joint |
| `Gestures.PointsUpward` | main.py:113-114 | an "upward" thumb tip is strictly above the wrist (smaller y); a tip straight above the wrist is upward |
| `Gestures.LateralOk` | main.py:117-121 | the lateral test fails only when the tip is more than 0.03 away horizontally from the thumb MCP |
| `Gestures.LateralBoundsOverlap` | main.py:117-121 | every thumb passes the lateral test for at least one handedness, and for both when its horizontal offset is at most 0.03 |
| `Gestures.ThumbUp` | main.py:100-123 | an accepted thumb tip is above the wrist and farther from the wrist than the thumb PIP |
| `Gestures.ThumbUpOnDistances` | main.py:100-123 | the thumb is up iff `d_tip - d_pip > 0.02`, its height above the wrist exceeds 0.35 times its horizontal offset, and its x-offset from the MCP is at least -0.03 (Right) or at most 0.03 (Left) |
| `Gestures.CountExtended` | main.py:133 | `others_ext` is at most 4; it is 0 iff no finger is extended and 4 iff all are |
| `Gestures.Decide` | main.py:138-155 | the first-match rule list, with each label characterised on its own: PALM iff at least 3 fingers; FIST iff none and thumb not up; POINT iff only the index; THUMBS_UP iff thumb up, at most one finger and not "only index"; UNKNOWN iff two fingers, or one non-index finger without thumb |
| `Gestures.ClassifyGesture` | main.py:125-136 | classification fails (index error) exactly when fewer than 21 landmarks are given |
| `Gestures.PalmWhateverThumb` | main.py:139-141 | with at least three non-thumb fingers extended, the result is PALM for either handedness, whatever the thumb |
| `Gestures.MirrorKeepsExtension` | main.py:90-98 | mirroring every x-coordinate leaves each finger-extension verdict unchanged |
| `Gestures.MirrorKeepsThumbUp` | main.py:100-123 | mirroring every x-coordinate and swapping Left and Right leaves the thumb-up verdict unchanged |
| `Gestures.MirrorKeepsGesture` | main.py:125-155 | the whole classification, including its failure, is unchanged by mirroring with handedness swapped |
| `GameSpec.Reset` | main.py:162-173 | MENU, score 0, round 1, indices and counter 0, target is the first element of a non-empty sequence; a full reset gives `[first]`, otherwise a non-empty sequence is kept |
| `GameSpec.StartInput` | main.py:180-186 | INPUT at index 0 with the target equal to `sequence[input_index]`, counter 0, deadline start `nowMs`; sequence, score and round kept |
| `GameSpec.AdvanceRound` | main.py:188-192 | score +10, the old sequence is a prefix of the new one and one drawn gesture follows, round becomes the old length, SHOW at index 0 |
| `GameSpec.ShowLogic` | main.py:238-250 | sequence, score and round kept; the shown index moves by exactly one iff a gap of at least 800 ms has ended, otherwise index and phase stay; INPUT starts when that move passes the last element |
| `GameSpec.Confirm` | main.py:272-281 | the input index moves by one; either the next target with counter 0 and a new deadline, or the round completes with score +10, one appended gesture and SHOW from the start |
| `GameSpec.InputLogic` | main.py:252-285 | in INPUT the phase becomes GAME_OVER iff the elapsed time exceeds 6000 ms; a mismatch clears the counter and keeps the index; the score rises by 0 or 10 |
| `GameSpec.KeyLogic` | main.py:294-299 | a restart key gives a fresh game in SHOW; any other key leaves the state unchanged |
| `GameSpec.Step` | main.py:230-299 | a frame ends in MENU iff it started in MENU and the key was not `i`; the score stays, rises by 10, or is reset to 0 |
| `GameSpec.InitialKeepsInv` | main.py:157-173 | the state built at start is in MENU with a one-gesture sequence and satisfies the game invariant |
| `GameSpec.AdvanceRoundKeepsVocabulary` | main.py:188-192 | appending a vocabulary gesture keeps every element of the sequence in the vocabulary |
| `GameSpec.InputLogicKeepsInv` | main.py:252-285 | the INPUT branch keeps the invariant (index below length, target equals `sequence[input_index]`, counter below 7, score and round tied to the length) |
| `GameSpec.ConfirmKeepsInv` | main.py:272-281 | confirming the current target with the counter at 7 keeps the invariant and leaves the display stage at its start |
| `GameSpec.StepKeepsInv` | main.py:230-299 | every frame, phase logic followed by key handling, keeps the invariant |
| `GameSpec.Run` | main.py:213-299 | every state reached by a run of frames satisfies the invariant |
| `GameSpec.RestartGivesFreshGame` | main.py:296-299 | `r` outside MENU and `i` in MENU or GAME_OVER give, from any state, sequence `[first]`, score 0, round 1, target `first`, SHOW at index 0 |
| `GameSpec.MenuAndGameOverWaitForKey` | main.py:230-236 | in MENU without `i`, and in GAME_OVER without `r` or `i`, a frame changes nothing |
| `GameSpec.GameOverLeftOnlyByRestart` | main.py:287-299 | GAME_OVER is left iff the key is `r` or `i`, and then into a fresh game |
| `GameSpec.RestartDuringGapSkipsDisplay` | main.py:246-250 | `r` pressed during a gap keeps the gap stage, and the frame that ends the gap starts INPUT on the fresh gesture before it has been displayed |
| `GameSpec.DisplayEndsAfterShowTime` | main.py:241-245 | in the display stage the gap begins iff at least 1500 ms have passed; the shown index never moves and otherwise nothing changes |
| `GameSpec.GapEndAdvancesShowIndex` | main.py:246-250 | a gap shorter than 800 ms changes nothing; at its end the index moves by exactly one, or past the last element INPUT starts at index 0 with counter 0, target `sequence[0]` and a new deadline |
| `GameSpec.ShowIndexMovesOnlyAtGapEnd` | main.py:241-250 | while SHOW lasts, the shown index stays put or moves by one, and only at the end of a gap of at least 800 ms |
| `GameSpec.MismatchClearsCount` | main.py:263-269 | a frame whose gesture differs from the target sets the counter to 0 and changes nothing else, except that it ends the game iff more than 6000 ms have passed |
| `GameSpec.NoHandClearsCount` | main.py:227-228 | a frame without a hand (UNKNOWN) always clears the counter, since no target is UNKNOWN |
| `GameSpec.MatchCountsOne` | main.py:263-266 | a matching frame below the threshold raises the counter by exactly 1 and changes nothing else, except that it ends the game iff more than 6000 ms have passed |
| `GameSpec.ConfirmAdvancesOnce` | main.py:272-285 | the seventh matching frame moves the index by exactly one, sets target `sequence[i+1]`, clears the counter, restarts the deadline; the phase becomes GAME_OVER iff the frame's starting elapsed time exceeded 6000 ms |
| `GameSpec.RoundCompletion` | main.py:272-277 | confirming the last target raises the score by exactly 10, appends one gesture after the unchanged prefix, sets round to the old length and SHOW at index 0 (GAME_OVER instead if the frame timed out), and leaves the counter at 7 |
| `GameSpec.ScoreMovesOnlyOnRoundCompletion` | main.py:188-192 | without a restart, score and sequence change iff a round is completed; then by exactly +10 and one appended gesture |
| `GameSpec.TimeoutEndsGame` | main.py:258-285 | in INPUT without a restart key, the frame ends in GAME_OVER iff more than 6000 ms passed since the current target started, whatever the counter |
| `GameSpec.MatchingTicksAccumulate` | main.py:263-272 | fewer than seven matching frames in time only raise the counter, one per frame |
| `GameSpec.MismatchingTicksKeepZero` | main.py:263-269 | any number of mismatching frames in time, from a cleared counter, leave the state unchanged |
| `GameSpec.SevenMatchingTicksConfirmOnce` | main.py:263-281 | from a cleared counter, seven matching frames in time confirm the target exactly once: next target with a cleared counter, or the round completes with score +10 and one appended gesture |
| `GameSpec.SixMatchesThenLast` | main.py:263-272 | seven matching frames in time amount to six that only count, then the seventh from a counter of 6 |
| `GameSpec.SeventhMatchConfirms` | main.py:263-281 | a matching frame in time with the counter at 6 confirms the target: next target with a cleared counter, or score +10, one appended gesture and SHOW |
| `GameSpec.SinglePalmRoundScenario` | main.py:263-277 | from a one-PALM sequence in INPUT, seven PALM frames give score 10, sequence `[PALM, next]` and SHOW |
| `GameSpec.WrongGestureTimeoutScenario` | main.py:258-285 | with sequence `[FIST, POINT]`, seven POINT frames keep the counter at 0, and the first frame past the deadline ends the game with the score unchanged |
| `Game.SimonSays.constructor` | main.py:158-160 | the new object is the starting state (MENU, one-gesture sequence) and satisfies the invariant |
| `Game.SimonSays.ResetGame` | main.py:162-173 | the fields become the `Reset` state: a new one-gesture sequence (kept when not full and non-empty), counters and score cleared, MENU |
| `Game.SimonSays.StartGame` | main.py:175-178 | phase SHOW, show index 0, nothing else changed |
| `Game.SimonSays.StartInput` | main.py:180-186 | phase INPUT at index 0, target `sequence[0]`, counter 0, deadline start `nowMs` |
| `Game.SimonSays.AdvanceRound` | main.py:188-192 | sequence becomes old sequence plus the drawn gesture, score up by 10, round set to the old length, SHOW at index 0 |
| `Game.SimonSays.EndGame` | main.py:194-196 | phase GAME_OVER, nothing else changed |
| `Game.SimonSays.ShowTick` | main.py:238-250 | the fields change as `ShowLogic` says |
| `Game.SimonSays.ConfirmTarget` | main.py:272-281 | the fields change as `Confirm` says |
| `Game.SimonSays.InputTick` | main.py:252-285 | the fields change as `InputLogic` says |
| `Game.SimonSays.KeyTick` | main.py:296-299 | the fields change as `KeyLogic` says |
| `Game.SimonSays.Tick` | main.py:230-299 | one frame keeps the invariant and moves the object to `Step` of its old state, so every `GameSpec` lemma applies to it |
| `Game.SimonSays.DisplayedRound` | main.py:292 | the status bar's round is the sequence length, which is the `round` field or one more than it |
| `Game.SimonSays.ShownGesture` | main.py:241-243 | in SHOW the displayed gesture is `sequence[show_index]`, in range and in the vocabulary |

## Left out

- Drawing and display (`put_text`, `draw_overlay_box`, `draw_center_text`, `draw_status_bar`, `draw_checkmark`, the per-phase overlays, the "time remaining" text and the check mark): display only, no effect on the state.
- Camera capture, frame flipping and conversion, the MediaPipe hand detector and landmark drawing: I/O and a foreign library. The detected gesture and the key are inputs of `Tick`.
- The `q` key and the exception handling around the loop: they end the loop and do not change the game.
- Floating point: coordinates and distances are exact reals. The model does not capture the rounding of `np.hypot` or the `float32` vectors of `vector`.
- Clock: the source reads the clock as integer milliseconds for SHOW and as float seconds for INPUT. The model uses one integer millisecond clock for both, so it does not capture sub-millisecond differences near the 6000 ms bound or two clock reads in one frame in different places.
- Handedness is an enumeration {Left, Right}. The source treats every label other than "Right" as Left.
- The first, shadowed definition of `finger_extended` (main.py:76-80) is dead code and is not modelled. So is the default threshold 0.035: every call passes its own threshold.
- `random.choice` is replaced by caller-supplied vocabulary gestures.
- The user-facing `message` strings are not modelled. They carry no logic.
