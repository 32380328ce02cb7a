# Sorting-arm control logic, modelled in Dafny

The system is a camera-driven sorting arm. A host script (`main.py`) classifies
camera frames and debounces the per-frame labels through a vote history. When the
history is full and unanimous, it sends a fixed choreography of servo commands over
a serial link. The firmware on the servo controller (`server.c`) interprets those
commands: it sweeps one servo at a time to a new angle, saves and replays poses, and
forgets saved poses.

The project models both pieces and what they do together:

- `protocol.dfy` (`Protocol`): a serial command, i.e. a letter and a value. It also
  holds the newline the host writes after every command.
- `labels.dfy` (`Labels`): `load_labels`, with Python's `str.strip`.
- `vote_loop.dfy` (`VoteLoop`): the per-frame body of `main()`. It covers the
  confidence gate (a probability below 0.6 records label 1), the `deque(maxlen=10)`
  append, the `len(set(history)) == 1` trigger, the `move(70)` / `move(110)`
  dispatch and the reset.
  - Pure functions specify one frame (`FrameStep`) and a run of frames (`Run`).
  - The class `Sorter` holds the history and the serial trace. Its methods are proved
    against those functions.
- `servo_server.dfy` (`ServoServer`): `loop()`'s command dispatch over `pot_angle`,
  the save table `servo_saved` and `saved_positions`. Servo writes are recorded in a
  trace.
  - A pure state machine (`Exec`, `ExecAll`) specifies the commands.
  - The class `ServoController` keeps the firmware's globals in arrays. `Handle` (one
    pass of `loop()`) and `Serve` (a stream of passes) are proved against `Exec` and
    `ExecAll`. The per-command methods are tied to `Exec` through `Handle`, and each has
    its own contract: `Save` against `Exec` on `S`, `Play` against the replay of the
    saved poses, `Clear` against an empty table, `Sweep` against the sweep's writes.
- `arm_integration.dfy` (`ArmIntegration`): the commands of `move(v)`, run through
  the firmware from any state, always leave the arm in its power-on pose
  `{90, 90, 140, 0}`. This also holds with the newlines on the wire.

The classifier is abstract: each frame arrives as a label id and a probability, a
`real`. Servo writes and serial writes are recorded as traces. Timing is not modelled.

`server.c` uses `servo_saved` and `saved_positions` but never declares them. The model
declares them with room for `SaveCapacity` (32) poses, starting at 0 like a C global.
An `S` received when the table is full is ignored. The firmware as written has no such
check and would write past the end of whatever table it declares.

## Model

| member | source | states |
|---|---|---|
| `Protocol.Terminated` | main.py:135-152 | every command is followed by exactly one newline, in order |
| `Labels.Enumerate` | main.py:37 | the `enumerate` dict comprehension has exactly the keys `0..n-1`, `n` entries, and maps key `i` to element `i` |
| `Labels.LoadLabels` | main.py:35-37 | keys are exactly `0..n-1` for `n` lines, key `i` maps to line `i` stripped, and there are `n` entries |
| `Labels.StripLeftKeepsSuffix` | main.py:37 | left stripping keeps a suffix, drops only whitespace and stops at the first non-whitespace character |
| `Labels.StripRightKeepsPrefix` | main.py:37 | right stripping keeps a prefix, drops only whitespace and stops at the last non-whitespace character |
| `Labels.Strip` | main.py:37 | `strip` never lengthens a line and leaves no whitespace at either end |
| `Labels.StripCharacterized` | main.py:37 | `strip` keeps a contiguous part cut only at whitespace, with no whitespace at either end, and is empty exactly when the line is all whitespace |
| `Labels.StripIdempotent` | main.py:37 | stripping twice equals stripping once |
| `VoteLoop.Gate` | main.py:128-130 | the fallback label 1 is recorded exactly when the probability is below 0.6 or the label already is 1; at or above 0.6 the label is kept |
| `VoteLoop.Append` | main.py:96 | the bounded deque grows by one until it holds 10 entries, then stays at 10 |
| `VoteLoop.AppendIsFifo` | main.py:131 | append keeps the newest entry at the right end and drops only the oldest when full, keeping the rest in order |
| `VoteLoop.SingleLabelIffUnanimous` | main.py:133 | a non-empty history has `len(set(history)) == 1` exactly when all its entries are equal |
| `VoteLoop.Triggers` | main.py:133 | `len(history) == 10 and len(set(history)) == 1` holds exactly when the history is full and all entries are equal |
| `VoteLoop.MoveCommands` | main.py:134-153 | `move(v)` writes nine commands, the seventh being `A<v>` |
| `VoteLoop.MoveCommandsInOrder` | main.py:135-152 | the commands are `A0, C105, D55, B150, C140, D0, A<v>, B90, A90` in that order |
| `VoteLoop.OnlySeventhCommandDepends` | main.py:148 | two moves agree everywhere except the seventh command, and they are equal exactly when their arguments are |
| `VoteLoop.TriggerOutput` | main.py:155-159 | a trigger sends `move(70)` exactly for label 0, `move(110)` exactly for label 2, nothing for any other label, so never more than one move |
| `VoteLoop.FrameStep` | main.py:128-160 | after every frame the history holds at most 10 entries |
| `VoteLoop.FrameStepTriggersIff` | main.py:131-160 | the history is emptied exactly when the append makes it full and unanimous; a trigger sends the move for the frame's label; any other frame sends nothing and keeps the appended history |
| `VoteLoop.Run` | main.py:120-160 | the history stays within 10 entries over any run of frames |
| `VoteLoop.ShortRunOnlyRecords` | main.py:128-160 | while history plus new frames stay under 10, frames are only recorded and nothing is sent, the recorded labels being the gate applied frame by frame; after a reset the next trigger needs at least 10 frames |
| `VoteLoop.AgreeingFramesTrigger` | main.py:131-160 | ten frames with one gated label send nothing during the first nine, then trigger on the tenth and leave the history empty |
| `VoteLoop.FillingUnanimouslyTriggers` | main.py:131-160 | a frame whose gated label fills a nine-entry history of that same label triggers, empties the history and sends that label's move |
| `VoteLoop.Sorter.constructor` | main.py:96 | the loop starts with an empty history and nothing written |
| `VoteLoop.Sorter.Move` | main.py:134-153 | the serial trace grows by exactly `move(avalue)`'s commands |
| `VoteLoop.Sorter.ProcessFrame` | main.py:128-160 | the new history and the commands written are those of `FrameStep` |
| `VoteLoop.Sorter.ProcessFrames` | main.py:120-160 | over a stream of frames, the history and writes are those of `Run` |
| `ServoServer.SweepWrites` | server.c:52-55 | the sweep makes `abs(v-old)+1` writes, the first at the old angle and the last at `v` |
| `ServoServer.SweepWritesAt` | server.c:50-55 | the sweep makes `abs(v-old)+1` writes to one servo, the `n`-th being `n` degrees from the old angle towards `v` |
| `ServoServer.SweepEndsAndSteps` | server.c:50-55 | the sweep starts at the old angle, ends at `v`, changes by exactly one degree per write, addresses only its servo, and is a single write when `v == old` |
| `ServoServer.Replay` | server.c:37-41 | replaying poses of four angles each makes four writes per pose |
| `ServoServer.ReplayOrder` | server.c:37-41 | replay writes `4 * |poses|` angles, pose index ascending and servo 0..3 within a pose |
| `ServoServer.Initial` | server.c:8-19 | the power-on state is well formed: four angles, no saved pose |
| `ServoServer.Exec` | server.c:24-64 | every command keeps four angles, at most `SaveCapacity` saved poses and four angles per pose |
| `ServoServer.ExecAll` | server.c:24-64 | the same invariant holds over any command stream |
| `ServoServer.SetAngleSweepsOneServo` | server.c:48-57 | `A`..`D` set only that servo's angle to the value and keep the saved poses; the writes added are exactly the sweep from the old angle to the value, `abs(v-old)+1` of them |
| `ServoServer.SaveAppendsPose` | server.c:29-35 | `S`, whatever value accompanies it, appends the current angles as the newest pose, with angles and writes unchanged; it is ignored when the table is full |
| `ServoServer.PlayReplaysPoses` | server.c:36-44 | `P` appends the saved poses' writes in order and changes neither angles nor saved poses |
| `ServoServer.ResetForgetsPoses` | server.c:45-47 | `R` empties the saved poses and changes nothing else |
| `ServoServer.OtherCommandsChangeNothing` | server.c:59-63 | `E` and every unknown letter leave the state unchanged |
| `ServoServer.SavedPoseIsReplayed` | server.c:29-44 | a pose saved with `S` while the table has room comes back as the last four writes of the next `P` |
| `ServoServer.TerminatorsChangeNothing` | server.c:61-63 | the newline after each command is an unknown command, so a terminated stream ends in the same state as the bare commands |
| `ServoServer.ServoController.constructor` | server.c:8-19 | the globals start at `{90,90,140,0}` with nothing saved, and `setup()` writes each servo's initial angle |
| `ServoServer.ServoController.Save` | server.c:29-35 | the array-level save does what `Exec` says of `S` |
| `ServoServer.ServoController.Play` | server.c:36-44 | the nested loops write exactly the replay of the saved poses |
| `ServoServer.ServoController.PlayPose` | server.c:38-41 | the inner loop writes saved pose `i` to servos 0..3 in order |
| `ServoServer.ServoController.Clear` | server.c:45-47 | the counter of saved poses becomes 0 |
| `ServoServer.ServoController.Sweep` | server.c:48-57 | the counting loop writes exactly the sweep, then only that servo's angle becomes the value |
| `ServoServer.ServoController.Handle` | server.c:24-64 | one pass of `loop()` moves the abstract state as `Exec` does |
| `ServoServer.ServoController.Serve` | server.c:24-64 | repeated passes move the abstract state as `ExecAll` does |
| `ArmIntegration.ServoCommandsKeepPoses` | server.c:48-57 | a stream of `A`..`D` commands never changes the saved poses |
| `ArmIntegration.LastServoCommandWins` | server.c:48-57 | after a stream of commands, a servo's angle is the value of the last command addressed to it; later commands for other servos or for no servo leave it alone |
| `ArmIntegration.MoveLastSetsServo` | main.py:144-152 | each servo's last command in `move(v)` (`C140`, `D0`, `B90`, `A90`) sets its power-on angle, from any state |
| `ArmIntegration.MoveSetsPowerOnAngles` | main.py:135-152 | from any state, `move(v)`'s commands leave `pot_angle == {90,90,140,0}` |
| `ArmIntegration.MoveKeepsSavedPoses` | main.py:135-152 | every command of `move(v)` addresses a servo, so the saved poses survive it |
| `ArmIntegration.MoveEndsAtPowerOnPose` | main.py:135-152 | from any state, `move(v)`'s commands leave `pot_angle == {90,90,140,0}` and the saved poses unchanged, together |
| `ArmIntegration.SentMoveEndsAtPowerOnPose` | main.py:135-152 | the newline-terminated byte stream the host actually writes also leaves `pot_angle == {90,90,140,0}` and the saved poses unchanged |
| `ArmIntegration.TriggerLeavesArmAtRest` | main.py:155-159 | after a trigger's commands the arm is in the power-on pose with its saved poses kept for labels 0 and 2, and the firmware state is untouched for any other label |

## Left out

- Inference (`classify_image`, `set_input_tensor`, main.py:40-60) is not modelled. Each frame is given as a label id and a probability, so TFLite, dequantization and `argpartition` are out of scope.
- VoteLoop.Gate: the probability is a mathematical `real`. The float32 rounding of the classifier output is not modelled.
- `slides()` (main.py:63-76) is not modelled. It is shell calls and a mouse busy-wait.
- Camera capture, image resizing and the preview annotation are not modelled (main.py:114-127, 162-170). This includes the `labels[label_id]` lookup that labels the preview.
- Argument parsing, serial-port configuration and the `time.sleep` delays are not modelled. Serial writes are a trace of commands, without timing.
- The camera loop runs until an exception ends it through the `finally` block (main.py:118, 168-170). The model runs it over a finite stream of frames and assumes every serial write succeeds and every frame completes. It does not capture a `move` cut short by a failed `tty.write` (main.py:135-152), or the `KeyError` of the preview's `labels[label_id]` lookup (main.py:167) when the label file has no line for the id, both of which end the loop. The firmware's `loop()` is modelled over a finite stream of commands.
- Byte-level parsing in the firmware (`Serial.available`, `Serial.read`, `Serial.parseInt`) is not modelled. Input arrives as (letter, value) commands, and the value is read only for `A`..`D`, as in the firmware.
- Hardware is not modelled: `setup()`'s `attach` calls, the `delay` calls, `printf` output, and the `Servo` library's own clamping of angles. A servo write is recorded with the angle the firmware passes.
- ServoServer.Exec: angles and command values are unbounded integers. The model does not capture the 16-bit `int` of the controller, the truncation of `parseInt`'s `long`, or overflow of `value - pot_angle`.
- ServoServer.ServoController.Save: once `SaveCapacity` poses are saved, `S` is ignored. The firmware has no bound check, and server.c never declares the table, so its size is unknown.
- `take_photos.py` is not part of this model. It is a camera loop that saves numbered files.
