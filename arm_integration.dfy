/** The host script and the firmware together: what the commands the host
    sends on a trigger do to the arm. */
module ArmIntegration {
  import opened Protocol
  import VoteLoop
  import opened ServoServer

  /** Commands for the servos alone never touch the saved poses. */
  lemma {:induction false} ServoCommandsKeepPoses(s: State, cmds: seq<Command>)
    requires |s.angles| == NumberServos
    requires forall i :: 0 <= i < |cmds| ==> IsServoLetter(cmds[i].letter)
    ensures ExecAll(s, cmds).poses == s.poses
    decreases |cmds|
  {
    if cmds != [] {
      ServoCommandsKeepPoses(s, cmds[..|cmds| - 1]);
    }
  }

  /** The last command addressed to servo `k` decides its angle: commands
      after it that address other servos, or no servo at all, leave that
      angle alone. */
  lemma {:induction false} LastServoCommandWins(s: State, xs: seq<Command>, k: nat, ys: seq<Command>)
    requires |s.angles| == NumberServos && k < NumberServos
    requires xs != [] && xs[|xs| - 1].letter as int - 'A' as int == k
    requires forall i :: 0 <= i < |ys| ==> ys[i].letter as int - 'A' as int != k
    ensures ExecAll(s, xs + ys).angles[k] == xs[|xs| - 1].value
    decreases |ys|
  {
    if ys == [] {
      assert xs + ys == xs;
    } else {
      var n := |ys| - 1;
      assert (xs + ys)[..|xs + ys| - 1] == xs + ys[..n];
      LastServoCommandWins(s, xs, k, ys[..n]);
    }
  }

  /** Servo `k`'s last command in `move(v)` sets its power-on angle: `A90`
      is command 8, `B90` command 7, `C140` command 4 and `D0` command 5. */
  lemma MoveLastSetsServo(s: State, v: int, k: nat)
    requires |s.angles| == NumberServos && k < NumberServos
    ensures ExecAll(s, VoteLoop.MoveCommands(v)).angles[k] == PowerOnPose[k]
  {
    var i := if k == 0 then 8 else if k == 1 then 7 else if k == 2 then 4 else 5;
    var m := VoteLoop.MoveCommands(v);
    var xs, ys := m[..i + 1], m[i + 1..];
    assert xs + ys == m;
    assert xs[i] == VoteLoop.MoveStep(v, i);
    forall j | 0 <= j < |ys| ensures ys[j].letter as int - 'A' as int != k {
      assert ys[j] == VoteLoop.MoveStep(v, i + 1 + j);
    }
    LastServoCommandWins(s, xs, k, ys);
  }

  /** Whatever pose the arm is in, the nine commands of `move(v)` leave it
      in the power-on pose, and the saved poses untouched: the last write
      to each servo is `A90`, `B90`, `C140` and `D0`. */
  lemma MoveEndsAtPowerOnPose(s: State, v: int)
    requires |s.angles| == NumberServos
    ensures ExecAll(s, VoteLoop.MoveCommands(v)).angles == PowerOnPose
    ensures ExecAll(s, VoteLoop.MoveCommands(v)).poses == s.poses
  {
    MoveSetsPowerOnAngles(s, v);
    MoveKeepsSavedPoses(s, v);
  }

  /** The angles after `move(v)` are the power-on pose: the first four
      commands are overridden by the last five. */
  lemma MoveSetsPowerOnAngles(s: State, v: int)
    requires |s.angles| == NumberServos
    ensures ExecAll(s, VoteLoop.MoveCommands(v)).angles == PowerOnPose
  {
    var angles := ExecAll(s, VoteLoop.MoveCommands(v)).angles;
    forall k | 0 <= k < NumberServos ensures angles[k] == PowerOnPose[k] {
      MoveLastSetsServo(s, v, k);
    }
    assert angles == PowerOnPose;
  }

  /** Every command of `move(v)` is a servo command, so the saved poses
      survive it. */
  lemma MoveKeepsSavedPoses(s: State, v: int)
    requires |s.angles| == NumberServos
    ensures ExecAll(s, VoteLoop.MoveCommands(v)).poses == s.poses
  {
    var m := VoteLoop.MoveCommands(v);
    forall i | 0 <= i < |m| ensures IsServoLetter(m[i].letter) {
      assert m[i] == VoteLoop.MoveStep(v, i);
    }
    ServoCommandsKeepPoses(s, m);
  }

  /** The same holds for the bytes on the wire, where every command is
      followed by a newline that the firmware reads as an unknown command. */
  lemma SentMoveEndsAtPowerOnPose(s: State, v: int)
    requires |s.angles| == NumberServos
    ensures ExecAll(s, Terminated(VoteLoop.MoveCommands(v))).angles == PowerOnPose
    ensures ExecAll(s, Terminated(VoteLoop.MoveCommands(v))).poses == s.poses
  {
    TerminatorsChangeNothing(s, VoteLoop.MoveCommands(v));
    MoveEndsAtPowerOnPose(s, v);
  }

  /** After the firmware has run what one trigger sent, the arm is in its
      power-on pose if the label was 0 or 2, and has not moved otherwise. */
  lemma TriggerLeavesArmAtRest(s: State, id: int)
    requires |s.angles| == NumberServos
    ensures id == 0 || id == 2 ==>
              ExecAll(s, Terminated(VoteLoop.TriggerOutput(id))).angles == PowerOnPose
    ensures id == 0 || id == 2 ==>
              ExecAll(s, Terminated(VoteLoop.TriggerOutput(id))).poses == s.poses
    ensures id != 0 && id != 2 ==>
              ExecAll(s, Terminated(VoteLoop.TriggerOutput(id))) == s
  {
    if id == 0 {
      SentMoveEndsAtPowerOnPose(s, 70);
    } else if id == 2 {
      SentMoveEndsAtPowerOnPose(s, 110);
    }
  }
}
