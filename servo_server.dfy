/** The servo firmware's command interpreter: four servos, their current
    angles, a table of saved poses and a counter of how many are saved. */
module ServoServer {
  import opened Protocol

  const NumberServos: nat := 4
  /** The angles the servos are driven to at power-on (`pot_angle`'s
      initialiser). */
  const PowerOnPose: seq<int> := [90, 90, 140, 0]
  /** Number of poses the save table holds. The table and its counter are
      used but not declared in the firmware source; this bound is the
      model's choice. */
  const SaveCapacity: nat := 32

  /** One `servo[servo].write(angle)` call. */
  datatype Write = Write(servo: int, angle: int)

  function Abs(x: int): nat
  {
    if x < 0 then -x else x
  }

  /** The writes that drive every servo to its angle in `pose`, servo 0
      first. */
  function PoseWrites(pose: seq<int>): seq<Write>
  {
    seq(|pose|, j requires 0 <= j < |pose| => Write(j, pose[j]))
  }

  /** The writes that replay `poses`, the oldest pose first: four writes
      per pose when every pose has one angle per servo. */
  function Replay(poses: seq<seq<int>>): (r: seq<Write>)
    ensures (forall i :: 0 <= i < |poses| ==> |poses[i]| == NumberServos) ==>
              |r| == NumberServos * |poses|
  {
    if poses == [] then []
    else Replay(poses[..|poses| - 1]) + PoseWrites(poses[|poses| - 1])
  }

  /** A sweep of `servo` from angle `from` to angle `to`: write the current
      angle, then, unless it is the target, move one degree towards it. */
  function SweepWrites(servo: int, from: int, to: int): (r: seq<Write>)
    ensures |r| == Abs(to - from) + 1
    ensures r[0] == Write(servo, from) && r[|r| - 1] == Write(servo, to)
    decreases Abs(to - from)
  {
    [Write(servo, from)] +
    (if from == to then []
     else SweepWrites(servo, if from < to then from + 1 else from - 1, to))
  }

  /** The sweep writes `|to - from| + 1` angles to `servo`: its `n`-th
      write is `n` degrees from `from` in the direction of `to`. */
  lemma {:induction false} SweepWritesAt(servo: int, from: int, to: int)
    ensures |SweepWrites(servo, from, to)| == Abs(to - from) + 1
    ensures forall n :: 0 <= n < |SweepWrites(servo, from, to)| ==>
              SweepWrites(servo, from, to)[n] ==
                Write(servo, if from <= to then from + n else from - n)
    decreases Abs(to - from)
  {
    if from != to {
      var next := if from < to then from + 1 else from - 1;
      SweepWritesAt(servo, next, to);
    }
  }

  /** The sweep starts at the old angle, ends at the new one, and every
      write differs from the one before by exactly one degree, towards
      the target; when both angles are equal it is a single write. */
  lemma SweepEndsAndSteps(servo: int, from: int, to: int)
    ensures SweepWrites(servo, from, to)[0] == Write(servo, from)
    ensures SweepWrites(servo, from, to)[|SweepWrites(servo, from, to)| - 1] == Write(servo, to)
    ensures from == to ==> SweepWrites(servo, from, to) == [Write(servo, from)]
    ensures forall n :: 0 < n < |SweepWrites(servo, from, to)| ==>
              SweepWrites(servo, from, to)[n].angle - SweepWrites(servo, from, to)[n - 1].angle
                == if from < to then 1 else -1
    ensures forall w :: w in SweepWrites(servo, from, to) ==> w.servo == servo
  {
    SweepWritesAt(servo, from, to);
  }

  /** Replaying one more pose appends that pose's writes. */
  lemma ReplayExtends(poses: seq<seq<int>>, i: nat)
    requires i < |poses|
    ensures Replay(poses[..i + 1]) == Replay(poses[..i]) + PoseWrites(poses[i])
  {
    assert poses[..i + 1][..i] == poses[..i];
  }

  /** Every pose holds one angle per servo. */
  predicate PosesWellFormed(poses: seq<seq<int>>)
  {
    forall p :: p in poses ==> |p| == NumberServos
  }

  /** The replay writes pose after pose, and within a pose servo 0 to 3:
      write `NumberServos * i + j` drives servo `j` to its angle in pose `i`. */
  lemma {:induction false} ReplayOrder(poses: seq<seq<int>>)
    requires PosesWellFormed(poses)
    ensures |Replay(poses)| == NumberServos * |poses|
    ensures forall i, j :: 0 <= i < |poses| && 0 <= j < NumberServos ==>
              Replay(poses)[NumberServos * i + j] == Write(j, poses[i][j])
  {
    if poses != [] {
      var n := |poses| - 1;
      var prefix := poses[..n];
      assert PosesWellFormed(prefix) by {
        forall p | p in prefix ensures |p| == NumberServos {
          var k :| 0 <= k < n && prefix[k] == p;
          assert poses[k] == p;
        }
      }
      ReplayOrder(prefix);
      var front, last := Replay(prefix), PoseWrites(poses[n]);
      assert poses[n] in poses;
      assert Replay(poses) == front + last;
      forall i, j | 0 <= i < |poses| && 0 <= j < NumberServos
        ensures Replay(poses)[NumberServos * i + j] == Write(j, poses[i][j])
      {
        var at := NumberServos * i + j;
        if i < n {
          assert at < |front|;
          assert prefix[i] == poses[i];
          assert (front + last)[at] == front[at];
        } else {
          assert at == |front| + j;
          assert (front + last)[at] == last[j];
        }
      }
    }
  }

  /** What the firmware knows and what it has done: the current angles,
      the saved poses in the order they were saved, and every servo write
      so far. */
  datatype State = State(angles: seq<int>, poses: seq<seq<int>>, writes: seq<Write>)

  predicate WellFormed(s: State)
  {
    |s.angles| == NumberServos && |s.poses| <= SaveCapacity && PosesWellFormed(s.poses)
  }

  /** The state right after `setup()`: the power-on pose, nothing saved,
      each servo driven to its power-on angle. */
  function Initial(): (s: State)
    ensures WellFormed(s)
  {
    State(PowerOnPose, [], PoseWrites(PowerOnPose))
  }

  /** The letter for servo `k`: 'A' for servo 0 up to 'D' for servo 3. */
  predicate IsServoLetter(letter: char)
  {
    'A' <= letter <= 'D'
  }

  /** One pass of `loop()` that has received command `c`. */
  function Exec(s: State, c: Command): (r: State)
    requires |s.angles| == NumberServos
    ensures |r.angles| == NumberServos
    ensures WellFormed(s) ==> WellFormed(r)
  {
    if c.letter == 'S' then
      if |s.poses| < SaveCapacity then s.(poses := s.poses + [s.angles]) else s
    else if c.letter == 'P' then
      s.(writes := s.writes + Replay(s.poses))
    else if c.letter == 'R' then
      s.(poses := [])
    else if IsServoLetter(c.letter) then
      var k := c.letter as int - 'A' as int;
      s.(angles := s.angles[k := c.value],
         writes := s.writes + SweepWrites(k, s.angles[k], c.value))
    else
      s
  }

  /** `loop()` run over a stream of commands, oldest first. */
  function ExecAll(s: State, cmds: seq<Command>): (r: State)
    requires |s.angles| == NumberServos
    ensures |r.angles| == NumberServos
    ensures WellFormed(s) ==> WellFormed(r)
  {
    if cmds == [] then s
    else Exec(ExecAll(s, cmds[..|cmds| - 1]), cmds[|cmds| - 1])
  }

  /** 'A' to 'D' with a value: that servo sweeps from its old angle to the
      value one degree at a time and its angle becomes the value; the
      other three angles and the saved poses do not change. */
  lemma SetAngleSweepsOneServo(s: State, c: Command)
    requires WellFormed(s) && IsServoLetter(c.letter)
    ensures var k := c.letter as int - 'A' as int;
            var r := Exec(s, c);
            && r.angles[k] == c.value
            && (forall j :: 0 <= j < NumberServos && j != k ==> r.angles[j] == s.angles[j])
            && r.poses == s.poses
            && |r.writes| == |s.writes| + Abs(c.value - s.angles[k]) + 1
            && r.writes[..|s.writes|] == s.writes
            && r.writes[|s.writes|..] == SweepWrites(k, s.angles[k], c.value)
            && r.writes[|s.writes|] == Write(k, s.angles[k])
            && r.writes[|r.writes| - 1] == Write(k, c.value)
  {
    var k := c.letter as int - 'A' as int;
    SweepEndsAndSteps(k, s.angles[k], c.value);
    SweepWritesAt(k, s.angles[k], c.value);
  }

  /** 'S' appends the current angles to the saved poses and changes
      nothing else; once the table is full it is ignored. */
  lemma SaveAppendsPose(s: State, v: int)
    requires WellFormed(s)
    ensures |s.poses| < SaveCapacity ==>
              Exec(s, Command('S', v)).poses == s.poses + [s.angles]
    ensures |s.poses| == SaveCapacity ==> Exec(s, Command('S', v)) == s
    ensures Exec(s, Command('S', v)).angles == s.angles
    ensures Exec(s, Command('S', v)).writes == s.writes
  {
  }

  /** 'P' replays every saved pose in the order saved, servo 0 to 3 within
      a pose, and changes neither the angles nor the saved poses. */
  lemma PlayReplaysPoses(s: State, v: int)
    requires WellFormed(s)
    ensures var r := Exec(s, Command('P', v));
            && r.angles == s.angles && r.poses == s.poses
            && |r.writes| == |s.writes| + NumberServos * |s.poses|
            && r.writes[..|s.writes|] == s.writes
            && forall i, j :: 0 <= i < |s.poses| && 0 <= j < NumberServos ==>
                 r.writes[|s.writes| + NumberServos * i + j] == Write(j, s.poses[i][j])
  {
    ReplayOrder(s.poses);
    var r := Exec(s, Command('P', v));
    assert r.writes == s.writes + Replay(s.poses);
  }

  /** 'R' forgets the saved poses and changes nothing else. */
  lemma ResetForgetsPoses(s: State, v: int)
    requires WellFormed(s)
    ensures Exec(s, Command('R', v)) == s.(poses := [])
  {
  }

  /** 'E' and every letter the firmware does not know change nothing. */
  lemma OtherCommandsChangeNothing(s: State, c: Command)
    requires WellFormed(s)
    requires c.letter !in {'S', 'P', 'R'} && !IsServoLetter(c.letter)
    ensures Exec(s, c) == s
  {
  }

  /** A pose saved while the table has room comes back, as the last four
      writes, when the table is then replayed. */
  lemma SavedPoseIsReplayed(s: State, v: int, w: int)
    requires WellFormed(s) && |s.poses| < SaveCapacity
    ensures var r := Exec(Exec(s, Command('S', v)), Command('P', w));
            r.writes[|r.writes| - NumberServos..] == PoseWrites(s.angles)
  {
    var saved := Exec(s, Command('S', v));
    assert saved.poses[..|saved.poses| - 1] == s.poses;
  }

  /** Streams can be cut anywhere: running `xs + ys` is running `xs`, then
      `ys` from where it left off. */
  lemma {:induction false} ExecAllAppend(s: State, xs: seq<Command>, ys: seq<Command>)
    requires |s.angles| == NumberServos
    ensures ExecAll(s, xs + ys) == ExecAll(ExecAll(s, xs), ys)
    decreases |ys|
  {
    if ys == [] {
      assert xs + ys == xs;
    } else {
      var n := |ys| - 1;
      assert (xs + ys)[..|xs + ys| - 1] == xs + ys[..n];
      ExecAllAppend(s, xs, ys[..n]);
    }
  }

  /** The newline the host sends after every command reaches `loop()` as an
      unknown command, so a terminated stream does what the bare commands
      do. */
  lemma {:induction false} TerminatorsChangeNothing(s: State, cmds: seq<Command>)
    requires |s.angles| == NumberServos
    ensures ExecAll(s, Terminated(cmds)) == ExecAll(s, cmds)
    decreases |cmds|
  {
    if cmds != [] {
      var rest := cmds[1..];
      assert cmds == [cmds[0]] + rest;
      assert [cmds[0], Terminator] == [cmds[0]] + [Terminator];
      AppendAssociates([cmds[0]], [Terminator], Terminated(rest));
      ExecAllAppend(s, [cmds[0]], [Terminator] + Terminated(rest));
      var s1 := ExecAll(s, [cmds[0]]);
      ExecAllAppend(s1, [Terminator], Terminated(rest));
      assert ExecAll(s1, [Terminator]) == s1 by {
        assert [Terminator][..0] == [];
      }
      TerminatorsChangeNothing(s1, rest);
      ExecAllAppend(s, [cmds[0]], rest);
    }
  }

  /** The saved pose in column `k` of the save table: servo `j`'s angle is
      in row `j`. */
  ghost function Column(table: array2<int>, k: int): seq<int>
    reads table
    requires table.Length0 == NumberServos && 0 <= k < table.Length1
  {
    [table[0, k], table[1, k], table[2, k], table[3, k]]
  }

  /** The firmware's globals: `pot_angle`, the save table `servo_saved`
      (one row per servo, one column per saved pose), the counter
      `saved_positions`, and the servo writes issued so far. */
  class ServoController {
    var potAngle: array<int>
    var servoSaved: array2<int>
    var savedPositions: nat
    var writes: seq<Write>

    ghost predicate Valid()
      reads this
    {
      && potAngle.Length == NumberServos
      && servoSaved.Length0 == NumberServos
      && servoSaved.Length1 == SaveCapacity
      && savedPositions <= SaveCapacity
    }

    /** The saved poses, oldest first: the first `savedPositions` columns. */
    ghost function Poses(): (poses: seq<seq<int>>)
      reads this`servoSaved, this`savedPositions, servoSaved
      requires servoSaved.Length0 == NumberServos && savedPositions <= servoSaved.Length1
      ensures |poses| == savedPositions
      ensures PosesWellFormed(poses)
    {
      var table, n := servoSaved, savedPositions;
      seq(n, k requires 0 <= k < n reads table => Column(table, k))
    }

    /** The controller's state as the command interpreter sees it. */
    ghost function Current(): (s: State)
      reads this, potAngle, servoSaved
      requires Valid()
      ensures WellFormed(s)
    {
      State(potAngle[..], Poses(), writes)
    }

    /** The globals' initial values followed by `setup()`, which drives each
        servo to its initial angle. */
    constructor ()
      ensures Valid() && fresh(potAngle) && fresh(servoSaved)
      ensures Current() == Initial()
    {
      potAngle := new int[] [90, 90, 140, 0];
      servoSaved := new int[NumberServos, SaveCapacity];
      savedPositions := 0;
      writes := [];
      new;
      var i := 0;
      while i < NumberServos
        invariant 0 <= i <= NumberServos
        invariant Valid() && fresh(potAngle) && fresh(servoSaved)
        invariant potAngle[..] == PowerOnPose && savedPositions == 0
        invariant writes == PoseWrites(PowerOnPose)[..i]
      {
        writes := writes + [Write(i, potAngle[i])];
        i := i + 1;
      }
      assert PoseWrites(PowerOnPose)[..NumberServos] == PoseWrites(PowerOnPose);
    }

    /** Command 'S': copy the current angles into the next free column and
        count it. With the table full the command is ignored, where the
        firmware would write past the end of its table. */
    method Save()
      requires Valid()
      modifies this`savedPositions, servoSaved
      ensures Valid()
      ensures Current() == Exec(old(Current()), Command('S', 0))
    {
      if savedPositions < SaveCapacity {
        for i := 0 to NumberServos
          invariant Valid() && savedPositions == old(savedPositions)
          invariant forall r, k :: 0 <= r < NumberServos && 0 <= k < SaveCapacity ==>
                      servoSaved[r, k] == if k == savedPositions && r < i then potAngle[r]
                                          else old(servoSaved[r, k])
        {
          servoSaved[i, savedPositions] := potAngle[i];
        }
        assert Column(servoSaved, savedPositions) == potAngle[..];
        ghost var before := old(Poses());
        savedPositions := savedPositions + 1;
        assert Poses() == before + [potAngle[..]] by {
          forall k | 0 <= k < savedPositions - 1
            ensures Poses()[k] == before[k]
          {
            assert Column(servoSaved, k) == old(Column(servoSaved, k));
          }
        }
      }
    }

    /** Command 'P': write every saved pose, oldest first, servo 0 to 3
        within a pose. */
    method Play()
      requires Valid()
      modifies this`writes
      ensures writes == old(writes) + Replay(Poses())
    {
      ghost var poses := Poses();
      for i := 0 to savedPositions
        invariant writes == old(writes) + Replay(poses[..i])
      {
        assert poses[i] == Column(servoSaved, i);
        ReplayExtends(poses, i);
        AppendAssociates(old(writes), Replay(poses[..i]), PoseWrites(poses[i]));
        PlayPose(i);
      }
      assert poses[..savedPositions] == poses;
    }

    /** The inner loop of 'P': write saved pose `i`, servo 0 to 3. */
    method PlayPose(i: nat)
      requires Valid() && i < SaveCapacity
      modifies this`writes
      ensures writes == old(writes) + PoseWrites(Column(servoSaved, i))
    {
      ghost var pose := PoseWrites(Column(servoSaved, i));
      for j := 0 to NumberServos
        invariant writes == old(writes) + pose[..j]
      {
        assert pose[..j + 1] == pose[..j] + [Write(j, servoSaved[j, i])];
        AppendAssociates(old(writes), pose[..j], [Write(j, servoSaved[j, i])]);
        writes := writes + [Write(j, servoSaved[j, i])];
      }
      assert pose[..NumberServos] == pose;
    }

    /** Command 'R': forget the saved poses. */
    method Clear()
      modifies this`savedPositions
      ensures savedPositions == 0
    {
      savedPositions := 0;
    }

    /** Commands 'A' to 'D': sweep servo `k` from its angle to `value` one
        degree per write, then record `value` as its angle. */
    method Sweep(k: nat, value: int)
      requires Valid() && k < NumberServos
      modifies this`writes, potAngle
      ensures potAngle[..] == old(potAngle[..])[k := value]
      ensures writes == old(writes) + SweepWrites(k, old(potAngle[k]), value)
    {
      var from := potAngle[k];
      var diff := value - from;
      ghost var swept: seq<Write> := [];
      var i := 0;
      while Abs(i) <= Abs(diff)
        invariant Abs(i) <= Abs(diff) + 1
        invariant if diff > 0 then i >= 0 else i <= 0
        invariant potAngle[..] == old(potAngle[..])
        invariant writes == old(writes) + swept
        invariant |swept| == Abs(i)
        invariant forall n :: 0 <= n < |swept| ==>
                    swept[n] == Write(k, if from <= value then from + n else from - n)
        decreases Abs(diff) + 1 - Abs(i)
      {
        writes := writes + [Write(k, potAngle[k] + i)];
        swept := swept + [Write(k, potAngle[k] + i)];
        i := i + (if diff > 0 then 1 else -1);
      }
      SweepWritesAt(k, from, value);
      assert swept == SweepWrites(k, from, value);
      potAngle[k] := value;
    }

    /** One pass of `loop()` that has received `c`. */
    method Handle(c: Command)
      requires Valid()
      modifies this`writes, this`savedPositions, potAngle, servoSaved
      ensures Valid()
      ensures Current() == Exec(old(Current()), c)
    {
      if c.letter == 'S' {
        Save();
      } else if c.letter == 'P' {
        Play();
      } else if c.letter == 'R' {
        Clear();
      } else if IsServoLetter(c.letter) {
        Sweep(c.letter as int - 'A' as int, c.value);
      } else if c.letter == 'E' {
      } else {
      }
    }

    /** `loop()` over a stream of received commands, oldest first. */
    method Serve(cmds: seq<Command>)
      requires Valid()
      modifies this`writes, this`savedPositions, potAngle, servoSaved
      ensures Valid()
      ensures Current() == ExecAll(old(Current()), cmds)
    {
      ghost var start := Current();
      for i := 0 to |cmds|
        invariant Valid()
        invariant Current() == ExecAll(start, cmds[..i])
      {
        Handle(cmds[i]);
        assert cmds[..i + 1][..i] == cmds[..i];
      }
      assert cmds[..|cmds|] == cmds;
    }
  }
}
