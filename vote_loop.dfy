/** The per-frame control loop of the host script: the confidence gate, the
    bounded vote history, the unanimity trigger and the servo choreography
    it sends over the serial link. */
module VoteLoop {
  import opened Protocol

  /** Probability below which a frame's label is overridden. */
  const Threshold: real := 0.6
  /** Label recorded for a frame whose probability is below the threshold. */
  const Fallback: int := 1
  /** `maxlen` of the history deque. */
  const Capacity: nat := 10

  /** The classifier's best guess for one frame: the winning label id and its
      (dequantized) probability. */
  datatype Classification = Classification(labelId: int, prob: real)

  /** The confidence gate: the label that is recorded for a frame. The
      fallback is recorded exactly when the frame is not confident or the
      classifier already chose the fallback; a confident frame keeps its label. */
  function Gate(c: Classification): (id: int)
    ensures id == Fallback <==> c.prob < Threshold || c.labelId == Fallback
    ensures c.prob >= Threshold ==> id == c.labelId
  {
    if c.prob < Threshold then Fallback else c.labelId
  }

  /** `deque.append` on a deque with `maxlen == Capacity`. */
  function Append(h: seq<int>, x: int): (r: seq<int>)
    requires |h| <= Capacity
    ensures |r| == if |h| < Capacity then |h| + 1 else Capacity
  {
    if |h| == Capacity then h[1..] + [x] else h + [x]
  }

  /** Appending is first-in first-out: the newest entry goes to the right
      end and, when the deque is full, only the oldest entry (the left end)
      is dropped, the other entries keeping their order. The result is the
      longest suffix of `h + [x]` that fits. */
  lemma AppendIsFifo(h: seq<int>, x: int)
    requires |h| <= Capacity
    ensures Append(h, x) == (h + [x])[|h| + 1 - |Append(h, x)|..]
    ensures Append(h, x)[|Append(h, x)| - 1] == x
    ensures |h| == Capacity ==> Append(h, x)[..Capacity - 1] == h[1..]
    ensures |h| < Capacity ==> Append(h, x)[..|h|] == h
  {
  }

  /** The distinct labels held by the history, `set(history)`. */
  function Distinct(h: seq<int>): set<int>
  {
    set x | x in h
  }

  /** All entries of `h` equal its first one. */
  predicate Unanimous(h: seq<int>)
  {
    forall i :: 0 <= i < |h| ==> h[i] == h[0]
  }

  /** A non-empty history holds a single distinct label exactly when all its
      entries are equal. */
  lemma SingleLabelIffUnanimous(h: seq<int>)
    requires h != []
    ensures |Distinct(h)| == 1 <==> Unanimous(h)
  {
    if Unanimous(h) {
      assert Distinct(h) == {h[0]} by {
        forall x | x in Distinct(h) ensures x == h[0] {
          var i :| 0 <= i < |h| && h[i] == x;
        }
      }
    }
    if |Distinct(h)| == 1 {
      assert h[0] in Distinct(h);
      var y :| y in Distinct(h);
      assert |Distinct(h) - {y}| == 0;
      assert Distinct(h) == {y};
      forall i | 0 <= i < |h| ensures h[i] == h[0] {
        assert h[i] in Distinct(h) && h[0] in Distinct(h);
      }
    }
  }

  /** The trigger test `len(history) == 10 and len(set(history)) == 1`: it
      holds exactly when the history is full and all its entries are equal. */
  predicate Triggers(h: seq<int>): (b: bool)
    ensures b <==> |h| == Capacity && Unanimous(h)
  {
    assert h != [] ==> (|Distinct(h)| == 1 <==> Unanimous(h)) by {
      if h != [] { SingleLabelIffUnanimous(h); }
    }
    |h| == Capacity && |Distinct(h)| == 1
  }

  /** The `i`-th of the nine commands `move(avalue)` writes: a fixed table
      in which only the seventh entry takes the argument. */
  function MoveStep(avalue: int, i: int): Command
  {
    match i
    case 0 => Command('A', 0)
    case 1 => Command('C', 105)
    case 2 => Command('D', 55)
    case 3 => Command('B', 150)
    case 4 => Command('C', 140)
    case 5 => Command('D', 0)
    case 6 => Command('A', avalue)
    case 7 => Command('B', 90)
    case _ => Command('A', 90)
  }

  /** The commands `move(avalue)` writes, in order. */
  function MoveCommands(avalue: int): (cmds: seq<Command>)
    ensures |cmds| == 9
    ensures cmds[6] == Command('A', avalue)
  {
    seq(9, i requires 0 <= i < 9 => MoveStep(avalue, i))
  }

  /** `move(v)` writes exactly `A0, C105, D55, B150, C140, D0, A<v>, B90, A90`. */
  lemma MoveCommandsInOrder(v: int)
    ensures MoveCommands(v) ==
              [Command('A', 0), Command('C', 105), Command('D', 55), Command('B', 150),
               Command('C', 140), Command('D', 0), Command('A', v), Command('B', 90),
               Command('A', 90)]
  {
  }

  /** Only the seventh command of `move` depends on its argument. */
  lemma OnlySeventhCommandDepends(v: int, w: int)
    ensures forall i :: 0 <= i < 9 && i != 6 ==> MoveCommands(v)[i] == MoveCommands(w)[i]
    ensures MoveCommands(v) == MoveCommands(w) <==> v == w
  {
    assert MoveCommands(v)[6].value == v;
  }

  /** What a trigger sends for the unanimous label: the two independent
      tests `history[0] == 0` (a nut, `move(70)`) and `history[0] == 2`
      (paper, `move(110)`). A move is sent exactly for the labels 0 and 2,
      and never more than one. */
  function TriggerOutput(id: int): (cmds: seq<Command>)
    ensures cmds == MoveCommands(70) <==> id == 0
    ensures cmds == MoveCommands(110) <==> id == 2
    ensures cmds == [] <==> id != 0 && id != 2
    ensures |cmds| == if id == 0 || id == 2 then 9 else 0
  {
    OnlySeventhCommandDepends(70, 110);
    (if id == 0 then MoveCommands(70) else []) +
    (if id == 2 then MoveCommands(110) else [])
  }

  /** What one frame leaves behind: the new history and the commands sent. */
  datatype FrameResult = FrameResult(history: seq<int>, sent: seq<Command>)

  /** One pass of the frame loop on a classified frame. */
  function FrameStep(h: seq<int>, c: Classification): (r: FrameResult)
    requires |h| <= Capacity
    ensures |r.history| <= Capacity
  {
    var h' := Append(h, Gate(c));
    if Triggers(h') then FrameResult([], TriggerOutput(h'[0])) else FrameResult(h', [])
  }

  /** A frame triggers (and so empties the history) exactly when its label
      fills the history with one label; a triggering frame sends the move
      for the frame's own label, any other frame sends nothing and keeps the
      appended history. */
  lemma FrameStepTriggersIff(h: seq<int>, c: Classification)
    requires |h| <= Capacity
    ensures FrameStep(h, c).history == [] <==>
              |Append(h, Gate(c))| == Capacity && Unanimous(Append(h, Gate(c)))
    ensures FrameStep(h, c).history == [] ==> FrameStep(h, c).sent == TriggerOutput(Gate(c))
    ensures FrameStep(h, c).history != [] ==>
              FrameStep(h, c) == FrameResult(Append(h, Gate(c)), [])
  {
    AppendIsFifo(h, Gate(c));
  }

  /** The frame loop over a finite stream of classified frames. */
  function Run(h: seq<int>, frames: seq<Classification>): (r: FrameResult)
    requires |h| <= Capacity
    ensures |r.history| <= Capacity
    decreases |frames|
  {
    if frames == [] then FrameResult(h, [])
    else
      var before := Run(h, frames[..|frames| - 1]);
      var last := FrameStep(before.history, frames[|frames| - 1]);
      FrameResult(last.history, before.sent + last.sent)
  }

  /** Running one more frame is one more `FrameStep` after the run so far. */
  lemma RunExtends(h: seq<int>, frames: seq<Classification>, i: nat)
    requires |h| <= Capacity && i < |frames|
    ensures var before := Run(h, frames[..i]);
            var step := FrameStep(before.history, frames[i]);
            Run(h, frames[..i + 1]) == FrameResult(step.history, before.sent + step.sent)
  {
    assert frames[..i + 1][..i] == frames[..i];
  }

  /** The labels the gate records for a run of frames. */
  function Gated(frames: seq<Classification>): (ids: seq<int>)
    ensures |ids| == |frames|
    ensures forall i :: 0 <= i < |frames| ==> ids[i] == Gate(frames[i])
  {
    seq(|frames|, i requires 0 <= i < |frames| => Gate(frames[i]))
  }

  /** While the history cannot fill up, frames are only recorded: nothing is
      sent. In particular, after a trigger empties the history, the next
      trigger needs at least `Capacity` more frames. */
  lemma {:induction false} ShortRunOnlyRecords(h: seq<int>, frames: seq<Classification>)
    requires |h| + |frames| < Capacity
    ensures Run(h, frames) == FrameResult(h + Gated(frames), [])
    decreases |frames|
  {
    if frames != [] {
      var n := |frames| - 1;
      ShortRunOnlyRecords(h, frames[..n]);
      assert Gated(frames) == Gated(frames[..n]) + [Gate(frames[n])];
    }
  }

  /** `Capacity` frames that all pass the gate with the same label trigger
      on the last frame and not before; the history is then empty and the
      label's move (if any) has been sent. */
  lemma AgreeingFramesTrigger(frames: seq<Classification>)
    requires |frames| == Capacity
    requires forall i :: 0 <= i < |frames| ==> Gate(frames[i]) == Gate(frames[0])
    ensures forall k :: 0 <= k < Capacity ==> Run([], frames[..k]).sent == []
    ensures Run([], frames) == FrameResult([], TriggerOutput(Gate(frames[0])))
  {
    forall k | 0 <= k < Capacity ensures Run([], frames[..k]).sent == [] {
      ShortRunOnlyRecords([], frames[..k]);
    }
    var n := Capacity - 1;
    ShortRunOnlyRecords([], frames[..n]);
    RunExtends([], frames, n);
    assert frames[..n + 1] == frames;
    var h := Gated(frames[..n]);
    assert [] + h == h;
    FillingUnanimouslyTriggers(h, frames[n]);
  }

  /** The frame that fills a history holding only its own label triggers. */
  lemma FillingUnanimouslyTriggers(h: seq<int>, c: Classification)
    requires |h| == Capacity - 1
    requires forall i :: 0 <= i < |h| ==> h[i] == Gate(c)
    ensures FrameStep(h, c) == FrameResult([], TriggerOutput(Gate(c)))
  {
    var x := Gate(c);
    AppendIsFifo(h, x);
    assert Append(h, x) == h + [x];
    assert Unanimous(h + [x]) by {
      forall i | 0 <= i < |h + [x]| ensures (h + [x])[i] == (h + [x])[0] {
        if i < |h| { assert (h + [x])[i] == h[i]; }
      }
    }
    FrameStepTriggersIff(h, c);
  }

  /** The host's state that the frame loop mutates: the history deque and
      the serial port, whose writes are recorded in order. */
  class Sorter {
    var history: seq<int>
    var tty: seq<Command>

    ghost predicate Valid()
      reads this
    {
      |history| <= Capacity
    }

    /** `history = collections.deque(maxlen=10)` on an opened port. */
    constructor ()
      ensures Valid() && history == [] && tty == []
    {
      history := [];
      tty := [];
    }

    /** `move(avalue)`: nine serial writes, one after the other. */
    method Move(avalue: int)
      modifies this`tty
      ensures tty == old(tty) + MoveCommands(avalue)
    {
      tty := tty + [Command('A', 0)];
      tty := tty + [Command('C', 105)];
      tty := tty + [Command('D', 55)];
      tty := tty + [Command('B', 150)];
      tty := tty + [Command('C', 140)];
      tty := tty + [Command('D', 0)];
      tty := tty + [Command('A', avalue)];
      tty := tty + [Command('B', 90)];
      tty := tty + [Command('A', 90)];
      MoveCommandsInOrder(avalue);
    }

    /** The body of the frame loop for one classified frame. */
    method ProcessFrame(c: Classification)
      requires Valid()
      modifies this`history, this`tty
      ensures Valid()
      ensures history == FrameStep(old(history), c).history
      ensures tty == old(tty) + FrameStep(old(history), c).sent
    {
      var id := c.labelId;
      if c.prob < Threshold {
        id := Fallback;
      }
      assert id == Gate(c);
      history := Append(history, id);
      if Triggers(history) {
        var first := history[0];
        if first == 0 {
          Move(70);
        }
        if first == 2 {
          Move(110);
        }
        assert tty == old(tty) + TriggerOutput(first);
        history := [];
      }
    }

    /** The frame loop over a finite stream of classified frames. */
    method ProcessFrames(frames: seq<Classification>)
      requires Valid()
      modifies this`history, this`tty
      ensures Valid()
      ensures history == Run(old(history), frames).history
      ensures tty == old(tty) + Run(old(history), frames).sent
    {
      ghost var h0, tty0 := history, tty;
      var i := 0;
      while i < |frames|
        invariant 0 <= i <= |frames|
        invariant Valid()
        invariant history == Run(h0, frames[..i]).history
        invariant tty == tty0 + Run(h0, frames[..i]).sent
      {
        ghost var before := Run(h0, frames[..i]);
        ghost var step := FrameStep(before.history, frames[i]);
        RunExtends(h0, frames, i);
        ProcessFrame(frames[i]);
        assert tty == tty0 + (before.sent + step.sent) by {
          AppendAssociates(tty0, before.sent, step.sent);
        }
        i := i + 1;
      }
      assert frames[..|frames|] == frames;
    }
  }
}
