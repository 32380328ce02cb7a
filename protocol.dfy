/** The command vocabulary shared by the host script and the servo firmware.
    On the serial link every command is one letter, an optional decimal value
    and a newline; the model keeps the letter and the value. */
module Protocol {

  /** One serial command. The firmware reads `value` only for the letters
      'A' to 'D'; for every other letter it is ignored. */
  datatype Command = Command(letter: char, value: int)

  /** The newline the host writes after every command. The firmware reads it
      as a command letter of its own. */
  const Terminator: Command := Command('\n', 0)

  /** The command stream as the firmware sees it: every command followed by
      the terminator. */
  function Terminated(cmds: seq<Command>): (r: seq<Command>)
    ensures |r| == 2 * |cmds|
    ensures forall i :: 0 <= i < |cmds| ==> r[2 * i] == cmds[i] && r[2 * i + 1] == Terminator
  {
    if cmds == [] then [] else [cmds[0], Terminator] + Terminated(cmds[1..])
  }

  /** Proof helper: concatenation regroups. The command and servo-write
      logs grow piece by piece, and the loops that extend them call this to
      regroup `(a + b) + c` as `a + (b + c)` explicitly. */
  lemma AppendAssociates<T>(a: seq<T>, b: seq<T>, c: seq<T>)
    ensures (a + b) + c == a + (b + c)
  {
  }
}
