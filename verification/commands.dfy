/** The gate command mailbox (`command_queue`): the admin's manual-control
    action appends a command, the gate controller's poll removes the oldest
    one, and an empty mailbox answers "none". */
module Commands {

  datatype Command = OpenEntry | OpenExit

  /** The string a command is stored and delivered as. */
  function Wire(c: Command): string {
    match c
    case OpenEntry => "OPEN_ENTRY"
    case OpenExit => "OPEN_EXIT"
  }

  /** The poll answer for an empty mailbox. */
  const NoCommand := "none"

  type Queue = seq<Command>

  /** `api_manual_control(action)`: the new queue and whether the action was
      accepted ("ok") rather than rejected as an invalid command. */
  datatype ControlReply = ControlReply(queue: Queue, accepted: bool)

  function ManualControl(q: Queue, action: string): (r: ControlReply)
    ensures action == "open_entry" ==> r == ControlReply(q + [OpenEntry], true)
    ensures action == "open_exit" ==> r == ControlReply(q + [OpenExit], true)
    ensures r.accepted <==> action == "open_entry" || action == "open_exit"
    ensures !r.accepted ==> r.queue == q
    ensures r.accepted ==> |r.queue| == |q| + 1 && r.queue[..|q|] == q
  {
    if action == "open_entry" then ControlReply(q + [OpenEntry], true)
    else if action == "open_exit" then ControlReply(q + [OpenExit], true)
    else ControlReply(q, false)
  }

  /** `api_get_command()`: the queue after the poll and the command string
      it delivered. */
  datatype PollReply = PollReply(queue: Queue, command: string)

  function GetCommand(q: Queue): (r: PollReply)
    ensures q == [] ==> r == PollReply([], NoCommand)
    ensures q != [] ==> q == [q[0]] + r.queue && r.command == Wire(q[0])
    ensures r.command != NoCommand <==> q != []
  {
    if |q| > 0 then PollReply(q[1..], Wire(q[0])) else PollReply(q, NoCommand)
  }

  /** The strings of the commands of `q`, in order. */
  function Wires(q: Queue): (r: seq<string>)
    ensures |r| == |q|
    ensures forall i :: 0 <= i < |q| ==> r[i] == Wire(q[i])
  {
    if q == [] then [] else [Wire(q[0])] + Wires(q[1..])
  }

  /** `k` consecutive polls: the answers in order and the queue left over. */
  function Poll(q: Queue, k: nat): (r: (seq<string>, Queue))
    ensures |r.0| == k
  {
    if k == 0 then ([], q)
    else
      var first := GetCommand(q);
      var rest := Poll(first.queue, k - 1);
      ([first.command] + rest.0, rest.1)
  }

  function Nones(m: nat): (r: seq<string>)
    ensures |r| == m && forall i :: 0 <= i < m ==> r[i] == NoCommand
  {
    if m == 0 then [] else [NoCommand] + Nones(m - 1)
  }

  /** FIFO delivery, each entry exactly once: polling a queue `|q| + m`
      times delivers every queued command in order, then answers "none"
      `m` times, and leaves the queue empty. */
  lemma {:induction false} PollDrainsInOrder(q: Queue, m: nat)
    ensures Poll(q, |q| + m) == (Wires(q) + Nones(m), [])
    decreases |q| + m
  {
    if q == [] {
      assert Wires(q) == [];
      if m > 0 {
        PollDrainsInOrder([], m - 1);
        assert GetCommand(q) == PollReply([], NoCommand);
        assert Poll(q, m) == ([NoCommand] + Poll([], m - 1).0, Poll([], m - 1).1);
        assert Nones(m) == [NoCommand] + Nones(m - 1);
        assert Wires(q) + Nones(m) == [NoCommand] + (Wires([]) + Nones(m - 1));
        assert |q| + m == m;
      }
    } else {
      PollDrainsInOrder(q[1..], m);
      assert |q| + m == |q[1..]| + m + 1;
      assert GetCommand(q) == PollReply(q[1..], Wire(q[0]));
      assert Wires(q) + Nones(m) == [Wire(q[0])] + (Wires(q[1..]) + Nones(m));
    }
  }

  /** Appending never overtakes: the next poll of a non-empty queue answers
      the same whatever is enqueued behind it. */
  lemma EnqueueKeepsHead(q: Queue, action: string)
    requires q != []
    ensures GetCommand(ManualControl(q, action).queue).command == GetCommand(q).command
  {
  }

  /** Sample sequence: open_entry, open_exit, then three polls give
      OPEN_ENTRY, OPEN_EXIT and none. */
  lemma ControlThenPollExample()
    ensures
      var q := ManualControl(ManualControl([], "open_entry").queue, "open_exit").queue;
      Poll(q, 3).0 == ["OPEN_ENTRY", "OPEN_EXIT", "none"]
  {
    ControlExample();
    PollExample();
  }

  lemma ControlExample()
    ensures ManualControl(ManualControl([], "open_entry").queue, "open_exit").queue == [OpenEntry, OpenExit]
  {
    assert ManualControl([], "open_entry").queue == [OpenEntry];
  }

  lemma PollExample()
    ensures Poll([OpenEntry, OpenExit], 3).0 == ["OPEN_ENTRY", "OPEN_EXIT", "none"]
  {
    PollDrainsInOrder([OpenEntry, OpenExit], 1);
    assert Nones(1) == [NoCommand];
  }
}
