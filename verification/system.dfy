/** The server's whole decision state (parking log, registered plates and
    gate command mailbox) and the requests that change it, run one at a
    time. */
module System {
  import opened Basics
  import opened Plate
  import opened Commands
  import opened Registry
  import opened Sessions
  import opened Lanes

  datatype State = State(log: Log, reg: Registry, queue: Queue)

  /** One HTTP request that can change the state. */
  datatype Request =
    | CameraRequest(action: string, env: Environment)          // POST /api/parking/<action>
    | CardRequest(action: string, uidText: string, env: Environment)  // POST /api/rfid/<action>
    | AddPlate(input: string)                                   // POST /api/registered
    | DeletePlate(plate: string)                                // DELETE /api/registered/<plate>
    | Control(action: string)                                   // POST /api/control/<action>
    | PollCommand                                               // GET /api/get_command

  /** The state a fresh database and an empty mailbox start from. */
  const Initial := State([], {}, [])

  ghost predicate Invariant(s: State) {
    WellFormed(s.log) && PlatesCanonical(s.log) && AllCanonical(s.reg)
  }

  function Apply(s: State, req: Request): (r: State)
    ensures Invariant(s) ==> Invariant(r)
    ensures WellFormed(s.log) ==> Evolves(s.log, r.log)
    ensures |s.log| <= |r.log|
    ensures !req.CameraRequest? && !req.CardRequest? ==> r.log == s.log
    ensures !req.AddPlate? && !req.DeletePlate? ==> r.reg == s.reg
    ensures !req.Control? && !req.PollCommand? ==> r.queue == s.queue
  {
    match req
    case CameraRequest(action, env) => s.(log := ParkingCamera(s.log, s.reg, action, env).log)
    case CardRequest(action, uidText, env) => s.(log := RfidHandler(s.log, action, uidText, env).log)
    case AddPlate(input) => s.(reg := AddRegistered(s.reg, input).registry)
    case DeletePlate(plate) => s.(reg := DelRegistered(s.reg, plate))
    case Control(action) => s.(queue := ManualControl(s.queue, action).queue)
    case PollCommand => s.(queue := GetCommand(s.queue).queue)
  }

  function Run(s: State, reqs: seq<Request>): State
    decreases |reqs|
  {
    if reqs == [] then s else Run(Apply(s, reqs[0]), reqs[1..])
  }

  lemma InitialInvariant()
    ensures Invariant(Initial)
  {
  }

  /** Whatever requests arrive, one after another, the log keeps sequential
      ids, exit and fee exactly on closed rows, non-negative fees and at most
      one open session per card, every stored plate is canonical, and only
      canonical plates are registered. */
  lemma {:induction false} RunPreservesInvariant(s: State, reqs: seq<Request>)
    requires Invariant(s)
    ensures Invariant(Run(s, reqs))
    decreases |reqs|
  {
    if reqs != [] {
      RunPreservesInvariant(Apply(s, reqs[0]), reqs[1..]);
    }
  }

  /** Closed and denied rows are final: no later request changes them, so a
      fee, once set, is never set again. */
  lemma {:induction false} FinalRowsStayFinal(s: State, reqs: seq<Request>, i: nat)
    requires Invariant(s)
    requires i < |s.log| && s.log[i].status != In
    ensures i < |Run(s, reqs).log| && Run(s, reqs).log[i] == s.log[i]
    decreases |reqs|
  {
    if reqs != [] {
      var next := Apply(s, reqs[0]);
      assert next.log[i] == s.log[i];
      FinalRowsStayFinal(next, reqs[1..], i);
    }
  }

  /** Rows are never removed: from any state, the log only grows. */
  lemma {:induction false} LogOnlyGrows(s: State, reqs: seq<Request>)
    ensures |s.log| <= |Run(s, reqs).log|
    decreases |reqs|
  {
    if reqs != [] {
      LogOnlyGrows(Apply(s, reqs[0]), reqs[1..]);
    }
  }
}
