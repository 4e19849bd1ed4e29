/** Controller initialisation: a worker runs a script of commands, the event
  * thread completes them, and anyone may ask for termination.  They share a
  * status word under a mutex with a condition variable, and - without any lock -
  * the opcode of the current command and the slot for the pending callback.
  *
  * A run is an interleaving of atomic steps.  Each step is what one thread does
  * between two points where another could see it, so every access to a shared
  * variable outside the mutex is a step of its own.
  */
module InitProtocol {

  datatype Option<T> = None | Some(value: T)

  datatype Status = SUCCESS | FAIL | PENDING | TERMINATE

  const HCI_COMMAND_COMPLETE_EVENT := 0x0E
  const GET_LOCAL_BD_ADDR := 0x1009

  datatype Callback = CommonComplete | GetAddrComplete

  /** One command of a script; a debug command is skipped unless a property asks for it. */
  datatype Entry = Entry(opcode: nat, callback: Callback, debug: bool)

  /** An event from the controller. */
  datatype Event = Event(code: nat, opcode: nat, status: nat)

  // ----- the scripts -----

  function Common(opcode: nat): Entry { Entry(opcode, CommonComplete, false) }
  function Debug(opcode: nat): Entry { Entry(opcode, CommonComplete, true) }

  const GET_ADDR := Entry(GET_LOCAL_BD_ADDR, GetAddrComplete, false)

  const SCRIPT_6628: seq<Entry> := [GET_ADDR] + CommonAll([
    0xFC1A, 0xFC1B, 0xFC75, 0xFC76, 0x0C0A, 0x0C26, 0xFC72, 0xFC79, 0xFC93, 0xFC7A, 0xFC7D, 0xFC7B, 0xFC7C,
    0xFC74, 0xFCFC, 0x0C03, 0xFCFB, 0xFCFB, 0xFCB0]) + [Debug(0xFCBE)]
  const SCRIPT_6630: seq<Entry> := [GET_ADDR] + CommonAll([
    0xFC1A, 0xFC72, 0xFC79, 0xFC93, 0xFC7A, 0xFC22]) + [Debug(0xFCBE), Debug(0x1804)]
  const SCRIPT_6632: seq<Entry> := [GET_ADDR] + CommonAll([
    0xFC1A, 0xFC72, 0xFC79, 0xFC93, 0xFC7A, 0x0C03]) + [Debug(0xFCBE), Debug(0x1804)]
  const SCRIPT_CONSYS: seq<Entry> := CommonAll([
    0xFC1A, 0xFC79, 0xFC93, 0xFC7A, 0x0C03]) + [Debug(0xFCBE), Debug(0x1804)]

  function CommonAll(opcodes: seq<nat>): (r: seq<Entry>)
    ensures |r| == |opcodes|
  {
    seq(|opcodes|, k requires 0 <= k < |opcodes| => Common(opcodes[k]))
  }

  /** The address callback insists on one opcode, so only that command may use it. */
  ghost predicate ScriptOk(script: seq<Entry>) {
    forall k :: 0 <= k < |script| && script[k].callback.GetAddrComplete? ==> script[k].opcode == GET_LOCAL_BD_ADDR
  }

  lemma ScriptsOk()
    ensures ScriptOk(SCRIPT_6628) && ScriptOk(SCRIPT_6630) && ScriptOk(SCRIPT_6632) && ScriptOk(SCRIPT_CONSYS)
  {
  }

  /** A script and where to start in it: after the address query unless the address is wanted. */
  datatype Config = Config(script: seq<Entry>, start: nat) {
    ghost predicate Ok() { start <= |script| && ScriptOk(script) }
  }

  // ----- the state -----

  /** Where the worker is. */
  datatype Pc =
    | Guard
    | Alloc
    | SetPending
    | SetOpCode
    | ArmCallback
    | ArmOpCode
    | Send
    | Wait
    | Blocked
    | Leave
    | Finished

  datatype Handler =
    | Idle
    | Match(e: Event)
    | Take(e: Event)
    | Clear(e: Event, saved: Callback)
    | Evaluate(e: Event, saved: Callback)
    | Post(success: bool)

  datatype Route = ToStack | ToCallback

  /** What has happened so far: events received and where they went, commands
    * issued and skipped, for every entry how many events had been received when
    * its callback was armed and which event acknowledged it, how many callbacks
    * were armed and how many have reported, and the results delivered. */
  datatype Log = Log(
    received: seq<Event>, routes: seq<Route>, issued: seq<nat>, skipped: set<nat>,
    armedAt: map<nat, nat>, acks: map<nat, nat>, armed: nat, posted: nat, reports: seq<bool>)

  /** The shared variables, the two threads, the entry last armed for, and the log. */
  datatype State = State(
    status: Status, wOpCode: nat, cb: Option<Callback>, opcode: nat,
    pc: Pc, i: nat, signalled: bool, handler: Handler, armedFor: nat, log: Log)

  /** A run starts with the worker at its first entry and the event thread idle;
    * status and opcodes may be left over, and `cb` is what the slot holds. */
  ghost predicate Start(c: Config, s: State) {
    && s.pc == Guard && s.i == c.start && s.handler == Idle
    && s.log.received == [] && s.log.routes == [] && s.log.issued == [] && s.log.skipped == {}
    && s.log.armedAt == map[] && s.log.acks == map[] && s.log.posted == 0 && s.log.reports == []
    && s.log.armed == if s.cb.Some? then 1 else 0
  }

  // ----- the steps -----

  /** What happens next: the worker moves on (with `luck` standing for a debug
    * property that is off, an allocation that succeeds, or a spurious wake-up), an
    * event arrives, the event thread moves on, or termination is requested. */
  datatype Action = Work(luck: bool) | Arrive(e: Event) | Handle | Terminate

  predicate Enabled(s: State, a: Action) {
    match a
    case Work(luck) => s.pc != Finished && (s.pc == Blocked ==> s.signalled || luck)
    case Arrive(_) => s.handler.Idle?
    case Handle => !s.handler.Idle?
    case Terminate => true
  }

  function Step(c: Config, s: State, a: Action): State {
    match a
    case Work(luck) => WorkStep(c, s, luck)
    case Arrive(e) => ArriveStep(s, e)
    case Handle => HandleStep(c, s)
    case Terminate => Signalled(s.(status := TERMINATE))
  }

  /** Signalling wakes the worker if it is blocked, and is lost otherwise. */
  function Signalled(s: State): State {
    s.(signalled := s.pc == Blocked)
  }

  function WorkStep(c: Config, s: State, luck: bool): State {
    match s.pc
    case Guard =>
      if s.i >= |c.script| || s.status == TERMINATE then s.(pc := Leave)
      else if c.script[s.i].debug && luck then s.(i := s.i + 1, log := s.log.(skipped := s.log.skipped + {s.i}))
      else s.(pc := Alloc)
    case Alloc => s.(pc := if luck then SetPending else Leave)
    case SetPending =>
      if s.status == TERMINATE then s.(pc := Leave) else s.(status := PENDING, pc := SetOpCode)
    case SetOpCode =>
      if s.i < |c.script| then s.(wOpCode := c.script[s.i].opcode, pc := ArmCallback) else s
    case ArmCallback =>
      if s.i < |c.script| then
        s.(cb := Some(c.script[s.i].callback), pc := ArmOpCode, armedFor := s.i,
           log := s.log.(armedAt := s.log.armedAt[s.i := |s.log.received|], armed := s.log.armed + 1))
      else s
    case ArmOpCode => s.(opcode := s.wOpCode, pc := Send)
    case Send => s.(pc := Wait, log := s.log.(issued := s.log.issued + [s.i]))
    case Wait => WaitStep(s)
    case Blocked => s.(pc := Wait)
    case Leave => s.(pc := Finished, log := s.log.(reports := s.log.reports + [s.i >= |c.script|]))
    case Finished => s
  }

  function WaitStep(s: State): State {
    match s.status
    case PENDING => s.(pc := Blocked, signalled := false)
    case SUCCESS => s.(pc := Guard, i := s.i + 1)
    case FAIL => s.(pc := Leave)
    case TERMINATE => s.(status := SUCCESS, pc := Leave)
  }

  function ArriveStep(s: State, e: Event): State {
    var log := s.log.(received := s.log.received + [e]);
    if s.cb.Some? then s.(handler := Match(e), log := log) else s.(log := log.(routes := log.routes + [ToStack]))
  }

  /** The callback's verdict on an event. */
  predicate Accepts(cb: Callback, e: Event, wOpCode: nat) {
    && e.code == HCI_COMMAND_COMPLETE_EVENT && e.status == 0
    && e.opcode == if cb.CommonComplete? then wOpCode else GET_LOCAL_BD_ADDR
  }

  /** The entry the run last armed for is acknowledged by the latest event. */
  function NewAcks(s: State): map<nat, nat> {
    if s.log.received == [] || s.armedFor !in s.log.armedAt then s.log.acks
    else s.log.acks[s.armedFor := |s.log.received| - 1]
  }

  function HandleStep(c: Config, s: State): State {
    match s.handler
    case Idle => s
    case Match(e) =>
      if e.code == HCI_COMMAND_COMPLETE_EVENT && e.opcode == s.opcode then s.(handler := Take(e))
      else s.(handler := Idle, log := s.log.(routes := s.log.routes + [ToStack]))
    case Take(e) => if s.cb.Some? then s.(handler := Clear(e, s.cb.value)) else s
    case Clear(e, saved) =>
      s.(cb := None, handler := Evaluate(e, saved), log := s.log.(routes := s.log.routes + [ToCallback]))
    case Evaluate(e, saved) =>
      var success := Accepts(saved, e, s.wOpCode);
      s.(handler := Post(success), log := if success then s.log.(acks := NewAcks(s)) else s.log)
    case Post(success) =>
      Signalled(s.(status := if success then SUCCESS else FAIL, handler := Idle,
                   log := s.log.(posted := s.log.posted + 1)))
  }

  function Exec(c: Config, s: State, run: seq<Action>): State {
    if run == [] then s else Step(c, Exec(c, s, run[..|run| - 1]), run[|run| - 1])
  }

  /** Every step of the run can be taken when it is. */
  ghost predicate Possible(c: Config, s: State, run: seq<Action>) {
    run == [] || (Possible(c, s, run[..|run| - 1]) && Enabled(Exec(c, s, run[..|run| - 1]), run[|run| - 1]))
  }

  // ----- the invariant -----

  /** A command has been handed to the controller's callback slot and its callback has not reported yet. */
  predicate Outstanding(s: State) { s.cb.Some? || s.handler.Evaluate? || s.handler.Post? }

  /** The event thread has looked at the slot and not yet emptied it. */
  predicate Looking(h: Handler) { h.Match? || h.Take? || h.Clear? }

  /** The worker is at an entry and has not yet armed the callback, or has. */
  predicate Before(pc: Pc) { pc == Guard || pc == Alloc || pc == SetPending || pc == SetOpCode || pc == ArmCallback }
  predicate After(pc: Pc) { pc == ArmOpCode || pc == Send || pc == Wait || pc == Blocked }

  /** The entries up to `n` were skipped, or issued and acknowledged. */
  ghost predicate Acknowledged(c: Config, s: State, n: nat) {
    forall k :: c.start <= k < n ==> k in s.log.skipped || (k in s.log.acks && k in s.log.issued)
  }

  /** An acknowledgement is a Command Complete of the entry's own opcode with
    * status 0, received after the entry's callback was armed. */
  ghost predicate AckOf(c: Config, s: State, k: nat) {
    && k in s.log.acks && k in s.log.armedAt && k < |c.script|
    && s.log.armedAt[k] <= s.log.acks[k] < |s.log.received|
    && s.log.received[s.log.acks[k]] == Event(HCI_COMMAND_COMPLETE_EVENT, c.script[k].opcode, 0)
  }

  /** Events that went to the callback. */
  function Calls(routes: seq<Route>): nat {
    if routes == [] then 0 else Calls(routes[..|routes| - 1]) + if routes[|routes| - 1].ToCallback? then 1 else 0
  }

  // What holds from any start, whatever the slot then holds.

  /** The worker is within its script, has the opcode of its entry once it has set
    * it, and reports once, at the end. */
  ghost predicate Bounds(c: Config, s: State) {
    && c.start <= s.i <= |c.script|
    && (s.pc != Guard && (Before(s.pc) || After(s.pc)) ==> s.i < |c.script|)
    && (s.pc == ArmCallback || After(s.pc) ==> s.wOpCode == c.script[s.i].opcode)
    && s.log.reports == (if s.pc == Finished then [s.i >= |c.script|] else [])
  }

  /** The status is pending only while a callback is due, and a blocked worker that
    * nobody has signalled is blocked on a pending status. */
  ghost predicate Wakeful(s: State) {
    && (Looking(s.handler) ==> s.cb.Some?)
    && (After(s.pc) && !Outstanding(s) ==> s.status != PENDING)
    && (s.pc == Blocked && !s.signalled ==> s.status == PENDING)
  }

  /** After arming, the slot is empty or holds the entry's callback; and the entry
    * is issued before the worker waits. */
  ghost predicate ArmedWell(c: Config, s: State) {
    After(s.pc) ==>
      && s.armedFor == s.i < |c.script|
      && s.i in s.log.armedAt && s.log.armedAt[s.i] <= |s.log.received|
      && (s.cb.Some? ==> s.cb.value == c.script[s.i].callback)
      && (s.pc != ArmOpCode ==> s.opcode == s.wOpCode)
      && (s.pc == Wait || s.pc == Blocked ==> s.i in s.log.issued)
  }

  /** Every event is routed, but for one the event thread is looking at. */
  ghost predicate Routed(s: State) {
    |s.log.received| == |s.log.routes| + if Looking(s.handler) then 1 else 0
  }

  /** Commands are issued in script order, each at most once, and none that was skipped. */
  ghost predicate Increasing(s: State) {
    forall j, k :: 0 <= j < k < |s.log.issued| ==> s.log.issued[j] < s.log.issued[k]
  }

  ghost predicate IssuedFrom(c: Config, s: State) {
    forall k :: 0 <= k < |s.log.issued| ==>
      && c.start <= s.log.issued[k] < |c.script| && s.log.issued[k] !in s.log.skipped
      && (s.log.issued[k] < s.i || (s.log.issued[k] == s.i && !Before(s.pc) && s.pc != ArmOpCode && s.pc != Send))
  }

  ghost predicate SkippedFrom(c: Config, s: State) {
    forall k :: k in s.log.skipped ==> c.start <= k < |c.script| && k < s.i && c.script[k].debug
  }

  ghost predicate Base(c: Config, s: State) {
    && c.Ok() && Bounds(c, s) && Wakeful(s) && ArmedWell(c, s) && Routed(s)
    && Increasing(s) && IssuedFrom(c, s) && SkippedFrom(c, s)
  }

  // What holds besides while every callback in the slot was armed by this run.

  /** What is outstanding is the entry the worker is at. */
  ghost predicate Slot(c: Config, s: State) {
    && (s.handler.Clear? ==> s.cb == Some(s.handler.saved))
    && (s.cb.Some? ==> !s.handler.Evaluate? && !s.handler.Post?)
    && (Outstanding(s) ==>
          && s.armedFor == s.i < |c.script| && s.wOpCode == c.script[s.armedFor].opcode
          && s.armedFor in s.log.armedAt && s.log.armedAt[s.armedFor] <= |s.log.received|)
    && (s.cb.Some? ==> s.cb.value == c.script[s.armedFor].callback)
    && (s.handler.Evaluate? ==> s.handler.saved == c.script[s.armedFor].callback)
  }

  /** The event in hand arrived after the callback was armed. */
  ghost predicate InFlight(s: State) {
    && (Looking(s.handler) || s.handler.Evaluate? ==>
          && |s.log.received| > 0 && s.log.received[|s.log.received| - 1] == s.handler.e
          && s.armedFor in s.log.armedAt && s.log.armedAt[s.armedFor] < |s.log.received|)
    && (s.handler == Post(true) ==> s.armedFor in s.log.acks)
  }

  ghost predicate Counted(s: State) {
    && s.log.armed == s.log.posted + (if Outstanding(s) then 1 else 0)
    && s.log.armed == Calls(s.log.routes) + (if s.cb.Some? then 1 else 0)
  }

  /** Nothing is outstanding when the worker turns to an entry, nor at the end. */
  ghost predicate Quiet(c: Config, s: State) {
    && (Before(s.pc) || s.i == |c.script| ==> !Outstanding(s))
    && (s.pc == SetOpCode || s.pc == ArmCallback ==> s.status == PENDING || s.status == TERMINATE)
  }

  ghost predicate Answered(c: Config, s: State) {
    Acknowledged(c, s, s.i)
  }

  /** While a command is outstanding only a termination request can have changed
    * the status; a success afterwards is the entry's own. */
  ghost predicate Awaiting(s: State) {
    After(s.pc) ==>
      && (Outstanding(s) ==> s.status == PENDING || s.status == TERMINATE)
      && (!Outstanding(s) && s.status == SUCCESS ==> s.i in s.log.acks)
  }

  ghost predicate Acked(c: Config, s: State) {
    forall k :: k in s.log.acks ==> AckOf(c, s, k) && (k < s.i || (k == s.i && !Before(s.pc)))
  }

  ghost predicate Inv(c: Config, s: State) {
    && Base(c, s) && Slot(c, s) && InFlight(s) && Counted(s) && Quiet(c, s)
    && Answered(c, s) && Awaiting(s) && Acked(c, s)
  }

  lemma StartBase(c: Config, s: State)
    requires c.Ok() && Start(c, s)
    ensures Base(c, s)
  {
  }

  lemma StartInv(c: Config, s: State)
    requires c.Ok() && Start(c, s) && s.cb.None?
    ensures Inv(c, s)
  {
  }

  /** What the worker leaves alone, and how it moves. */
  lemma WorkFrame(c: Config, s: State, luck: bool)
    ensures var t := WorkStep(c, s, luck);
      && t.log.acks == s.log.acks && t.log.received == s.log.received && t.handler == s.handler
      && t.log.posted == s.log.posted && t.log.routes == s.log.routes
      && t.log.issued == (if s.pc == Send then s.log.issued + [s.i] else s.log.issued)
      && (t.log.skipped == s.log.skipped
          || (s.pc == Guard && s.i < |c.script| && c.script[s.i].debug
              && t.log.skipped == s.log.skipped + {s.i} && t.i == s.i + 1))
      && (t.i == s.i
          || (t.i == s.i + 1 && t.pc == Guard
              && ((s.pc == Guard && s.i in t.log.skipped) || (s.pc == Wait && s.status == SUCCESS))))
      && (t.i == s.i && Before(t.pc) ==> Before(s.pc))
      && (t.i == s.i && (t.pc == ArmOpCode || t.pc == Send) ==> Before(s.pc) || s.pc == ArmOpCode)
      && t.log.armedAt == (if s.pc == ArmCallback && s.i < |c.script| then s.log.armedAt[s.i := |s.log.received|]
                           else s.log.armedAt)
  {
  }

  /** What the event thread leaves alone. */
  lemma HandleFrame(c: Config, s: State)
    ensures var t := HandleStep(c, s);
      && t.log.received == s.log.received && t.log.issued == s.log.issued
      && t.log.skipped == s.log.skipped && t.log.armedAt == s.log.armedAt
      && t.pc == s.pc && t.i == s.i && t.wOpCode == s.wOpCode
      && t.armedFor == s.armedFor && t.log.reports == s.log.reports
      && (t.cb == s.cb || t.cb == None) && t.opcode == s.opcode
      && t.log.acks == (match s.handler
                    case Evaluate(e, saved) => if Accepts(saved, e, s.wOpCode) then NewAcks(s) else s.log.acks
                    case _ => s.log.acks)
  {
  }

  lemma CallsMore(routes: seq<Route>, r: Route)
    ensures Calls(routes + [r]) == Calls(routes) + if r.ToCallback? then 1 else 0
  {
    assert (routes + [r])[..|routes|] == routes;
  }

  lemma {:induction false} WorkKeepsBounds(c: Config, s: State, luck: bool)
    requires Base(c, s) && Enabled(s, Work(luck))
    ensures Bounds(c, WorkStep(c, s, luck))
  {
    hide Wakeful, ArmedWell, Routed, Increasing, IssuedFrom, SkippedFrom;
  }

  lemma {:induction false} WorkKeepsWakeful(c: Config, s: State, luck: bool)
    requires Base(c, s) && Enabled(s, Work(luck))
    ensures Wakeful(WorkStep(c, s, luck))
  {
    hide ArmedWell, Routed, Increasing, IssuedFrom, SkippedFrom;
  }

  lemma {:induction false} WorkKeepsArmedWell(c: Config, s: State, luck: bool)
    requires Base(c, s) && Enabled(s, Work(luck))
    ensures ArmedWell(c, WorkStep(c, s, luck))
  {
    hide Wakeful, Routed, Increasing, IssuedFrom, SkippedFrom;
  }

  lemma {:induction false} WorkKeepsRouted(c: Config, s: State, luck: bool)
    requires Base(c, s) && Enabled(s, Work(luck))
    ensures Routed(WorkStep(c, s, luck))
  {
    hide Bounds, ArmedWell, Increasing, IssuedFrom, SkippedFrom, WorkStep;
    WorkFrame(c, s, luck);
  }

  lemma {:induction false} WorkKeepsIncreasing(c: Config, s: State, luck: bool)
    requires Base(c, s) && Enabled(s, Work(luck))
    ensures Increasing(WorkStep(c, s, luck))
  {
    hide Bounds, Wakeful, ArmedWell, Routed, SkippedFrom, WorkStep;
    WorkFrame(c, s, luck);
  }

  lemma {:induction false} WorkKeepsIssuedFrom(c: Config, s: State, luck: bool)
    requires Base(c, s) && Enabled(s, Work(luck))
    ensures IssuedFrom(c, WorkStep(c, s, luck))
  {
    hide Wakeful, ArmedWell, Routed, Increasing, WorkStep;
    WorkFrame(c, s, luck);
  }

  lemma {:induction false} WorkKeepsSkippedFrom(c: Config, s: State, luck: bool)
    requires Base(c, s) && Enabled(s, Work(luck))
    ensures SkippedFrom(c, WorkStep(c, s, luck))
  {
    hide Wakeful, ArmedWell, Routed, Increasing, IssuedFrom, WorkStep;
    WorkFrame(c, s, luck);
  }

  lemma {:induction false} WorkKeepsBase(c: Config, s: State, luck: bool)
    requires Base(c, s) && Enabled(s, Work(luck))
    ensures Base(c, WorkStep(c, s, luck))
  {
    hide Bounds, Wakeful, ArmedWell, Routed, Increasing, IssuedFrom, SkippedFrom, WorkStep;
    WorkKeepsBounds(c, s, luck);
    WorkKeepsWakeful(c, s, luck);
    WorkKeepsArmedWell(c, s, luck);
    WorkKeepsRouted(c, s, luck);
    WorkKeepsIncreasing(c, s, luck);
    WorkKeepsIssuedFrom(c, s, luck);
    WorkKeepsSkippedFrom(c, s, luck);
  }

  lemma {:induction false} WorkKeepsSlot(c: Config, s: State, luck: bool)
    requires Inv(c, s) && Enabled(s, Work(luck))
    ensures Slot(c, WorkStep(c, s, luck))
  {
    hide Routed, Increasing, IssuedFrom, SkippedFrom, InFlight, Counted, Answered, Acked, Acknowledged;
    hide AckOf;
  }

  lemma {:induction false} WorkKeepsInFlight(c: Config, s: State, luck: bool)
    requires Inv(c, s) && Enabled(s, Work(luck))
    ensures InFlight(WorkStep(c, s, luck))
  {
    hide Routed, Increasing, IssuedFrom, SkippedFrom, Counted, Answered, Acknowledged, AckOf;
  }

  lemma {:induction false} WorkKeepsCounted(c: Config, s: State, luck: bool)
    requires Inv(c, s) && Enabled(s, Work(luck))
    ensures Counted(WorkStep(c, s, luck))
  {
    hide ArmedWell, Routed, Increasing, IssuedFrom, SkippedFrom, InFlight, Answered, Awaiting, Acked;
    hide Acknowledged, AckOf;
  }

  lemma {:induction false} WorkKeepsQuiet(c: Config, s: State, luck: bool)
    requires Inv(c, s) && Enabled(s, Work(luck))
    ensures Quiet(c, WorkStep(c, s, luck))
  {
    hide ArmedWell, Routed, Increasing, IssuedFrom, SkippedFrom, InFlight, Counted, Answered, Acked;
    hide Acknowledged, AckOf;
  }

  lemma {:induction false} WorkKeepsAnswered(c: Config, s: State, luck: bool)
    requires Inv(c, s) && Enabled(s, Work(luck))
    ensures Answered(c, WorkStep(c, s, luck))
  {
    hide Routed, Increasing, IssuedFrom, SkippedFrom, Slot, InFlight, Counted, Acked, AckOf, WorkStep;
    WorkFrame(c, s, luck);
  }

  lemma {:induction false} WorkKeepsAwaiting(c: Config, s: State, luck: bool)
    requires Inv(c, s) && Enabled(s, Work(luck))
    ensures Awaiting(WorkStep(c, s, luck))
  {
    hide Routed, Increasing, IssuedFrom, SkippedFrom, Counted, Answered, Acked, Acknowledged, AckOf;
  }

  lemma {:induction false} WorkKeepsAcked(c: Config, s: State, luck: bool)
    requires Inv(c, s) && Enabled(s, Work(luck))
    ensures Acked(c, WorkStep(c, s, luck))
  {
    hide ArmedWell, Routed, Increasing, IssuedFrom, SkippedFrom, Counted, Answered, Awaiting, Acknowledged;
    hide WorkStep;
    WorkFrame(c, s, luck);
  }

  lemma {:induction false} WorkKeeps(c: Config, s: State, luck: bool)
    requires Inv(c, s) && Enabled(s, Work(luck))
    ensures Inv(c, WorkStep(c, s, luck))
  {
    WorkKeepsBase(c, s, luck);
    hide Base, Slot, InFlight, Counted, Quiet, Answered, Awaiting, Acked, WorkStep;
    WorkKeepsSlot(c, s, luck);
    WorkKeepsInFlight(c, s, luck);
    WorkKeepsCounted(c, s, luck);
    WorkKeepsQuiet(c, s, luck);
    WorkKeepsAnswered(c, s, luck);
    WorkKeepsAwaiting(c, s, luck);
    WorkKeepsAcked(c, s, luck);
  }

  lemma {:induction false} ArriveKeepsBase(c: Config, s: State, e: Event)
    requires Base(c, s) && s.handler.Idle?
    ensures Base(c, ArriveStep(s, e))
  {
  }

  lemma {:induction false} ArriveKeeps(c: Config, s: State, e: Event)
    requires Inv(c, s) && s.handler.Idle?
    ensures Inv(c, ArriveStep(s, e))
  {
    ArriveKeepsBase(c, s, e);
  }

  lemma {:induction false} HandleKeepsBounds(c: Config, s: State)
    requires Base(c, s) && !s.handler.Idle?
    ensures Bounds(c, HandleStep(c, s))
  {
    hide Wakeful, ArmedWell, Routed, Increasing, IssuedFrom, SkippedFrom, HandleStep;
    HandleFrame(c, s);
  }

  lemma {:induction false} HandleKeepsWakeful(c: Config, s: State)
    requires Base(c, s) && !s.handler.Idle?
    ensures Wakeful(HandleStep(c, s))
  {
    hide ArmedWell, Routed, Increasing, IssuedFrom, SkippedFrom;
  }

  lemma {:induction false} HandleKeepsArmedWell(c: Config, s: State)
    requires Base(c, s) && !s.handler.Idle?
    ensures ArmedWell(c, HandleStep(c, s))
  {
    hide Wakeful, Routed, Increasing, IssuedFrom, SkippedFrom, HandleStep;
    HandleFrame(c, s);
  }

  lemma {:induction false} HandleKeepsRouted(c: Config, s: State)
    requires Base(c, s) && !s.handler.Idle?
    ensures Routed(HandleStep(c, s))
  {
    hide Bounds, ArmedWell, Increasing, IssuedFrom, SkippedFrom;
  }

  lemma {:induction false} HandleKeepsIncreasing(c: Config, s: State)
    requires Base(c, s) && !s.handler.Idle?
    ensures Increasing(HandleStep(c, s))
  {
    hide Bounds, Wakeful, ArmedWell, Routed, SkippedFrom, HandleStep;
    HandleFrame(c, s);
  }

  lemma {:induction false} HandleKeepsIssuedFrom(c: Config, s: State)
    requires Base(c, s) && !s.handler.Idle?
    ensures IssuedFrom(c, HandleStep(c, s))
  {
    hide Wakeful, ArmedWell, Routed, Increasing, HandleStep;
    HandleFrame(c, s);
  }

  lemma {:induction false} HandleKeepsSkippedFrom(c: Config, s: State)
    requires Base(c, s) && !s.handler.Idle?
    ensures SkippedFrom(c, HandleStep(c, s))
  {
    hide Wakeful, ArmedWell, Routed, Increasing, IssuedFrom, HandleStep;
    HandleFrame(c, s);
  }

  lemma {:induction false} HandleKeepsBase(c: Config, s: State)
    requires Base(c, s) && !s.handler.Idle?
    ensures Base(c, HandleStep(c, s))
  {
    hide Bounds, Wakeful, ArmedWell, Routed, Increasing, IssuedFrom, SkippedFrom, HandleStep;
    HandleKeepsBounds(c, s);
    HandleKeepsWakeful(c, s);
    HandleKeepsArmedWell(c, s);
    HandleKeepsRouted(c, s);
    HandleKeepsIncreasing(c, s);
    HandleKeepsIssuedFrom(c, s);
    HandleKeepsSkippedFrom(c, s);
  }

  lemma {:induction false} HandleKeepsSlot(c: Config, s: State)
    requires Inv(c, s) && !s.handler.Idle?
    ensures Slot(c, HandleStep(c, s))
  {
    hide Routed, Increasing, IssuedFrom, SkippedFrom, InFlight, Counted, Answered, Acked, Acknowledged;
    hide AckOf;
  }

  lemma {:induction false} HandleKeepsInFlight(c: Config, s: State)
    requires Inv(c, s) && !s.handler.Idle?
    ensures InFlight(HandleStep(c, s))
  {
    hide Routed, Increasing, IssuedFrom, SkippedFrom, Counted, Answered, Acknowledged, AckOf;
  }

  lemma {:induction false} HandleKeepsCounted(c: Config, s: State)
    requires Inv(c, s) && !s.handler.Idle?
    ensures Counted(HandleStep(c, s))
  {
    hide ArmedWell, Routed, Increasing, IssuedFrom, SkippedFrom, InFlight, Answered, Awaiting, Acked;
    hide Acknowledged, AckOf, Calls;
    CallsMore(s.log.routes, ToStack);
    CallsMore(s.log.routes, ToCallback);
  }

  lemma {:induction false} HandleKeepsQuiet(c: Config, s: State)
    requires Inv(c, s) && !s.handler.Idle?
    ensures Quiet(c, HandleStep(c, s))
  {
    hide ArmedWell, Routed, Increasing, IssuedFrom, SkippedFrom, InFlight, Counted, Answered, Acked;
    hide Acknowledged, AckOf;
  }

  lemma {:induction false} HandleKeepsAnswered(c: Config, s: State)
    requires Inv(c, s) && !s.handler.Idle?
    ensures Answered(c, HandleStep(c, s))
  {
    hide Routed, Increasing, IssuedFrom, SkippedFrom, Slot, InFlight, Counted, Acked, AckOf, HandleStep;
    HandleFrame(c, s);
  }

  lemma {:induction false} HandleKeepsAwaiting(c: Config, s: State)
    requires Inv(c, s) && !s.handler.Idle?
    ensures Awaiting(HandleStep(c, s))
  {
    hide Routed, Increasing, IssuedFrom, SkippedFrom, Counted, Answered, Acked, Acknowledged, AckOf;
  }

  lemma {:induction false} HandleKeepsAcked(c: Config, s: State)
    requires Inv(c, s) && !s.handler.Idle?
    ensures Acked(c, HandleStep(c, s))
  {
    hide ArmedWell, Routed, Increasing, IssuedFrom, SkippedFrom, Counted, Answered, Awaiting, Acknowledged;
    hide HandleStep;
    HandleFrame(c, s);
  }

  lemma {:induction false} HandleKeeps(c: Config, s: State)
    requires Inv(c, s) && !s.handler.Idle?
    ensures Inv(c, HandleStep(c, s))
  {
    HandleKeepsBase(c, s);
    hide Base, Slot, InFlight, Counted, Quiet, Answered, Awaiting, Acked, HandleStep;
    HandleKeepsSlot(c, s);
    HandleKeepsInFlight(c, s);
    HandleKeepsCounted(c, s);
    HandleKeepsQuiet(c, s);
    HandleKeepsAnswered(c, s);
    HandleKeepsAwaiting(c, s);
    HandleKeepsAcked(c, s);
  }

  lemma {:induction false} TerminateKeepsBase(c: Config, s: State)
    requires Base(c, s)
    ensures Base(c, Signalled(s.(status := TERMINATE)))
  {
  }

  lemma {:induction false} TerminateKeeps(c: Config, s: State)
    requires Inv(c, s)
    ensures Inv(c, Signalled(s.(status := TERMINATE)))
  {
    TerminateKeepsBase(c, s);
  }

  // ----- runs from any start -----

  /** What the slot, the status and the script have to be for a run to be clean:
    * the slot is empty, or the worker gives up - or is done - before it could arm
    * a callback over the leftover one. */
  ghost predicate Clean(c: Config, s: State) {
    s.cb.None? || s.status == TERMINATE || c.start == |c.script|
  }

  /** A clean run before its leftover callback has reported: the worker has not
    * taken up an entry, and will not while the status stands. */
  ghost predicate Dormant(c: Config, s: State) {
    && Base(c, s) && Outstanding(s) && s.i == c.start
    && (s.pc == Guard || s.pc == Leave || s.pc == Finished)
    && (s.pc == Guard ==> s.status == TERMINATE || s.i == |c.script|)
    && (s.cb.Some? ==> !s.handler.Evaluate? && !s.handler.Post?)
    && s.log.armedAt == map[] && s.log.acks == map[] && s.log.posted == 0 && s.log.armed == 1
    && Calls(s.log.routes) == (if s.cb.Some? then 0 else 1)
  }

  lemma {:induction false} DormantKeeps(c: Config, s: State, a: Action)
    requires Dormant(c, s) && Enabled(s, a)
    ensures Dormant(c, Step(c, s, a)) || Inv(c, Step(c, s, a))
  {
    hide Dormant, Inv, WorkStep, HandleStep;
    if a.Handle? {
      DormantHandle(c, s);
    } else {
      DormantElse(c, s, a);
    }
  }

  lemma {:induction false} DormantElse(c: Config, s: State, a: Action)
    requires Dormant(c, s) && Enabled(s, a) && !a.Handle?
    ensures Dormant(c, Step(c, s, a))
  {
    hide Base, Calls;
    BaseKeeps(c, s, a);
    CallsMore(s.log.routes, ToStack);
    if a.Work? {
      hide HandleStep;
    } else {
      hide WorkStep, HandleStep;
    }
  }

  lemma {:induction false} DormantHandle(c: Config, s: State)
    requires Dormant(c, s) && !s.handler.Idle?
    ensures Dormant(c, HandleStep(c, s)) || Inv(c, HandleStep(c, s))
  {
    hide Base, Calls, Inv;
    HandleKeepsBase(c, s);
    CallsMore(s.log.routes, ToStack);
    CallsMore(s.log.routes, ToCallback);
    if s.handler.Post? {
      WokenInv(c, HandleStep(c, s));
    }
  }

  /** Once the leftover callback has reported, the run is as if started with an empty slot. */
  lemma {:induction false} WokenInv(c: Config, t: State)
    requires Base(c, t) && !Outstanding(t) && t.handler.Idle? && t.i == c.start
    requires t.pc == Guard || t.pc == Leave || t.pc == Finished
    requires t.log.acks == map[] && t.log.armed == t.log.posted == Calls(t.log.routes)
    ensures Inv(c, t)
  {
    hide Base, Calls;
  }

  lemma {:induction false} BaseKeeps(c: Config, s: State, a: Action)
    requires Base(c, s) && Enabled(s, a)
    ensures Base(c, Step(c, s, a))
  {
    hide Base, WorkStep, ArriveStep, HandleStep, Signalled;
    match a {
      case Work(luck) => WorkKeepsBase(c, s, luck);
      case Arrive(e) => ArriveKeepsBase(c, s, e);
      case Handle => HandleKeepsBase(c, s);
      case Terminate => TerminateKeepsBase(c, s);
    }
  }

  lemma {:induction false} InvKeeps(c: Config, s: State, a: Action)
    requires Inv(c, s) && Enabled(s, a)
    ensures Inv(c, Step(c, s, a))
  {
    hide Inv, WorkStep, ArriveStep, HandleStep, Signalled;
    match a {
      case Work(luck) => WorkKeeps(c, s, luck);
      case Arrive(e) => ArriveKeeps(c, s, e);
      case Handle => HandleKeeps(c, s);
      case Terminate => TerminateKeeps(c, s);
    }
  }

  /** From any start every reachable state satisfies the slot-free part. */
  lemma {:induction false} StepsKeepBase(c: Config, s: State, run: seq<Action>)
    requires c.Ok() && Start(c, s) && Possible(c, s, run)
    ensures Base(c, Exec(c, s, run))
  {
    hide Base, Start, Step;
    if run == [] {
      StartBase(c, s);
    } else {
      StepsKeepBase(c, s, run[..|run| - 1]);
      BaseKeeps(c, Exec(c, s, run[..|run| - 1]), run[|run| - 1]);
    }
  }

  /** From a clean start every reachable state satisfies the whole invariant, or is dormant. */
  lemma {:induction false} StepsKeep(c: Config, s: State, run: seq<Action>)
    requires c.Ok() && Start(c, s) && Clean(c, s) && Possible(c, s, run)
    ensures Inv(c, Exec(c, s, run)) || Dormant(c, Exec(c, s, run))
    ensures s.cb.None? ==> Inv(c, Exec(c, s, run))
  {
    hide Inv, Dormant, Start, Step;
    if run == [] {
      StartInvOrDormant(c, s);
    } else {
      var t := Exec(c, s, run[..|run| - 1]);
      StepsKeep(c, s, run[..|run| - 1]);
      if Inv(c, t) {
        InvKeeps(c, t, run[|run| - 1]);
      } else {
        DormantKeeps(c, t, run[|run| - 1]);
      }
    }
  }

  lemma {:induction false} StartInvOrDormant(c: Config, s: State)
    requires c.Ok() && Start(c, s) && Clean(c, s)
    ensures if s.cb.None? then Inv(c, s) else Dormant(c, s)
  {
    StartBase(c, s);
    if s.cb.None? {
      StartInv(c, s);
    }
    hide Base, Inv;
  }

  /** Commands are issued in script order, none twice and none that was skipped, and
    * only debug commands are skipped. */
  lemma {:induction false} IssuedInOrder(c: Config, s: State, run: seq<Action>)
    requires c.Ok() && Start(c, s) && Possible(c, s, run)
    ensures var t := Exec(c, s, run);
      && (forall j, k :: 0 <= j < k < |t.log.issued| ==> t.log.issued[j] < t.log.issued[k])
      && (forall k :: 0 <= k < |t.log.issued| ==>
            c.start <= t.log.issued[k] < |c.script| && t.log.issued[k] !in t.log.skipped)
      && (forall k :: k in t.log.skipped ==> c.start <= k < |c.script| && c.script[k].debug)
  {
    StepsKeepBase(c, s, run);
    hide Bounds, Wakeful, ArmedWell, Routed, Exec, Possible;
  }

  /** One result is reported, when the worker finishes, and it is a success exactly
    * if the script was gone through to its end. */
  lemma {:induction false} ReportedOnce(c: Config, s: State, run: seq<Action>)
    requires c.Ok() && Start(c, s) && Possible(c, s, run)
    ensures var t := Exec(c, s, run);
      t.log.reports == if t.pc == Finished then [t.i == |c.script|] else []
  {
    StepsKeepBase(c, s, run);
    hide Wakeful, ArmedWell, Routed, Increasing, IssuedFrom, SkippedFrom, Exec, Possible;
  }

  /** A worker that nobody has woken is waiting for a reply that has not been
    * delivered; once no callback is due any more, the worker can go on and finds a verdict. */
  lemma {:induction false} NoLostWakeup(c: Config, s: State, run: seq<Action>)
    requires c.Ok() && Start(c, s) && Possible(c, s, run)
    ensures var t := Exec(c, s, run);
      && (t.pc == Blocked && !t.signalled ==> t.status == PENDING && Outstanding(t))
      && (After(t.pc) && !Outstanding(t) ==> t.status != PENDING && Enabled(t, Work(false)))
  {
    StepsKeepBase(c, s, run);
    hide Bounds, ArmedWell, Routed, Increasing, IssuedFrom, SkippedFrom, Exec, Possible;
  }

  /** Every event goes to exactly one of callback and stack, in order of arrival,
    * but for the one the event thread is looking at. */
  lemma {:induction false} RoutedOnce(c: Config, s: State, run: seq<Action>)
    requires c.Ok() && Start(c, s) && Possible(c, s, run)
    ensures var t := Exec(c, s, run);
      |t.log.routes| == |t.log.received| - if Looking(t.handler) then 1 else 0
  {
    StepsKeepBase(c, s, run);
    hide Bounds, Wakeful, ArmedWell, Increasing, IssuedFrom, SkippedFrom, Exec, Possible;
  }

  // ----- what turns on the start -----

  ghost predicate AtMostOne(s: State) { s.log.armed <= s.log.posted + 1 }

  /** In every interleaving at most one command is outstanding - exactly if the start is clean. */
  lemma {:induction false} OneOutstandingIff(c: Config, s: State)
    requires c.Ok() && Start(c, s)
    ensures (forall run :: Possible(c, s, run) ==> AtMostOne(Exec(c, s, run))) <==> Clean(c, s)
  {
    if Clean(c, s) {
      forall run | Possible(c, s, run) ensures AtMostOne(Exec(c, s, run)) {
        StepsKeep(c, s, run);
        AtMostOneNow(c, Exec(c, s, run));
      }
    } else {
      var run := Command(c, s);
      assert !AtMostOne(Exec(c, s, run));
    }
  }

  lemma {:induction false} AtMostOneNow(c: Config, t: State)
    requires Inv(c, t) || Dormant(c, t)
    ensures AtMostOne(t) && CalledOnce(t)
  {
    hide Base, Slot, InFlight, Quiet, Answered, Awaiting, Acked;
  }

  /** Every callback armed so far has taken exactly one event, but for the one in the slot. */
  ghost predicate CalledOnce(s: State) {
    Calls(s.log.routes) == s.log.armed - if s.cb.Some? then 1 else 0
  }

  /** Every armed callback takes exactly one event - exactly if the start is clean. */
  lemma {:induction false} CalledOnceIff(c: Config, s: State)
    requires c.Ok() && Start(c, s)
    ensures (forall run :: Possible(c, s, run) ==> CalledOnce(Exec(c, s, run))) <==> Clean(c, s)
  {
    if Clean(c, s) {
      forall run | Possible(c, s, run) ensures CalledOnce(Exec(c, s, run)) {
        StepsKeep(c, s, run);
        AtMostOneNow(c, Exec(c, s, run));
      }
    } else {
      var run := Command(c, s);
      assert !CalledOnce(Exec(c, s, run));
    }
  }

  /** Every entry was skipped, or issued and then acknowledged: by a Command Complete
    * of its own opcode and status 0, received after its callback was armed - and that
    * was after the entries before it had been acknowledged, so each has an event of its own. */
  ghost predicate Trusted(c: Config, t: State) {
    && (forall k :: c.start <= k < |c.script| ==> k in t.log.skipped || (k in t.log.issued && AckOf(c, t, k)))
    && OneByOne(t)
  }

  /** An entry is armed after every entry before it has been acknowledged. */
  ghost predicate OneByOne(s: State) {
    forall j, k :: 0 <= j < k && j in s.log.acks && k in s.log.armedAt ==> s.log.acks[j] < s.log.armedAt[k]
  }

  ghost predicate ArmedUpTo(s: State) {
    forall k :: k in s.log.armedAt ==> k <= s.i
  }

  lemma {:induction false} OneByOneKeeps(c: Config, s: State, a: Action)
    requires Inv(c, s) && OneByOne(s) && ArmedUpTo(s) && Enabled(s, a)
    ensures var t := Step(c, s, a); OneByOne(t) && ArmedUpTo(t)
  {
    hide Base, InFlight, Counted, Quiet, Answered, Awaiting;
    match a {
      case Work(luck) => WorkFrame(c, s, luck); hide WorkStep;
      case Arrive(e) => hide Inv;
      case Handle => HandleFrame(c, s); hide HandleStep;
      case Terminate =>
    }
  }

  lemma {:induction false} RunOneByOne(c: Config, s: State, run: seq<Action>)
    requires c.Ok() && Start(c, s) && Clean(c, s) && Possible(c, s, run)
    ensures var t := Exec(c, s, run); OneByOne(t) && ArmedUpTo(t)
  {
    hide Inv, Dormant, Step;
    if run != [] {
      var t, a := Exec(c, s, run[..|run| - 1]), run[|run| - 1];
      RunOneByOne(c, s, run[..|run| - 1]);
      StepsKeep(c, s, run[..|run| - 1]);
      if Inv(c, t) {
        OneByOneKeeps(c, t, a);
      } else {
        NothingArmed(c, t, a);
      }
    }
  }

  lemma NothingArmed(c: Config, s: State, a: Action)
    requires Dormant(c, s) && Enabled(s, a)
    ensures Step(c, s, a).log.armedAt == map[]
  {
    hide Base, HandleStep;
    HandleFrame(c, s);
  }

  /** A reported success can be trusted in every interleaving - exactly if the start is clean. */
  lemma {:induction false} SuccessTrustedIff(c: Config, s: State)
    requires c.Ok() && Start(c, s)
    ensures (forall run :: Possible(c, s, run) && true in Exec(c, s, run).log.reports ==> Trusted(c, Exec(c, s, run)))
      <==> Clean(c, s)
  {
    if Clean(c, s) {
      forall run | Possible(c, s, run) && true in Exec(c, s, run).log.reports ensures Trusted(c, Exec(c, s, run)) {
        StepsKeep(c, s, run);
        RunOneByOne(c, s, run);
        TrustedNow(c, Exec(c, s, run));
      }
    } else {
      var run := StaleSlotMisleads(c, s);
      assert !Trusted(c, Exec(c, s, run));
    }
  }

  lemma {:induction false} TrustedNow(c: Config, t: State)
    requires (Inv(c, t) || Dormant(c, t)) && true in t.log.reports && OneByOne(t)
    ensures Trusted(c, t)
  {
    hide Slot, InFlight, Counted, Quiet, Awaiting, Wakeful, ArmedWell, Routed, Increasing, IssuedFrom;
    hide SkippedFrom, AckOf;
  }

  /** A success from an empty slot leaves the slot empty, for the next run to start from. */
  lemma {:induction false} SuccessLeavesClean(c: Config, s: State, run: seq<Action>)
    requires c.Ok() && Start(c, s) && s.cb.None? && Possible(c, s, run)
    requires true in Exec(c, s, run).log.reports
    ensures Exec(c, s, run).cb.None? && Exec(c, s, run).handler.Idle?
  {
    StepsKeep(c, s, run);
    hide Possible, Exec, InFlight, Counted, Answered, Awaiting, Acked, ArmedWell, Routed, Increasing;
    hide IssuedFrom, SkippedFrom;
  }

  // ----- particular runs -----

  lemma {:induction false} ExecAppend(c: Config, s: State, a: seq<Action>, b: seq<Action>)
    ensures Exec(c, s, a + b) == Exec(c, Exec(c, s, a), b)
    ensures Possible(c, s, a + b) <==> (Possible(c, s, a) && Possible(c, Exec(c, s, a), b))
  {
    if b == [] {
      assert a + b == a;
    } else {
      ExecAppend(c, s, a, b[..|b| - 1]);
      assert (a + b)[..|a + b| - 1] == a + b[..|b| - 1];
    }
  }

  /** One run after another. */
  lemma Join(c: Config, s: State, a: seq<Action>, b: seq<Action>) returns (run: seq<Action>)
    requires Possible(c, s, a) && Possible(c, Exec(c, s, a), b)
    ensures run == a + b && Possible(c, s, run) && Exec(c, s, run) == Exec(c, Exec(c, s, a), b)
  {
    ExecAppend(c, s, a, b);
    run := a + b;
  }

  /** One more step. */
  lemma Then(c: Config, s: State, run: seq<Action>, a: Action) returns (longer: seq<Action>)
    requires Possible(c, s, run) && Enabled(Exec(c, s, run), a)
    ensures longer == run + [a] && Possible(c, s, longer) && Exec(c, s, longer) == Step(c, Exec(c, s, run), a)
  {
    longer := run + [a];
    assert longer[..|longer| - 1] == run;
  }

  lemma NoSteps(c: Config, s: State)
    ensures Possible(c, s, []) && Exec(c, s, []) == s
  {
  }

  /** The state after a command has been sent, before the worker waits. */
  function Commanded(c: Config, s: State): State
    requires s.i < |c.script|
  {
    var e := c.script[s.i];
    s.(status := PENDING, wOpCode := e.opcode, cb := Some(e.callback), opcode := e.opcode, pc := Wait, armedFor := s.i,
       log := s.log.(armedAt := s.log.armedAt[s.i := |s.log.received|],
                     armed := s.log.armed + 1, issued := s.log.issued + [s.i]))
  }

  lemma {:induction false} Command(c: Config, s: State) returns (run: seq<Action>)
    requires s.pc == Guard && s.i < |c.script| && s.status != TERMINATE
    ensures Possible(c, s, run) && Exec(c, s, run) == Commanded(c, s)
  {
    hide Exec, Possible;
    NoSteps(c, s);
    run := Then(c, s, [], Work(false));
    run := Then(c, s, run, Work(true));
    run := Then(c, s, run, Work(false));
    var more := Issue(c, Exec(c, s, run));
    run := Join(c, s, run, more);
  }

  lemma {:induction false} Issue(c: Config, s: State) returns (run: seq<Action>)
    requires s.pc == SetOpCode && s.i < |c.script| && s.status == PENDING
    ensures Possible(c, s, run) && Exec(c, s, run) == Commanded(c, s)
  {
    hide Exec, Possible;
    NoSteps(c, s);
    run := Then(c, s, [], Work(false));
    run := Then(c, s, run, Work(false));
    run := Then(c, s, run, Work(false));
    run := Then(c, s, run, Work(false));
  }

  /** An event in the event thread's hands is matched, taken, judged and the verdict posted. */
  lemma {:induction false} Handled(c: Config, t: State) returns (run: seq<Action>)
    requires t.handler.Match? && t.cb.Some?
    requires t.handler.e.code == HCI_COMMAND_COMPLETE_EVENT && t.handler.e.opcode == t.opcode
    ensures Possible(c, t, run) && Exec(c, t, run) == Judged(t)
  {
    hide Exec, Possible;
    run := [];
    NoSteps(c, t);
    run := Then(c, t, run, Handle);
    run := Then(c, t, run, Handle);
    run := Then(c, t, run, Handle);
    run := Then(c, t, run, Handle);
    run := Then(c, t, run, Handle);
  }

  function Judged(t: State): State
    requires t.handler.Match? && t.cb.Some?
  {
    var success := Accepts(t.cb.value, t.handler.e, t.wOpCode);
    t.(status := if success then SUCCESS else FAIL, cb := None, signalled := t.pc == Blocked, handler := Idle,
       log := t.log.(routes := t.log.routes + [ToCallback], posted := t.log.posted + 1,
                     acks := if success then NewAcks(t) else t.log.acks))
  }

  /** A matching reply to a waiting command - from any start, wherever the worker is
    * after arming - goes to the callback and leaves the worker with its verdict and
    * able to go on. */
  lemma {:induction false} ReplyReleases(c: Config, t: State, e: Event) returns (run: seq<Action>)
    requires Base(c, t) && After(t.pc) && t.pc != ArmOpCode && t.cb.Some? && t.handler.Idle?
    requires e.code == HCI_COMMAND_COMPLETE_EVENT && e.opcode == c.script[t.i].opcode
    ensures Possible(c, t, run)
    ensures var u := Exec(c, t, run);
      && u.pc == t.pc && u.i == t.i && u.handler.Idle? && u.cb.None? && Enabled(u, Work(false))
      && u.status == (if e.status == 0 then SUCCESS else FAIL)
      && (e.status == 0 ==> AckOf(c, u, t.i)) && u.log.reports == t.log.reports
  {
    var more := Arrived(c, t, e);
    run := Handled(c, ArriveStep(t, e));
    run := Join(c, t, more, run);
    hide Exec, Possible, Wakeful, Routed, Increasing, IssuedFrom, SkippedFrom;
  }

  lemma {:induction false} Arrived(c: Config, t: State, e: Event) returns (run: seq<Action>)
    requires t.handler.Idle?
    ensures Possible(c, t, run) && Exec(c, t, run) == ArriveStep(t, e)
  {
    hide Exec, Possible;
    NoSteps(c, t);
    run := Then(c, t, [], Arrive(e));
  }

  /** The reply that acknowledges the command the worker is at. */
  function GoodReply(c: Config, i: nat): Event
    requires i < |c.script|
  {
    Event(HCI_COMMAND_COMPLETE_EVENT, c.script[i].opcode, 0)
  }

  /** What entry `k` was armed and acknowledged with, if it was, is the same in both states. */
  ghost predicate SameEntry(s: State, t: State, k: nat) {
    && (k in s.log.acks ==> k in t.log.acks && t.log.acks[k] == s.log.acks[k])
    && (k in s.log.armedAt ==> k in t.log.armedAt && t.log.armedAt[k] == s.log.armedAt[k])
  }

  /** The later state has gone on from the earlier one without touching the entries before it. */
  ghost predicate Later(s: State, t: State) {
    t.log.skipped == s.log.skipped && forall k: nat :: k < s.i ==> SameEntry(s, t, k)
  }

  /** From a command just sent - and even if termination is then requested - through
    * its good reply to the next entry. */
  lemma {:induction false} ReplyTaken(c: Config, s: State, t: State) returns (run: seq<Action>)
    requires c.Ok() && s.i < |c.script| && s.handler.Idle?
    requires t == Commanded(c, s) || t == Commanded(c, s).(status := TERMINATE, signalled := false)
    ensures Possible(c, t, run)
    ensures var u := Exec(c, t, run);
      && u.pc == Guard && u.i == s.i + 1 && u.status == SUCCESS && u.handler.Idle?
      && u.log.reports == s.log.reports && Later(s, u)
  {
    var more := Arrived(c, t, GoodReply(c, s.i));
    run := Handled(c, ArriveStep(t, GoodReply(c, s.i)));
    run := Join(c, t, more, run);
    hide Exec, Possible;
    run := Then(c, t, run, Work(false));
  }

  /** With good replies the worker goes through the rest of its script and reports
    * success, whatever its start was. */
  lemma {:induction false} CompletesFrom(c: Config, s: State) returns (run: seq<Action>)
    requires c.Ok() && s.pc == Guard && s.i <= |c.script| && s.status != TERMINATE && s.handler.Idle?
    requires s.log.reports == []
    ensures Possible(c, s, run) && Exec(c, s, run).log.reports == [true] && Later(s, Exec(c, s, run))
    decreases |c.script| - s.i
  {
    hide Exec, Possible, Config.Ok, Later, Commanded;
    if s.i == |c.script| {
      run := LeaveAtEnd(c, s);
    } else {
      var first := Command(c, s);
      var t := Exec(c, s, first);
      var next := ReplyTaken(c, s, t);
      var u := Exec(c, t, next);
      var rest := CompletesFrom(c, u);
      LaterStill(s, u, Exec(c, u, rest));
      run := Join(c, t, next, rest);
      run := Join(c, s, first, run);
    }
  }

  lemma {:induction false} LaterStill(s: State, t: State, u: State)
    requires Later(s, t) && Later(t, u) && s.i <= t.i
    ensures Later(s, u)
  {
    forall k: nat | k < s.i ensures SameEntry(s, u, k) {
      assert SameEntry(s, t, k) && SameEntry(t, u, k);
    }
  }

  lemma {:induction false} LeaveAtEnd(c: Config, s: State) returns (run: seq<Action>)
    requires s.pc == Guard && s.i == |c.script| && s.log.reports == []
    ensures Possible(c, s, run) && Exec(c, s, run).log.reports == [true] && Later(s, Exec(c, s, run))
  {
    hide Exec, Possible;
    run := [];
    NoSteps(c, s);
    run := Then(c, s, run, Work(false));
    run := Then(c, s, run, Work(false));
  }

  /** From a start that is not clean a success can mislead: an event that arrives for
    * the leftover callback waits until the worker has armed its own, is taken for
    * its reply, and the run ends in success with the first entry acknowledged by an
    * event older than the command. */
  lemma {:induction false} StaleSlotMisleads(c: Config, s: State) returns (run: seq<Action>)
    requires c.Ok() && Start(c, s) && !Clean(c, s)
    ensures Possible(c, s, run)
    ensures var t := Exec(c, s, run);
      && t.log.reports == [true] && c.start !in t.log.skipped
      && c.start in t.log.acks && c.start in t.log.armedAt && t.log.acks[c.start] < t.log.armedAt[c.start]
  {
    var e := GoodReply(c, c.start);
    var early := Arrived(c, s, e);
    var s1 := ArriveStep(s, e);
    var first := Command(c, s1);
    var t := Commanded(c, s1);
    var next := Handled(c, t);
    next := Then(c, t, next, Work(false));
    var u := Exec(c, t, next);
    var rest := CompletesFrom(c, u);
    hide Exec, Possible;
    assert SameEntry(u, Exec(c, u, rest), c.start);
    run := Join(c, t, next, rest);
    run := Join(c, s1, first, run);
    run := Join(c, s, early, run);
  }

  /** A start some run from which reports success: all but those where a termination
    * request is left over that nothing can overwrite. */
  lemma {:induction false} CompletableIff(c: Config, s: State)
    requires c.Ok() && Start(c, s)
    ensures (exists run :: Possible(c, s, run) && true in Exec(c, s, run).log.reports)
      <==> (s.status != TERMINATE || s.cb.Some? || c.start == |c.script|)
  {
    if s.status != TERMINATE {
      var run := CompletesFrom(c, s);
      assert true in Exec(c, s, run).log.reports;
    } else if c.start == |c.script| {
      var run := LeaveAtEnd(c, s);
      assert true in Exec(c, s, run).log.reports;
    } else if s.cb.Some? {
      var run := RequestOverwritten(c, s);
      assert true in Exec(c, s, run).log.reports;
    } else {
      forall run | Possible(c, s, run) ensures true !in Exec(c, s, run).log.reports {
        StaysStopped(c, s, run);
      }
    }
  }

  /** The leftover callback takes an event and its verdict overwrites the leftover request. */
  lemma {:induction false} RequestOverwritten(c: Config, s: State) returns (run: seq<Action>)
    requires c.Ok() && Start(c, s) && s.cb.Some?
    ensures Possible(c, s, run) && Exec(c, s, run).log.reports == [true]
  {
    var e := Event(HCI_COMMAND_COMPLETE_EVENT, s.opcode, 0);
    var early := Arrived(c, s, e);
    var next := Handled(c, ArriveStep(s, e));
    var rest := CompletesFrom(c, Judged(ArriveStep(s, e)));
    hide Exec, Possible;
    run := Join(c, ArriveStep(s, e), next, rest);
    run := Join(c, s, early, run);
  }

  /** Nothing armed and a termination request standing, the worker takes up no entry. */
  ghost predicate Stopped(c: Config, s: State) {
    && s.cb.None? && s.handler.Idle? && s.i == c.start < |c.script|
    && (s.pc == Guard || s.pc == Leave || s.pc == Finished) && (s.pc == Guard ==> s.status == TERMINATE)
    && true !in s.log.reports
  }

  lemma {:induction false} StaysStopped(c: Config, s: State, run: seq<Action>)
    requires Stopped(c, s) && Possible(c, s, run)
    ensures Stopped(c, Exec(c, s, run))
  {
    if run != [] {
      StaysStopped(c, s, run[..|run| - 1]);
    }
  }

  /** A termination request can be lost: a reply overwrites it, and the script goes on to success. */
  lemma {:induction false} TerminationOverwritten(c: Config, s: State) returns (run: seq<Action>)
    requires c.Ok() && Start(c, s) && s.status != TERMINATE && c.start < |c.script|
    ensures Terminate in run && Possible(c, s, run) && Exec(c, s, run).log.reports == [true]
  {
    hide Exec, Possible, Config.Ok, Later;
    var first := Command(c, s);
    first := Then(c, s, first, Terminate);
    var t := Exec(c, s, first);
    var next := ReplyTaken(c, s, t);
    var rest := CompletesFrom(c, Exec(c, t, next));
    rest := Join(c, t, next, rest);
    run := Join(c, s, first, rest);
    assert first[|first| - 1] == Terminate;
    assert Terminate in first;
  }

  /** A run stopped by a termination request can leave its callback armed, and so
    * the next run with a start that is not clean. */
  lemma {:induction false} TerminatedStaysArmed(c: Config, s: State) returns (run: seq<Action>)
    requires c.Ok() && Start(c, s) && s.status != TERMINATE && c.start < |c.script|
    ensures Possible(c, s, run)
    ensures var t := Exec(c, s, run);
      && t.log.reports == [false] && t.status != TERMINATE
      && t.cb == Some(c.script[c.start].callback) && t.opcode == t.wOpCode == c.script[c.start].opcode
  {
    hide Exec, Possible;
    run := Command(c, s);
    run := Then(c, s, run, Terminate);
    run := Then(c, s, run, Work(false));
    run := Then(c, s, run, Work(false));
  }
}
