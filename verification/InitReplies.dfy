/** Replies to initialisation commands, in every interleaving: a reply always
  * wakes the worker that waits for it, and exactly when it always reaches the callback.
  */
module InitReplies {
  import opened InitProtocol

  /** While the event thread is idle the reply to the worker's command comes in:
    * the command's bytes may go out already, or the worker waits. */
  ghost predicate Replies(c: Config, t: State, e: Event) {
    && After(t.pc) && t.pc != ArmOpCode && t.handler.Idle? && t.i < |c.script|
    && e.code == HCI_COMMAND_COMPLETE_EVENT && e.opcode == c.script[t.i].opcode
  }

  // ----- a reply wakes the worker -----

  /** Steps the event thread still has to take for the event in its hands. */
  function StepsLeft(h: Handler): nat {
    match h
    case Idle => 0
    case Match(_) => 5
    case Take(_) => 4
    case Clear(_, _) => 3
    case Evaluate(_, _) => 2
    case Post(_) => 1
  }

  function Handles(run: seq<Action>): nat {
    if run == [] then 0 else Handles(run[..|run| - 1]) + if run[|run| - 1].Handle? then 1 else 0
  }

  /** The worker is still at the command it was at in `t`. */
  predicate StillAt(t: State, u: State) { u.i == t.i && After(u.pc) }

  /** The event thread is busy with the reply. */
  ghost predicate Busy(c: Config, t: State, e: Event, u: State)
    requires t.i < |c.script|
  {
    && t.cb.Some? && |u.log.received| == |t.log.received| + 1
    && (Looking(u.handler) || u.handler.Evaluate? ==> u.handler.e == e)
    && (u.handler.Clear? || u.handler.Evaluate? ==> u.handler.saved == c.script[t.i].callback)
    && (Looking(u.handler) <==> u.cb.Some?)
    && (u.handler.Post? ==> u.handler.success == (e.status == 0) && AckedBy(t, e, u))
  }

  /** A good reply is recorded as what acknowledged the command. */
  ghost predicate AckedBy(t: State, e: Event, u: State) {
    e.status == 0 ==> t.i in u.log.acks && u.log.acks[t.i] == |t.log.received|
  }

  /** The reply has been dealt with, and only a termination request has come over its verdict. */
  ghost predicate Verdict(t: State, e: Event, u: State) {
    u.status == (if e.status == 0 then SUCCESS else FAIL) || u.status == TERMINATE
  }

  ghost predicate Served(t: State, e: Event, u: State) {
    u.cb.None? && (t.cb.Some? ==> Verdict(t, e, u) && AckedBy(t, e, u))
  }

  /** What holds `n` event-thread steps after the reply came in. */
  ghost predicate Serving(c: Config, t: State, e: Event, n: nat, u: State) {
    && t.i <= u.i && t.i < |c.script|
    && (u.i == t.i ==> !Before(u.pc) && u.pc != ArmOpCode)
    && (StillAt(t, u) ==>
          && StepsLeft(u.handler) + n <= 5
          && if u.handler.Idle? then Served(t, e, u) else Busy(c, t, e, u))
  }

  lemma {:induction false} ArrivalServing(c: Config, t: State, e: Event)
    requires Base(c, t) && Replies(c, t, e)
    ensures Serving(c, t, e, 0, ArriveStep(t, e))
  {
  }

  lemma {:induction false} WorkServing(c: Config, t: State, e: Event, n: nat, u: State, luck: bool)
    requires Base(c, u) && Serving(c, t, e, n, u) && Enabled(u, Work(luck))
    ensures Serving(c, t, e, n, WorkStep(c, u, luck))
  {
    hide Bounds, Wakeful, ArmedWell, Routed, Increasing, IssuedFrom, SkippedFrom;
  }

  lemma {:induction false} HandleServing(c: Config, t: State, e: Event, n: nat, u: State)
    requires Base(c, u) && Serving(c, t, e, n, u) && Replies(c, t, e) && !u.handler.Idle?
    ensures Serving(c, t, e, n + 1, HandleStep(c, u))
  {
    if StillAt(t, u) {
      AtCommand(c, t, u);
    }
    hide Base;
  }

  /** A worker at a command has the command's own callback and opcode in the slot. */
  lemma AtCommand(c: Config, t: State, u: State)
    requires Base(c, u) && StillAt(t, u) && u.pc != ArmOpCode
    ensures t.i < |c.script| && u.opcode == u.wOpCode == c.script[t.i].opcode
    ensures u.cb.Some? ==> u.cb.value == c.script[t.i].callback
    ensures u.armedFor == t.i && t.i in u.log.armedAt
    ensures c.script[t.i].callback.GetAddrComplete? ==> c.script[t.i].opcode == GET_LOCAL_BD_ADDR
  {
    hide Wakeful, Routed, Increasing, IssuedFrom, SkippedFrom;
  }

  lemma {:induction false} OtherServing(c: Config, t: State, e: Event, n: nat, u: State, a: Action)
    requires Base(c, u) && Serving(c, t, e, n, u) && Enabled(u, a) && (a.Arrive? || a.Terminate?)
    ensures Serving(c, t, e, n, Step(c, u, a))
  {
    hide Bounds, ArmedWell, Routed, Increasing, IssuedFrom, SkippedFrom, WorkStep, HandleStep;
  }

  lemma {:induction false} RunServing(c: Config, t: State, e: Event, run: seq<Action>)
    requires Base(c, t) && Replies(c, t, e) && Possible(c, ArriveStep(t, e), run)
    ensures var u := Exec(c, ArriveStep(t, e), run); Base(c, u) && Serving(c, t, e, Handles(run), u)
  {
    hide Base, Serving, ArriveStep, WorkStep, HandleStep, Replies;
    if run == [] {
      ArriveIdle(c, t, e);
      ArriveKeepsBase(c, t, e);
      ArrivalServing(c, t, e);
    } else {
      var a := run[|run| - 1];
      RunServing(c, t, e, run[..|run| - 1]);
      var u, n := Exec(c, ArriveStep(t, e), run[..|run| - 1]), Handles(run[..|run| - 1]);
      BaseKeeps(c, u, a);
      match a {
        case Work(luck) => WorkServing(c, t, e, n, u, luck);
        case Handle => HandleServing(c, t, e, n, u);
        case Arrive(_) => OtherServing(c, t, e, n, u, a);
        case Terminate => OtherServing(c, t, e, n, u, a);
      }
    }
  }

  lemma ArriveIdle(c: Config, t: State, e: Event)
    requires Replies(c, t, e)
    ensures t.handler.Idle?
  {
  }

  /** No wake-up is lost, from any start and in every interleaving: once the reply
    * to its command has come in, a worker still at that command can go on as soon
    * as the event thread is idle again, which takes at most five steps of it; and
    * if the callback was still due, the worker finds the reply's verdict or a
    * termination request, and a good reply is its acknowledgement. */
  lemma {:induction false} ReplyWakes(c: Config, s: State, before: seq<Action>, e: Event, after: seq<Action>)
    requires c.Ok() && Start(c, s) && Possible(c, s, before) && Replies(c, Exec(c, s, before), e)
    requires Possible(c, ArriveStep(Exec(c, s, before), e), after)
    ensures var t := Exec(c, s, before); var u := Exec(c, ArriveStep(t, e), after);
      StillAt(t, u) ==>
        if u.handler.Idle? then
          && u.status != PENDING && Enabled(u, Work(false))
          && (t.cb.Some? ==> Verdict(t, e, u) && AckedBy(t, e, u))
        else Enabled(u, Handle) && Handles(after) < 5
  {
    StepsKeepBase(c, s, before);
    RunServing(c, Exec(c, s, before), e, after);
    hide Exec, Possible, Start, ArriveStep, ArmedWell, Routed, Increasing, IssuedFrom, SkippedFrom, Bounds;
  }

  // ----- a reply reaches the callback -----

  /** The event that came in at `t`, once it is routed, went to the callback. */
  ghost predicate RoutedBack(t: State, u: State) {
    |u.log.routes| > |t.log.routes| ==> u.log.routes[|t.log.routes|] == ToCallback
  }

  /** It goes there in every interleaving that follows. */
  ghost predicate AlwaysBack(c: Config, t: State, e: Event) {
    forall run :: Possible(c, ArriveStep(t, e), run) ==> RoutedBack(t, Exec(c, ArriveStep(t, e), run))
  }

  ghost predicate AllDebug(c: Config, from: int, to: int) {
    forall k :: 0 <= from <= k < to <= |c.script| ==> c.script[k].debug
  }

  /** An entry the worker may take up next has another opcode. */
  ghost predicate OtherNext(c: Config, i: nat)
    requires i < |c.script|
  {
    exists k :: i < k < |c.script| && AllDebug(c, i + 1, k) && c.script[k].opcode != c.script[i].opcode
  }

  /** The worker may move on before its reply has come, and change the opcode that replies are matched with. */
  ghost predicate MayMoveOn(c: Config, t: State) {
    t.status == SUCCESS && t.i < |c.script| && OtherNext(c, t.i)
  }

  /** The reply is not matched yet, and the worker cannot have changed the opcode. */
  ghost predicate Unmatched(c: Config, t: State, e: Event, u: State) {
    && t.i <= u.i <= |c.script| && t.i < |c.script|
    && u.log.routes == t.log.routes && u.handler == Match(e) && u.opcode == c.script[t.i].opcode
    && (if u.i == t.i then
          && !Before(u.pc) && u.pc != ArmOpCode
          && (After(u.pc) && u.status == SUCCESS ==> t.status == SUCCESS)
        else
          && t.status == SUCCESS && AllDebug(c, t.i + 1, u.i)
          && (After(u.pc) || u.pc == SetOpCode || u.pc == ArmCallback ==> u.status == PENDING || u.status == TERMINATE))
  }

  /** The reply is on its way to the callback, or there. */
  ghost predicate Matched(t: State, u: State) {
    if u.handler.Take? || u.handler.Clear? then |u.log.routes| >= |t.log.routes| && RoutedBack(t, u)
    else |u.log.routes| > |t.log.routes| && RoutedBack(t, u)
  }

  lemma {:induction false} WorkUnmatched(c: Config, t: State, e: Event, u: State, luck: bool)
    requires Base(c, u) && Unmatched(c, t, e, u) && !MayMoveOn(c, t) && Enabled(u, Work(luck))
    ensures Unmatched(c, t, e, WorkStep(c, u, luck))
  {
    if u.i == t.i {
      WorkUnmatchedHere(c, t, e, u, luck);
    } else {
      WorkUnmatchedThere(c, t, e, u, luck);
    }
  }

  lemma {:induction false} WorkUnmatchedHere(c: Config, t: State, e: Event, u: State, luck: bool)
    requires Bounds(c, u) && Unmatched(c, t, e, u) && u.i == t.i && Enabled(u, Work(luck))
    ensures Unmatched(c, t, e, WorkStep(c, u, luck))
  {
  }

  /** Beyond the command replied to the worker is at an entry of the same opcode. */
  lemma {:induction false} WorkUnmatchedThere(c: Config, t: State, e: Event, u: State, luck: bool)
    requires Bounds(c, u) && Unmatched(c, t, e, u) && u.i > t.i && !MayMoveOn(c, t) && Enabled(u, Work(luck))
    ensures Unmatched(c, t, e, WorkStep(c, u, luck))
  {
    if u.pc == ArmOpCode {
      assert u.wOpCode == c.script[u.i].opcode == c.script[t.i].opcode;
      hide MayMoveOn, Bounds;
    } else {
      hide MayMoveOn;
    }
  }

  lemma {:induction false} HandleUnmatched(c: Config, t: State, e: Event, u: State)
    requires Base(c, u) && Unmatched(c, t, e, u) && Replies(c, t, e)
    ensures Matched(t, HandleStep(c, u))
  {
    hide Bounds, Wakeful, ArmedWell, Routed, Increasing, IssuedFrom, SkippedFrom;
  }

  lemma {:induction false} StepMatched(c: Config, t: State, u: State, a: Action)
    requires Base(c, u) && Matched(t, u) && Enabled(u, a)
    ensures Matched(t, Step(c, u, a))
  {
    hide Bounds, ArmedWell, Routed, Increasing, IssuedFrom, SkippedFrom;
  }

  lemma {:induction false} RunMatched(c: Config, t: State, e: Event, run: seq<Action>)
    requires Base(c, t) && Replies(c, t, e) && t.cb.Some? && !MayMoveOn(c, t)
    requires Possible(c, ArriveStep(t, e), run)
    ensures var u := Exec(c, ArriveStep(t, e), run); Base(c, u) && (Unmatched(c, t, e, u) || Matched(t, u))
  {
    hide MayMoveOn, Base, Unmatched, Matched, ArriveStep, WorkStep, HandleStep, Replies;
    if run == [] {
      ArriveIdle(c, t, e);
      ArriveKeepsBase(c, t, e);
      ArrivalUnmatched(c, t, e);
    } else {
      var a := run[|run| - 1];
      RunMatched(c, t, e, run[..|run| - 1]);
      var u := Exec(c, ArriveStep(t, e), run[..|run| - 1]);
      BaseKeeps(c, u, a);
      if Matched(t, u) {
        StepMatched(c, t, u, a);
      } else {
        match a {
          case Work(luck) => WorkUnmatched(c, t, e, u, luck);
          case Handle => HandleUnmatched(c, t, e, u);
          case Arrive(_) => OtherUnmatched(c, t, e, u, a);
          case Terminate => OtherUnmatched(c, t, e, u, a);
        }
      }
    }
  }

  lemma {:induction false} ArrivalUnmatched(c: Config, t: State, e: Event)
    requires Base(c, t) && Replies(c, t, e) && t.cb.Some?
    ensures Unmatched(c, t, e, ArriveStep(t, e))
  {
    hide Wakeful, Routed, Increasing, IssuedFrom, SkippedFrom;
  }

  lemma {:induction false} OtherUnmatched(c: Config, t: State, e: Event, u: State, a: Action)
    requires Unmatched(c, t, e, u) && Enabled(u, a) && (a.Arrive? || a.Terminate?)
    ensures Unmatched(c, t, e, Step(c, u, a))
  {
    hide WorkStep, HandleStep, AllDebug;
  }

  /** A reply that finds its callback armed goes there in every interleaving - exactly
    * if the worker cannot move on without it to an entry of another opcode. */
  lemma {:induction false} ReplyRoutedIff(c: Config, t: State, e: Event)
    requires Base(c, t) && Replies(c, t, e) && t.cb.Some?
    ensures AlwaysBack(c, t, e) <==> !MayMoveOn(c, t)
  {
    if MayMoveOn(c, t) {
      var run := MovesOn(c, t, e);
      assert !RoutedBack(t, Exec(c, ArriveStep(t, e), run));
    } else {
      forall run | Possible(c, ArriveStep(t, e), run) ensures RoutedBack(t, Exec(c, ArriveStep(t, e), run)) {
        RunMatched(c, t, e, run);
      }
    }
  }

  /** The worker skips debug commands. */
  lemma {:induction false} SkipTo(c: Config, s: State, k: nat) returns (run: seq<Action>)
    requires s.pc == Guard && s.status != TERMINATE && s.i <= k <= |c.script| && AllDebug(c, s.i, k)
    ensures Possible(c, s, run)
    ensures var u := Exec(c, s, run); u == s.(i := k, log := s.log.(skipped := u.log.skipped))
  {
    hide Exec, Possible;
    if k == s.i {
      run := [];
      NoSteps(c, s);
    } else {
      run := SkipTo(c, s, k - 1);
      run := Then(c, s, run, Work(true));
    }
  }

  /** The failing run: the worker takes the status for its reply's and moves on to
    * another opcode; then the reply, matched with that, goes to the stack. */
  lemma {:induction false} MovesOn(c: Config, t: State, e: Event) returns (run: seq<Action>)
    requires Base(c, t) && Replies(c, t, e) && t.cb.Some? && MayMoveOn(c, t)
    ensures Possible(c, ArriveStep(t, e), run) && !RoutedBack(t, Exec(c, ArriveStep(t, e), run))
  {
    var k :| t.i < k < |c.script| && AllDebug(c, t.i + 1, k) && c.script[k].opcode != c.script[t.i].opcode;
    var s := ArriveStep(t, e);
    run := ToNext(c, s);
    hide Exec, Possible, Base;
    var u := Exec(c, s, run);
    var more := SkipTo(c, u, k);
    var v := Exec(c, u, more);
    run := Join(c, s, run, more);
    more := Command(c, v);
    run := Join(c, s, run, more);
    run := Then(c, s, run, Handle);
  }

  lemma {:induction false} ToNext(c: Config, s: State) returns (run: seq<Action>)
    requires Wakeful(s) && s.status == SUCCESS && (s.pc == Send || s.pc == Wait || s.pc == Blocked)
    ensures Possible(c, s, run)
    ensures var u := Exec(c, s, run);
      && u.pc == Guard && u.i == s.i + 1 && u.status == SUCCESS && u.cb == s.cb && u.handler == s.handler
      && u.log.routes == s.log.routes && u.opcode == s.opcode && u.wOpCode == s.wOpCode
  {
    hide Exec, Possible;
    run := [];
    NoSteps(c, s);
    if s.pc != Wait {
      run := Then(c, s, run, Work(false));
    }
    run := Then(c, s, run, Work(false));
  }

  // ----- the starts from which replies reach their callback -----

  /** From this start every reply that finds its callback armed goes there, in every interleaving. */
  ghost predicate RepliesReach(c: Config, s: State) {
    forall before :: Possible(c, s, before) ==> forall e :: Reaches(c, Exec(c, s, before), e)
  }

  ghost predicate Reaches(c: Config, t: State, e: Event) {
    Replies(c, t, e) && t.cb.Some? ==> AlwaysBack(c, t, e)
  }

  /** The leftover callback takes a good event for the leftover opcode as a success,
    * with the leftover opcode to compare it with or that of entry `k`. */
  ghost predicate Welcomes(c: Config, s: State, k: nat)
    requires s.cb.Some? && k < |c.script|
  {
    var e := Event(HCI_COMMAND_COMPLETE_EVENT, s.opcode, 0);
    Accepts(s.cb.value, e, s.wOpCode) || Accepts(s.cb.value, e, c.script[k].opcode)
  }

  /** From entry `k` on all opcodes are the same. */
  ghost predicate Uniform(c: Config, k: int) {
    forall j :: 0 <= k <= j < |c.script| - 1 ==> c.script[j].opcode == c.script[j + 1].opcode
  }

  /** The leftover callback can report a success that the worker takes for its first
    * command's, and the script has another opcode to move on to. */
  ghost predicate Misleading(c: Config, s: State) {
    && !Clean(c, s)
    && exists k :: c.start <= k < |c.script| && AllDebug(c, c.start, k) && Welcomes(c, s, k) && !Uniform(c, k)
  }

  lemma {:induction false} UniformAll(c: Config, i: nat, k: nat)
    requires Uniform(c, i) && i <= k < |c.script|
    ensures c.script[k].opcode == c.script[i].opcode
  {
    if k > i {
      UniformAll(c, i, k - 1);
    }
  }

  /** Nothing has been armed yet. */
  ghost predicate Early(c: Config, s: State, u: State) {
    && s.cb.Some? && c.start <= u.i <= |c.script| && AllDebug(c, c.start, u.i)
    && Before(u.pc) && u.opcode == s.opcode && (u.cb == s.cb || u.cb.None?)
    && (u.pc == ArmCallback || u.wOpCode == s.wOpCode)
    && (u.handler.Take? || u.handler.Clear? || u.handler.Evaluate? ==>
          u.handler.e.code == HCI_COMMAND_COMPLETE_EVENT && u.handler.e.opcode == s.opcode)
    && (u.handler.Clear? || u.handler.Evaluate? ==> u.handler.saved == s.cb.value)
    && (u.handler.Evaluate? || u.handler.Post? ==> u.cb.None?)
    && (u.handler == Post(true) || (u.status == SUCCESS && (u.pc == SetOpCode || u.pc == ArmCallback)) ==>
          Welcomed(c, s, u))
  }

  ghost predicate Welcomed(c: Config, s: State, u: State) {
    && s.cb.Some?
    && var e := Event(HCI_COMMAND_COMPLETE_EVENT, s.opcode, 0);
    || Accepts(s.cb.value, e, s.wOpCode)
    || (u.pc == ArmCallback && u.i < |c.script| && Accepts(s.cb.value, e, c.script[u.i].opcode))
  }

  /** A success is never there before the reply: the status is no success while a
    * callback is due, and what is left of an earlier callback has no success to report. */
  ghost predicate Honest(u: State) {
    && (After(u.pc) && Outstanding(u) ==> u.status != SUCCESS)
    && (Before(u.pc) ==> u.cb.None? && u.handler.Idle?)
    && (u.pc == SetOpCode || u.pc == ArmCallback ==> u.status == PENDING || u.status == TERMINATE)
    && (u.cb.Some? && u.handler.Evaluate? ==> !Accepts(u.handler.saved, u.handler.e, u.wOpCode))
    && (u.cb.Some? ==> u.handler != Post(true))
  }

  /** How a run goes from a start that is not misleading. */
  ghost predicate Fair(c: Config, s: State, u: State) {
    (!Before(u.pc) && !After(u.pc)) || Uniform(c, u.i) || Honest(u) || Early(c, s, u)
  }

  lemma {:induction false} HonestKeeps(c: Config, u: State, a: Action)
    requires Base(c, u) && Honest(u) && (Before(u.pc) || After(u.pc)) && Enabled(u, a)
    ensures var v := Step(c, u, a); Honest(v) || (!Before(v.pc) && !After(v.pc))
  {
    hide Routed, Increasing, IssuedFrom, SkippedFrom, ArmedWell;
  }

  lemma {:induction false} EarlyWork(c: Config, s: State, u: State, luck: bool)
    requires c.Ok() && !Misleading(c, s) && !Clean(c, s)
    requires Base(c, u) && Early(c, s, u) && Enabled(u, Work(luck))
    ensures Fair(c, s, WorkStep(c, u, luck))
  {
    if u.pc == ArmCallback {
      EarlyArms(c, s, u, luck);
    } else {
      hide Routed, Increasing, IssuedFrom, SkippedFrom, ArmedWell, Uniform, Honest, Misleading, Welcomed;
      hide HandleStep, Accepts;
      EarlyMoves(c, s, u, luck);
    }
  }

  lemma {:induction false} EarlyMoves(c: Config, s: State, u: State, luck: bool)
    requires Base(c, u) && Early(c, s, u) && Enabled(u, Work(luck)) && u.pc != ArmCallback
    ensures var v := WorkStep(c, u, luck); Early(c, s, v) || (!Before(v.pc) && !After(v.pc))
  {
    hide Routed, Increasing, IssuedFrom, SkippedFrom, ArmedWell, Wakeful, Accepts, Enabled;
  }

  /** The first arming: unless all opcodes from here on are the same, the leftover
    * callback has no success to report. */
  lemma {:induction false} EarlyArms(c: Config, s: State, u: State, luck: bool)
    requires c.Ok() && !Misleading(c, s) && !Clean(c, s)
    requires Base(c, u) && Early(c, s, u) && u.pc == ArmCallback
    ensures Fair(c, s, WorkStep(c, u, luck))
  {
    hide Routed, Increasing, IssuedFrom, SkippedFrom, ArmedWell, Uniform;
    if !Uniform(c, u.i) {
      assert !Welcomes(c, s, u.i);
      assert !Welcomed(c, s, u);
      hide Misleading, Early, AllDebug;
      assert Honest(WorkStep(c, u, luck));
    }
  }

  lemma {:induction false} EarlyElse(c: Config, s: State, u: State, a: Action)
    requires Base(c, u) && Early(c, s, u) && Enabled(u, a) && !a.Work?
    ensures Early(c, s, Step(c, u, a))
  {
    hide Routed, Increasing, IssuedFrom, SkippedFrom, ArmedWell, AllDebug, WorkStep;
  }

  lemma UniformKeeps(c: Config, u: State, a: Action)
    requires Uniform(c, u.i)
    ensures Uniform(c, Step(c, u, a).i)
  {
  }

  lemma {:induction false} FairKeeps(c: Config, s: State, u: State, a: Action)
    requires c.Ok() && !Misleading(c, s) && !Clean(c, s) && Base(c, u) && Fair(c, s, u) && Enabled(u, a)
    ensures Fair(c, s, Step(c, u, a))
  {
    hide Base, Uniform, Honest, Early, Misleading, Clean, WorkStep, HandleStep, ArriveStep;
    if Uniform(c, u.i) {
      UniformKeeps(c, u, a);
    } else if !Before(u.pc) && !After(u.pc) {
      StaysOut(c, u, a);
    } else if Honest(u) {
      HonestKeeps(c, u, a);
    } else if a.Work? {
      EarlyWork(c, s, u, a.luck);
    } else {
      EarlyElse(c, s, u, a);
    }
  }

  lemma StaysOut(c: Config, u: State, a: Action)
    requires !Before(u.pc) && !After(u.pc) && Enabled(u, a)
    ensures var v := Step(c, u, a); !Before(v.pc) && !After(v.pc)
  {
  }

  lemma {:induction false} RunFair(c: Config, s: State, run: seq<Action>)
    requires c.Ok() && Start(c, s) && !Misleading(c, s) && !Clean(c, s) && Possible(c, s, run)
    ensures Fair(c, s, Exec(c, s, run))
  {
    hide Fair, Step, Misleading, Clean;
    if run == [] {
      StartFair(c, s);
    } else {
      RunFair(c, s, run[..|run| - 1]);
      StepsKeepBase(c, s, run[..|run| - 1]);
      FairKeeps(c, s, Exec(c, s, run[..|run| - 1]), run[|run| - 1]);
    }
  }

  lemma StartFair(c: Config, s: State)
    requires c.Ok() && Start(c, s) && !Clean(c, s)
    ensures Fair(c, s, s)
  {
  }

  /** From a start that is not misleading the worker never moves on without its reply. */
  lemma {:induction false} NoMoveOn(c: Config, s: State, run: seq<Action>)
    requires c.Ok() && Start(c, s) && !Misleading(c, s) && Possible(c, s, run)
    ensures var t := Exec(c, s, run); After(t.pc) && t.cb.Some? ==> !MayMoveOn(c, t)
  {
    hide Exec, Misleading, Start, Possible;
    if Clean(c, s) {
      StepsKeep(c, s, run);
      NoneInv(c, Exec(c, s, run));
    } else {
      RunFair(c, s, run);
      NoneFair(c, s, Exec(c, s, run));
    }
  }

  lemma {:induction false} NoneInv(c: Config, t: State)
    requires Inv(c, t) || Dormant(c, t)
    ensures After(t.pc) && t.cb.Some? ==> !MayMoveOn(c, t)
  {
    hide Base, Slot, InFlight, Counted, Quiet, Answered, Acked;
  }

  lemma {:induction false} NoneFair(c: Config, s: State, t: State)
    requires Fair(c, s, t)
    ensures After(t.pc) && t.cb.Some? ==> !MayMoveOn(c, t)
  {
    if t.i < |c.script| && Uniform(c, t.i) {
      forall k | t.i < k < |c.script| ensures c.script[k].opcode == c.script[t.i].opcode {
        UniformAll(c, t.i, k);
      }
    }
  }

  /** In every interleaving replies reach their callback - exactly if the start is not misleading. */
  lemma {:induction false} RepliesReachIff(c: Config, s: State)
    requires c.Ok() && Start(c, s)
    ensures RepliesReach(c, s) <==> !Misleading(c, s)
  {
    hide Misleading, Possible, Exec, Start, Reaches;
    if Misleading(c, s) {
      var before, e := Misled(c, s);
      assert !Reaches(c, Exec(c, s, before), e);
    } else {
      forall before, e | Possible(c, s, before) ensures Reaches(c, Exec(c, s, before), e) {
        NoMoveOn(c, s, before);
        StepsKeepBase(c, s, before);
        ReachesIfStays(c, Exec(c, s, before), e);
      }
    }
  }

  lemma {:induction false} ReachesIfStays(c: Config, t: State, e: Event)
    requires Base(c, t) && (After(t.pc) && t.cb.Some? ==> !MayMoveOn(c, t))
    ensures Reaches(c, t, e)
  {
    hide Base, MayMoveOn, AlwaysBack;
    if Replies(c, t, e) && t.cb.Some? {
      ReplyRoutedIff(c, t, e);
    }
  }

  /** Such starts come about: a run stopped by a termination request can leave the
    * callback and opcode of its first command, and unless all opcodes of a script are
    * the same the next run is then misled. */
  lemma {:induction false} NextRunMisled(c: Config, s: State, c': Config, s': State) returns (run: seq<Action>)
    requires c.Ok() && Start(c, s) && s.status != TERMINATE && c.start < |c.script|
    requires c'.Ok() && c'.start < |c'.script| && !Uniform(c', c'.start)
    ensures Possible(c, s, run)
    ensures var t := Exec(c, s, run);
      t.log.reports == [false]
      && (Start(c', s') && s'.cb == t.cb && s'.opcode == t.opcode && s'.wOpCode == t.wOpCode && s'.status == t.status
          ==> Misleading(c', s') && !RepliesReach(c', s'))
  {
    run := TerminatedStaysArmed(c, s);
    hide Exec, Possible, RepliesReach;
    assert AllDebug(c', c'.start, c'.start);
    var t := Exec(c, s, run);
    if Start(c', s') && s'.cb == t.cb && s'.opcode == t.opcode && s'.wOpCode == t.wOpCode && s'.status == t.status {
      assert Welcomes(c', s', c'.start);
      RepliesReachIff(c', s');
    }
  }

  /** The worker is at an entry with a leftover callback that welcomes an event. */
  ghost predicate Tainted(c: Config, s: State) {
    && s.pc == Guard && s.handler.Idle? && s.cb.Some? && s.status != TERMINATE && s.i < |c.script|
    && Welcomes(c, s, s.i)
  }

  /** The command of entry `i` is out, and the status already is a success. */
  ghost predicate Fooled(c: Config, s: State, i: nat) {
    && s.pc == Wait && s.status == SUCCESS && s.handler.Idle? && s.i == i < |c.script|
    && s.cb == Some(c.script[i].callback) && s.opcode == s.wOpCode == c.script[i].opcode
  }

  /** An event in the event thread's hands is matched and the callback taken. */
  lemma {:induction false} Taken(c: Config, t: State) returns (run: seq<Action>)
    requires t.handler.Match? && t.cb.Some?
    requires t.handler.e.code == HCI_COMMAND_COMPLETE_EVENT && t.handler.e.opcode == t.opcode
    ensures Possible(c, t, run)
    ensures Exec(c, t, run) == t.(cb := None, handler := Evaluate(t.handler.e, t.cb.value),
                                  log := t.log.(routes := t.log.routes + [ToCallback]))
  {
    hide Exec, Possible;
    NoSteps(c, t);
    run := Then(c, t, [], Handle);
    run := Then(c, t, run, Handle);
    run := Then(c, t, run, Handle);
  }

  /** The worker takes up an entry. */
  lemma {:induction false} TakeUp(c: Config, t: State) returns (run: seq<Action>)
    requires t.pc == Guard && t.i < |c.script| && t.status != TERMINATE
    ensures Possible(c, t, run) && Exec(c, t, run) == t.(status := PENDING, pc := SetOpCode)
  {
    hide Exec, Possible;
    NoSteps(c, t);
    run := Then(c, t, [], Work(false));
    run := Then(c, t, run, Work(true));
    run := Then(c, t, run, Work(false));
  }

  /** The leftover callback reports between the worker's setting the status and its
    * arming - before or after it has set the opcode. */
  lemma {:induction false} ReportsBetween(c: Config, t: State) returns (run: seq<Action>)
    requires t.pc == SetOpCode && t.i < |c.script| && t.handler.Evaluate?
    requires Accepts(t.handler.saved, t.handler.e, t.wOpCode)
      || Accepts(t.handler.saved, t.handler.e, c.script[t.i].opcode)
    ensures Possible(c, t, run)
    ensures var u := Exec(c, t, run);
      && u.pc == ArmCallback && u.i == t.i && u.status == SUCCESS && u.handler.Idle?
      && u.wOpCode == c.script[t.i].opcode && u.opcode == t.opcode && u.cb == t.cb
  {
    hide Exec, Possible;
    NoSteps(c, t);
    if Accepts(t.handler.saved, t.handler.e, t.wOpCode) {
      run := Then(c, t, [], Handle);
      run := Then(c, t, run, Handle);
      run := Then(c, t, run, Work(false));
    } else {
      run := Then(c, t, [], Work(false));
      run := Then(c, t, run, Handle);
      run := Then(c, t, run, Handle);
    }
  }

  lemma {:induction false} ArmsAndSends(c: Config, t: State) returns (run: seq<Action>)
    requires t.pc == ArmCallback && t.i < |c.script| && t.status == SUCCESS && t.handler.Idle?
    requires t.wOpCode == c.script[t.i].opcode
    ensures Possible(c, t, run) && Fooled(c, Exec(c, t, run), t.i)
  {
    hide Exec, Possible;
    NoSteps(c, t);
    run := Then(c, t, [], Work(false));
    run := Then(c, t, run, Work(false));
    run := Then(c, t, run, Work(false));
  }

  lemma {:induction false} TaintedFools(c: Config, s: State) returns (run: seq<Action>)
    requires Tainted(c, s)
    ensures Possible(c, s, run) && Fooled(c, Exec(c, s, run), s.i)
  {
    hide Exec, Possible;
    var e := Event(HCI_COMMAND_COMPLETE_EVENT, s.opcode, 0);
    run := Arrived(c, s, e);
    var t := ArriveStep(s, e);
    var more := Taken(c, t);
    run := Join(c, s, run, more);
    t := Exec(c, s, run);
    more := TakeUp(c, t);
    run := Join(c, s, run, more);
    t := Exec(c, s, run);
    more := ReportsBetween(c, t);
    run := Join(c, s, run, more);
    t := Exec(c, s, run);
    more := ArmsAndSends(c, t);
    run := Join(c, s, run, more);
  }

  /** Once fooled the worker is fooled at every entry it goes on to. */
  lemma {:induction false} FooledTo(c: Config, s: State, j: nat) returns (run: seq<Action>)
    requires c.Ok() && Tainted(c, s) && s.i <= j < |c.script|
    ensures Possible(c, s, run) && Fooled(c, Exec(c, s, run), j)
    decreases j - s.i
  {
    run := TaintedFools(c, s);
    hide Exec, Possible;
    if s.i < j {
      run := Then(c, s, run, Work(false));
      var u := Exec(c, s, run);
      var more := FooledTo(c, u, j);
      run := Join(c, s, run, more);
    }
  }

  /** The failing run of a misleading start: the leftover callback's success is taken
    * for the first command's, and so on, until the opcode changes. */
  lemma {:induction false} Misled(c: Config, s: State) returns (before: seq<Action>, e: Event)
    requires c.Ok() && Start(c, s) && Misleading(c, s)
    ensures Possible(c, s, before) && !Reaches(c, Exec(c, s, before), e)
  {
    var j;
    before, j := FooledFrom(c, s);
    e := GoodReply(c, j);
    StepsKeepBase(c, s, before);
    hide *;
    FooledFails(c, Exec(c, s, before), j);
  }

  lemma {:induction false} FooledFrom(c: Config, s: State) returns (run: seq<Action>, j: nat)
    requires c.Ok() && Start(c, s) && Misleading(c, s)
    ensures j < |c.script| - 1 && c.script[j].opcode != c.script[j + 1].opcode
    ensures Possible(c, s, run) && Fooled(c, Exec(c, s, run), j)
  {
    hide Exec, Possible;
    var k :| c.start <= k < |c.script| && AllDebug(c, c.start, k) && Welcomes(c, s, k) && !Uniform(c, k);
    j :| k <= j < |c.script| - 1 && c.script[j].opcode != c.script[j + 1].opcode;
    hide Config.Ok, Uniform, Misleading, AllDebug;
    run := SkipTo(c, s, k);
    var u := Exec(c, s, run);
    assert Tainted(c, u);
    hide Tainted, Fooled;
    var more := FooledTo(c, u, j);
    run := Join(c, s, run, more);
  }

  /** The reply the worker did not wait for can go to the stack. */
  lemma FooledFails(c: Config, t: State, j: nat)
    requires Base(c, t) && Fooled(c, t, j) && j < |c.script| - 1 && c.script[j].opcode != c.script[j + 1].opcode
    ensures !Reaches(c, t, GoodReply(c, j))
  {
    hide Base, AlwaysBack;
    assert AllDebug(c, j + 1, j + 1);
    ReplyRoutedIff(c, t, GoodReply(c, j));
  }
}
