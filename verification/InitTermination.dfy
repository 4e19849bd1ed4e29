/** Termination requests, and which events a callback can get, in every interleaving. */
module InitTermination {
  import opened InitProtocol

  // ----- only completions reach a callback -----

  /** Every event routed to the callback was a Command Complete, and so is one on its way there. */
  ghost predicate Completions(s: State) {
    && |s.log.routes| <= |s.log.received|
    && (forall k :: 0 <= k < |s.log.routes| && s.log.routes[k].ToCallback? ==>
          s.log.received[k].code == HCI_COMMAND_COMPLETE_EVENT)
    && (Looking(s.handler) ==>
          |s.log.received| == |s.log.routes| + 1 && s.log.received[|s.log.routes|] == s.handler.e)
    && (s.handler.Take? || s.handler.Clear? ==> s.handler.e.code == HCI_COMMAND_COMPLETE_EVENT)
  }

  lemma {:induction false} CompletionsKeep(c: Config, s: State, a: Action)
    requires Routed(s) && Completions(s) && Enabled(s, a)
    ensures Completions(Step(c, s, a))
  {
  }

  /** From any start, in every interleaving. */
  lemma {:induction false} OnlyCompletions(c: Config, s: State, run: seq<Action>)
    requires c.Ok() && Start(c, s) && Possible(c, s, run)
    ensures Completions(Exec(c, s, run))
  {
    hide Completions, Step, Base;
    if run == [] {
      NoneYet(c, s);
    } else {
      var t := Exec(c, s, run[..|run| - 1]);
      OnlyCompletions(c, s, run[..|run| - 1]);
      StepsKeepBase(c, s, run[..|run| - 1]);
      BaseRouted(c, t);
      CompletionsKeep(c, t, run[|run| - 1]);
    }
  }

  lemma NoneYet(c: Config, s: State)
    requires Start(c, s)
    ensures Completions(s)
  {
  }

  lemma BaseRouted(c: Config, s: State)
    requires Base(c, s)
    ensures Routed(s)
  {
  }

  // ----- when a termination request stops the worker -----

  /** The worker never gets beyond the entry it is at. */
  ghost predicate Stops(c: Config, t: State) {
    forall run :: Possible(c, t, run) ==> Exec(c, t, run).i == t.i
  }

  /** Where a termination request finds the worker in time: no callback is armed whose
    * verdict could overwrite it, and none will be armed before the worker looks at the status again. */
  ghost predicate InTime(c: Config, t: State) {
    || t.pc == Leave || t.pc == Finished || t.i == |c.script|
    || (t.cb.None? && t.pc != SetOpCode && t.pc != ArmCallback)
  }

  /** The worker is on its way out, or will be when it next looks at the status. */
  ghost predicate Stopping(c: Config, i: nat, s: State) {
    && s.i == i
    && (s.pc == Leave || s.pc == Finished || (s.pc == Guard && i == |c.script|)
        || (s.status == TERMINATE && s.cb.None? && s.handler.Idle? && s.pc != SetOpCode && s.pc != ArmCallback))
  }

  lemma {:induction false} StoppingKeeps(c: Config, i: nat, s: State, a: Action)
    requires Stopping(c, i, s) && Enabled(s, a)
    ensures Stopping(c, i, Step(c, s, a))
  {
  }

  lemma {:induction false} StaysStopping(c: Config, t: State, run: seq<Action>)
    requires Stopping(c, t.i, t) && Possible(c, t, run)
    ensures Stopping(c, t.i, Exec(c, t, run))
  {
    hide Stopping, Step;
    if run != [] {
      StaysStopping(c, t, run[..|run| - 1]);
      StoppingKeeps(c, t.i, Exec(c, t, run[..|run| - 1]), run[|run| - 1]);
    }
  }

  /** With the event thread idle, a termination request stops the worker at its entry in
    * every interleaving - exactly if it comes in time. */
  lemma {:induction false} TerminationHonouredIff(c: Config, t: State)
    requires Base(c, t) && t.status == TERMINATE && t.handler.Idle?
    ensures Stops(c, t) <==> InTime(c, t)
  {
    if InTime(c, t) {
      if t.i == |c.script| {
        EndOfScript(c, t);
      }
      forall run | Possible(c, t, run) ensures Exec(c, t, run).i == t.i {
        StaysStopping(c, t, run);
      }
    } else {
      var run := GoesOn(c, t);
      assert Exec(c, t, run).i == t.i + 1;
    }
  }

  lemma EndOfScript(c: Config, t: State)
    requires Base(c, t) && t.i == |c.script|
    ensures t.pc == Guard || t.pc == Leave || t.pc == Finished
  {
  }

  /** A request that comes too late: a reply takes its place, and the worker goes on. */
  lemma {:induction false} GoesOn(c: Config, t: State) returns (run: seq<Action>)
    requires Base(c, t) && t.status == TERMINATE && t.handler.Idle? && !InTime(c, t)
    ensures Possible(c, t, run) && Exec(c, t, run).i == t.i + 1
  {
    EntryFacts(c, t);
    hide Exec, Possible, Base;
    if t.pc == SetOpCode || t.pc == ArmCallback || t.pc == ArmOpCode || t.pc == Send {
      run := ToWait(c, t);
      var u := Exec(c, t, run);
      var more := Answered(c, u);
      run := Join(c, t, run, more);
    } else if t.pc == Wait || t.pc == Blocked {
      run := Answered(c, t);
    } else {
      run := Overwritten(c, t);
      var u := Exec(c, t, run);
      var more := FromEntry(c, u);
      run := Join(c, t, run, more);
    }
  }

  lemma EntryFacts(c: Config, t: State)
    requires Base(c, t)
    ensures c.Ok() && t.i <= |c.script|
    ensures t.pc == ArmCallback || After(t.pc) ==> t.i < |c.script| && t.wOpCode == c.script[t.i].opcode
    ensures After(t.pc) && t.cb.Some? ==> t.cb.value == c.script[t.i].callback
    ensures After(t.pc) && t.pc != ArmOpCode ==> t.opcode == t.wOpCode
  {
  }

  /** The worker's command is out, with its callback armed. */
  ghost predicate Out(c: Config, u: State) {
    && (u.pc == Wait || u.pc == Blocked) && u.handler.Idle? && u.i < |c.script|
    && u.cb == Some(c.script[u.i].callback) && u.opcode == u.wOpCode == c.script[u.i].opcode
  }

  lemma {:induction false} ToWait(c: Config, t: State) returns (run: seq<Action>)
    requires t.pc == SetOpCode || t.pc == ArmCallback || t.pc == ArmOpCode || t.pc == Send
    requires t.handler.Idle? && t.i < |c.script|
    requires t.pc != SetOpCode ==> t.wOpCode == c.script[t.i].opcode
    requires t.pc == ArmOpCode || t.pc == Send ==> t.cb == Some(c.script[t.i].callback)
    requires t.pc == Send ==> t.opcode == t.wOpCode
    ensures Possible(c, t, run)
    ensures var u := Exec(c, t, run); Out(c, u) && u.i == t.i
    decreases match t.pc case SetOpCode => 3 case ArmCallback => 2 case ArmOpCode => 1 case _ => 0
  {
    hide Exec, Possible;
    NoSteps(c, t);
    run := Then(c, t, [], Work(false));
    if t.pc != Send {
      var more := ToWait(c, Exec(c, t, run));
      run := Join(c, t, run, more);
    }
  }

  /** A good reply to it takes the place of whatever the status was. */
  lemma {:induction false} Answered(c: Config, u: State) returns (run: seq<Action>)
    requires c.Ok() && Out(c, u)
    ensures Possible(c, u, run) && Exec(c, u, run).i == u.i + 1
  {
    JudgedGood(c, u);
    hide Exec, Possible, Judged, ArriveStep, Out, HandleStep, GoodReply, Signalled;
    var v := ArriveStep(u, GoodReply(c, u.i));
    run := Arrived(c, u, GoodReply(c, u.i));
    var more := Handled(c, v);
    run := Join(c, u, run, more);
    if u.pc == Blocked {
      run := Then(c, u, run, Work(false));
    }
    run := Then(c, u, run, Work(false));
  }

  lemma {:induction false} JudgedGood(c: Config, u: State)
    requires c.Ok() && Out(c, u)
    ensures u.i < |c.script| && u.handler.Idle? && (u.pc == Wait || u.pc == Blocked)
    ensures var v := ArriveStep(u, GoodReply(c, u.i));
      && v.handler.Match? && v.cb.Some? && v.handler.e.code == HCI_COMMAND_COMPLETE_EVENT
      && v.handler.e.opcode == v.opcode
      && Judged(v).status == SUCCESS && Judged(v).pc == u.pc && Judged(v).i == u.i
      && (u.pc == Blocked ==> Judged(v).signalled)
  {
  }

  /** The verdict of a leftover callback, whatever it is, takes the place of the request. */
  lemma {:induction false} Overwritten(c: Config, t: State) returns (run: seq<Action>)
    requires t.handler.Idle? && t.cb.Some?
    ensures Possible(c, t, run)
    ensures var u := Exec(c, t, run);
      && u.status != TERMINATE && u.handler.Idle? && u.pc == t.pc && u.i == t.i
  {
    var e := Event(HCI_COMMAND_COMPLETE_EVENT, t.opcode, 0);
    run := Arrived(c, t, e);
    var v := ArriveStep(t, e);
    var more := Handled(c, v);
    hide Exec, Possible;
    run := Join(c, t, run, more);
  }

  lemma {:induction false} FromEntry(c: Config, u: State) returns (run: seq<Action>)
    requires c.Ok() && (u.pc == Guard || u.pc == Alloc || u.pc == SetPending) && u.status != TERMINATE
    requires u.handler.Idle? && u.i < |c.script|
    ensures Possible(c, u, run) && Exec(c, u, run).i == u.i + 1
  {
    hide Exec, Possible;
    NoSteps(c, u);
    run := [];
    if u.pc == Guard {
      run := Then(c, u, run, Work(false));
    }
    if u.pc != SetPending {
      run := Then(c, u, run, Work(true));
    }
    run := Then(c, u, run, Work(false));
    var v := Exec(c, u, run);
    var more := ToWait(c, v);
    run := Join(c, u, run, more);
    v := Exec(c, u, run);
    more := Answered(c, v);
    run := Join(c, u, run, more);
  }

  // ----- the scripts -----

  /** Every script changes its opcode somewhere, from the first entry on, and from the
    * second on where the first may be left out; only one sends an opcode twice in a row. */
  lemma {:induction false} ScriptsVary()
    ensures SCRIPT_6628[1].opcode != SCRIPT_6628[2].opcode && SCRIPT_6630[1].opcode != SCRIPT_6630[2].opcode
    ensures SCRIPT_6632[1].opcode != SCRIPT_6632[2].opcode && SCRIPT_CONSYS[0].opcode != SCRIPT_CONSYS[1].opcode
    ensures forall k :: 0 <= k < |SCRIPT_6628| - 1 && SCRIPT_6628[k].opcode == SCRIPT_6628[k + 1].opcode ==>
      SCRIPT_6628[k].opcode == 0xFCFB
    ensures forall k :: 0 <= k < |SCRIPT_6630| - 1 ==> SCRIPT_6630[k].opcode != SCRIPT_6630[k + 1].opcode
    ensures forall k :: 0 <= k < |SCRIPT_6632| - 1 ==> SCRIPT_6632[k].opcode != SCRIPT_6632[k + 1].opcode
    ensures forall k :: 0 <= k < |SCRIPT_CONSYS| - 1 ==> SCRIPT_CONSYS[k].opcode != SCRIPT_CONSYS[k + 1].opcode
  {
  }
}
