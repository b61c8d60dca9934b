/**
 * When a TCP fault takes effect: activation by the starter, a byte trigger or a timer races with the end of the flow.
 * Every atomic action on the once guard, the lock, the flags and the event log is a step of its own.
 */
module TcpActivation {
  import opened Flow

  /** Validation allows one trigger per fault; a byte trigger of zero counts as none. */
  datatype Trigger = AtOnce | OnBytes | OnTimer

  datatype Caller = Starter | Counter | Timer

  /** Inside the once guard: waiting for the lock, holding it, then after each of its three effects. */
  datatype Stage = AtLock | Inside | Marked | Stored | Noted

  datatype Once = Fresh | Running(caller: Caller, stage: Stage) | Ran

  /** The serving goroutine; `named`: it saw the fault active when it chose the flow's outcome. */
  datatype Serve =
    | Starting | Forwarding
    | Returned(named: bool) | Stopping(named: bool) | Stopped(named: bool) | Ended(named: bool)

  /** `late` remembers that the fault became active only after the outcome was chosen. */
  datatype State = State(trigger: Trigger, once: Once, serve: Serve, finished: bool, active: bool, applied: bool,
                         late: bool, events: seq<Event>)

  function Init(trigger: Trigger, eligible: bool): State {
    State(trigger, Fresh, Starting, false, false, false, false, [Started, Decided(eligible, true)])
  }

  datatype Step =
    | Activate(caller: Caller)  // enter the once guard; without effect if someone was there first
    | Lock                  // the activation takes the lock
    | Mark                  // it gives up if the flow is finished, else sets the active flag
    | Store                 // it sets the flow's applied flag
    | Note                  // it records fault_applied
    | Unlock                // it releases the lock and leaves the guard
    | Launch                // serve has started the controller and runs both pumps
    | Return                // both pumps are through; serve chooses the outcome
    | StopLock              // stop takes the lock and marks the flow finished
    | StopUnlock
    | Finish                // serve records flow_finished

  predicate LockHeld(s: State) {
    s.serve.Stopping? || (s.once.Running? && s.once.stage != AtLock)
  }

  predicate MayCall(s: State, caller: Caller) {
    match caller
    case Starter => s.trigger == AtOnce && s.serve.Starting?
    case Counter => s.trigger != OnTimer && s.serve.Forwarding?
    case Timer => s.trigger == OnTimer && !s.serve.Starting?
  }

  predicate Enabled(s: State, step: Step) {
    match step
    case Activate(caller) => MayCall(s, caller)
    case Lock => s.once.Running? && s.once.stage == AtLock && !LockHeld(s)
    case Mark => s.once.Running? && s.once.stage == Inside
    case Store => s.once.Running? && s.once.stage == Marked
    case Note => s.once.Running? && s.once.stage == Stored
    case Unlock => s.once.Running? && s.once.stage == Noted
    case Launch => s.serve.Starting? && (s.trigger == AtOnce ==> s.once.Ran?)
    case Return => s.serve.Forwarding? && !(s.once.Running? && s.once.caller == Counter)
    case StopLock => s.serve.Returned? && !LockHeld(s)
    case StopUnlock => s.serve.Stopping?
    case Finish => s.serve.Stopped?
  }

  function Do(s: State, step: Step): State
    requires Enabled(s, step)
  {
    match step
    case Activate(caller) => if s.once.Fresh? then s.(once := Running(caller, AtLock)) else s
    case Lock => s.(once := s.once.(stage := Inside))
    case Mark => if s.finished then s.(once := Ran)
                 else s.(active := true, once := s.once.(stage := Marked), late := s.serve.Returned?)
    case Store => s.(applied := true, once := s.once.(stage := Stored))
    case Note => s.(events := s.events + [Applied], once := s.once.(stage := Noted))
    case Unlock => s.(once := Ran)
    case Launch => s.(serve := Forwarding)
    case Return => s.(serve := Returned(s.active))
    case StopLock => s.(serve := Stopping(s.serve.named), finished := true)
    case StopUnlock => s.(serve := Stopped(s.serve.named))
    case Finish => s.(serve := Ended(s.serve.named),
                      events := s.events
                          + [Finished(s.applied, if s.serve.named then Named("fault action") else Forwarded)])
  }

  /** How far the three effects of an activation have come. */
  predicate Reached(s: State, stage: Stage) {
    match s.once
    case Fresh => false
    case Ran => s.active
    case Running(_, now) => now == Noted || now == stage || (stage == Marked && now == Stored)
  }

  predicate EventsFit(s: State) {
    && |s.events| >= 2 && s.events[0] == Started && s.events[1].Decided? && s.events[1].selected
    && s.events == s.events[..2] + (if Reached(s, Noted) then [Applied] else [])
                   + (if s.serve.Ended?
                      then [Finished(s.applied, if s.serve.named then Named("fault action") else Forwarded)] else [])
  }

  predicate Inv(s: State) {
    && (s.active <==> Reached(s, Marked))
    && (s.applied <==> Reached(s, Stored))
    && EventsFit(s)
    && (s.finished <==> s.serve.Stopping? || s.serve.Stopped? || s.serve.Ended?)
    // while stop holds the lock, or after it, no activation is among its effects
    && (s.finished ==> !(s.once.Running? && s.once.stage in {Marked, Stored, Noted}))
    && (s.serve.Stopping? ==> !(s.once.Running? && s.once.stage != AtLock))
    && (s.once.Running? ==>
          match s.once.caller
          case Starter => s.serve.Starting? && s.trigger == AtOnce
          case Counter => s.serve.Forwarding?
          case Timer => s.trigger == OnTimer)
    && (s.trigger == AtOnce && !s.serve.Starting? ==> s.once.Ran? && s.active)
    && (s.serve.Starting? ==> !s.once.Running? || s.once.caller == Starter)
    && (!s.finished && s.once.Ran? ==> s.active)
    && (s.late ==> s.active && s.trigger == OnTimer)
    && (s.serve.Returned? || s.finished ==> (s.active <==> s.serve.named || s.late) && !(s.serve.named && s.late))
    && (s.serve.Starting? || s.serve.Forwarding? ==> !s.late)
  }

  lemma StepKeeps(s: State, step: Step)
    requires Inv(s) && Enabled(s, step)
    ensures Inv(Do(s, step))
  {
  }

  ghost predicate CanRun(s: State, steps: seq<Step>)
    decreases |steps|
  {
    steps == [] || (Enabled(s, steps[0]) && CanRun(Do(s, steps[0]), steps[1..]))
  }

  ghost function After(s: State, steps: seq<Step>): State
    requires CanRun(s, steps)
    decreases |steps|
  {
    if steps == [] then s else After(Do(s, steps[0]), steps[1..])
  }

  lemma {:induction false} RunKeeps(s: State, steps: seq<Step>)
    requires Inv(s) && CanRun(s, steps)
    ensures Inv(After(s, steps))
    decreases |steps|
  {
    if steps == [] {
    } else {
      StepKeeps(s, steps[0]);
      RunKeeps(Do(s, steps[0]), steps[1..]);
    }
  }

  function Count(es: seq<Event>, e: Event): nat {
    if es == [] then 0 else Count(es[..|es| - 1], e) + if es[|es| - 1] == e then 1 else 0
  }

  lemma {:induction false} CountConcat(a: seq<Event>, b: seq<Event>, e: Event)
    ensures Count(a + b, e) == Count(a, e) + Count(b, e)
  {
    if b == [] {
      assert a + b == a;
    } else {
      CountConcat(a, b[..|b| - 1], e);
      assert (a + b)[..|a + b| - 1] == a + b[..|b| - 1];
    }
  }

  lemma InitInv(trigger: Trigger, eligible: bool)
    ensures Inv(Init(trigger, eligible))
  {
    var s := Init(trigger, eligible);
    assert s.events[..2] == s.events;
  }

  /**
   * In every reachable state the application callback ran at most once; with no activation in progress it has run
   * exactly when the fault is active.
   */
  lemma AppliedAtMostOnce(trigger: Trigger, eligible: bool, steps: seq<Step>)
    requires CanRun(Init(trigger, eligible), steps)
    ensures var s := After(Init(trigger, eligible), steps);
            && Count(s.events, Applied) <= 1
            && (!s.once.Running? ==> (s.active <==> Count(s.events, Applied) == 1) && (s.active <==> s.applied))
  {
    InitInv(trigger, eligible);
    RunKeeps(Init(trigger, eligible), steps);
    AppliedCount(After(Init(trigger, eligible), steps));
  }

  lemma AppliedCount(s: State)
    requires EventsFit(s)
    ensures Count(s.events, Applied) == if Reached(s, Noted) then 1 else 0
  {
    var middle := if Reached(s, Noted) then [Applied] else [];
    var tail := s.events[2 + |middle|..];
    assert s.events == (s.events[..2] + middle) + tail;
    CountConcat(s.events[..2] + middle, tail, Applied);
    CountConcat(s.events[..2], middle, Applied);
    assert Count(s.events[..2], Applied) == 0 by {
      assert s.events[..2] == [s.events[0]] + [s.events[1]];
      CountConcat([s.events[0]], [s.events[1]], Applied);
    }
    assert |tail| <= 1 && (tail != [] ==> tail[0].Finished?);
    assert Count(tail, Applied) == 0 && Count(middle, Applied) == |middle|;
  }

  /** Once stop has returned, nothing a late timer does changes the flags or records an application. */
  lemma {:induction false} QuietAfterStop(s: State, steps: seq<Step>)
    requires Inv(s) && (s.serve.Stopped? || s.serve.Ended?) && CanRun(s, steps)
    ensures var t := After(s, steps);
            && t.active == s.active && t.applied == s.applied
            && (t.events == s.events
                || (s.serve.Stopped? && |t.events| == |s.events| + 1 && t.events[|s.events|].Finished?))
    decreases |steps|
  {
    if steps == [] {
    } else {
      StepKeeps(s, steps[0]);
      QuietAfterStop(Do(s, steps[0]), steps[1..]);
    }
  }

  /**
   * A finished flow's events are one complete flow; the Applied flag it reports is final and equals the active flag.
   */
  lemma FinishedFlow(trigger: Trigger, eligible: bool, steps: seq<Step>)
    requires CanRun(Init(trigger, eligible), steps) && After(Init(trigger, eligible), steps).serve.Ended?
    ensures var s := After(Init(trigger, eligible), steps);
            && PhaseAfter(Closed, s.events) == Closed
            && s.events != [] && s.events[|s.events| - 1].Finished? && s.events[|s.events| - 1].applied == s.active
  {
    InitInv(trigger, eligible);
    RunKeeps(Init(trigger, eligible), steps);
    var s := After(Init(trigger, eligible), steps);
    FlowShape(s.events[1], s.active, s.events[|s.events| - 1]);
    assert s.events == [Started] + [s.events[1]] + (if s.active then [Applied] else []) + [s.events[|s.events| - 1]];
  }

  lemma FlowShape(decided: Event, applied: bool, finished: Event)
    requires decided.Decided? && (applied ==> decided.selected) && finished.Finished? && finished.applied == applied
    ensures PhaseAfter(Closed, [Started] + [decided] + (if applied then [Applied] else []) + [finished]) == Closed
  {
    var middle := if applied then [Applied] else [];
    PhaseConcat(Closed, [Started] + [decided] + middle, [finished]);
    PhaseConcat(Closed, [Started] + [decided], middle);
    PhaseConcat(Closed, [Started], [decided]);
  }

  /** A byte trigger fires through the counting pump only, and while it counts nothing can be finished yet. */
  lemma {:induction false} ByteTriggered(s: State, steps: seq<Step>)
    requires Inv(s) && CanRun(s, steps) && s.trigger == OnBytes && (s.once.Ran? ==> s.active)
    ensures var t := After(s, steps);
            && t.trigger == OnBytes && Inv(t) && (t.once.Ran? ==> t.active)
            && (t.once.Fresh? <==> s.once.Fresh? && Activate(Counter) !in steps)
    decreases |steps|
  {
    if steps == [] {
    } else {
      StepKeeps(s, steps[0]);
      ByteTriggered(Do(s, steps[0]), steps[1..]);
      assert Activate(Counter) in steps <==> steps[0] == Activate(Counter) || Activate(Counter) in steps[1..];
    }
  }

  /** A finished byte-triggered flow reports its fault as applied exactly if a pump reached the trigger. */
  lemma {:induction false} CounterApplies(eligible: bool, steps: seq<Step>)
    requires CanRun(Init(OnBytes, eligible), steps) && After(Init(OnBytes, eligible), steps).serve.Ended?
    ensures var events := After(Init(OnBytes, eligible), steps).events;
            && events != [] && events[|events| - 1].Finished?
            && (events[|events| - 1].applied <==> Activate(Counter) in steps)
  {
    InitInv(OnBytes, eligible);
    ByteTriggered(Init(OnBytes, eligible), steps);
    FinishedFlow(OnBytes, eligible, steps);
  }

  /**
   * The outcome string and the Applied flag: they agree on every run exactly when no timer triggers the fault, because
   * serve chooses the outcome before it stops the controller.  Even then they differ only if activation came in
   * between.
   */
  lemma OutcomeAgrees(trigger: Trigger, eligible: bool, steps: seq<Step>)
    requires CanRun(Init(trigger, eligible), steps) && After(Init(trigger, eligible), steps).serve.Ended?
    ensures var s := After(Init(trigger, eligible), steps);
            && (s.serve.named ==> s.active)
            && (s.active != s.serve.named <==> s.late)
            && (s.late ==> trigger == OnTimer)
  {
    InitInv(trigger, eligible);
    RunKeeps(Init(trigger, eligible), steps);
    TriggerFixed(Init(trigger, eligible), steps);
  }

  lemma {:induction false} TriggerFixed(s: State, steps: seq<Step>)
    requires CanRun(s, steps)
    ensures After(s, steps).trigger == s.trigger
    decreases |steps|
  {
    if steps == [] {
    } else {
      TriggerFixed(Do(s, steps[0]), steps[1..]);
    }
  }

  ghost predicate Leads(s: State, steps: seq<Step>, t: State) {
    CanRun(s, steps) && After(s, steps) == t
  }

  lemma Prepend(s: State, step: Step, steps: seq<Step>, t: State)
    requires Enabled(s, step) && Leads(Do(s, step), steps, t)
    ensures Leads(s, [step] + steps, t)
  {
    assert ([step] + steps)[1..] == steps;
  }

  /** From a returned flow with no activation in progress, stop and finish. */
  lemma StopAndFinish(s: State) returns (steps: seq<Step>, t: State)
    requires s.serve.Returned? && s.once.Ran?
    ensures Leads(s, steps, t) && t.serve == Ended(s.serve.named) && t.applied == s.applied
  {
    var s1 := Do(s, StopLock);
    var s2 := Do(s1, StopUnlock);
    t := Do(s2, Finish);
    Prepend(s2, Finish, [], t);
    Prepend(s1, StopUnlock, [Finish] + [], t);
    Prepend(s, StopLock, [StopUnlock] + ([Finish] + []), t);
    steps := [StopLock] + ([StopUnlock] + ([Finish] + []));
  }

  /** From a returned flow with the activation at the lock, run its effects, then stop and finish. */
  lemma EffectsThenFinish(s: State) returns (steps: seq<Step>, t: State)
    requires s.serve.Returned? && s.once.Running? && s.once.stage == AtLock && !s.finished
    ensures Leads(s, steps, t) && t.serve == Ended(s.serve.named) && t.applied
  {
    var s1 := Do(s, Lock);
    var s2 := Do(s1, Mark);
    var s3 := Do(s2, Store);
    var s4 := Do(s3, Note);
    steps, t := StopAndFinish(Do(s4, Unlock));
    Prepend(s4, Unlock, steps, t);
    steps := [Unlock] + steps;
    Prepend(s3, Note, steps, t);
    steps := [Note] + steps;
    Prepend(s2, Store, steps, t);
    steps := [Store] + steps;
    Prepend(s1, Mark, steps, t);
    steps := [Mark] + steps;
    Prepend(s, Lock, steps, t);
    steps := [Lock] + steps;
  }

  /** A run in which a timer fires between the two: the flow reports an applied fault with the outcome "forwarded". */
  lemma LateTimer(eligible: bool) returns (steps: seq<Step>)
    ensures CanRun(Init(OnTimer, eligible), steps)
    ensures After(Init(OnTimer, eligible), steps).serve == Ended(false) && After(Init(OnTimer, eligible), steps).applied
  {
    var s0 := Init(OnTimer, eligible);
    var s1 := Do(s0, Launch);
    var s2 := Do(s1, Return);
    var t;
    steps, t := EffectsThenFinish(Do(s2, Activate(Timer)));
    Prepend(s2, Activate(Timer), steps, t);
    steps := [Activate(Timer)] + steps;
    Prepend(s1, Return, steps, t);
    steps := [Return] + steps;
    Prepend(s0, Launch, steps, t);
    steps := [Launch] + steps;
  }

  /** A whole call of `activate` when no other step comes in between. */
  ghost function Activated(s: State, caller: Caller): State
    requires MayCall(s, caller) && !s.once.Running? && !s.serve.Stopping?
  {
    if s.once.Ran? then s else
      var marked := Do(Do(Do(s, Activate(caller)), Lock), Mark);
      if marked.once.Ran? then marked else Do(Do(Do(marked, Store), Note), Unlock)
  }

  lemma ActivatedKeeps(s: State, caller: Caller)
    requires Inv(s) && MayCall(s, caller) && !s.once.Running? && !s.serve.Stopping?
    ensures Inv(Activated(s, caller))
  {
    if s.once.Fresh? {
      StepKeeps(s, Activate(caller));
      var entered := Do(s, Activate(caller));
      StepKeeps(entered, Lock);
      StepKeeps(Do(entered, Lock), Mark);
      var marked := Do(Do(entered, Lock), Mark);
      if !marked.once.Ran? {
        StepKeeps(marked, Store);
        StepKeeps(Do(marked, Store), Note);
        StepKeeps(Do(Do(marked, Store), Note), Unlock);
      }
    }
  }

  /** The controller object, used by one goroutine at a time. */
  class Controller {
    const trigger: Trigger
    var ran: bool
    var finished: bool
    var active: bool
    var applied: bool
    var events: seq<Event>
    ghost var serve: Serve
    ghost var late: bool

    ghost function View(): State
      reads this
    {
      State(trigger, if ran then Ran else Fresh, serve, finished, active, applied, late, events)
    }

    constructor (trigger: Trigger, eligible: bool)
      ensures View() == Init(trigger, eligible) && Inv(View())
    {
      this.trigger := trigger;
      ran, finished, active, applied, late := false, false, false, false, false;
      events, serve := [Started, Decided(eligible, true)], Starting;
      new;
      InitInv(trigger, eligible);
    }

    /** Applies the fault unless that was done before or the flow is finished. */
    method Activate(caller: Caller)
      requires Inv(View()) && MayCall(View(), caller) && !serve.Stopping?
      modifies `ran, `active, `applied, `events, `late
      ensures View() == Activated(old(View()), caller) && Inv(View())
      ensures active == applied == (old(active) || (!old(ran) && !finished))
    {
      ActivatedKeeps(View(), caller);
      if ran {
        return;
      }
      ran := true;
      if finished {
        return;
      }
      active, late := true, serve.Returned?;
      applied := true;
      events := events + [Applied];
    }

    /** A fault without a timer and without a positive byte count applies before anything is forwarded. */
    method Start()
      requires Inv(View()) && serve.Starting? && !ran
      modifies this
      ensures View() == if trigger == AtOnce then Do(Activated(old(View()), Starter), Launch)
              else Do(old(View()), Launch)
      ensures Inv(View()) && (active <==> trigger == AtOnce)
    {
      if trigger == AtOnce {
        Activate(Starter);
      }
      StepKeeps(View(), Launch);
      serve := Forwarding;
    }

    method Stop()
      requires Inv(View()) && serve.Returned?
      modifies `finished, `serve
      ensures View() == Do(Do(old(View()), StopLock), StopUnlock) && Inv(View())
    {
      StepKeeps(View(), StopLock);
      StepKeeps(Do(View(), StopLock), StopUnlock);
      finished, serve := true, Stopped(serve.named);
    }
  }
}
