/**
 * Flow accounting: the recorder's active counters against the flows that are really open, over any interleaving of
 * flows.
 */
module Accounting {
  import opened Flow
  import opened Recorder

  /** Each source is a session or connection; it records a stream of complete flows. */
  ghost predicate Complete(streams: seq<seq<Event>>) {
    forall i :: 0 <= i < |streams| ==> PhaseAfter(Closed, streams[i]) == Closed
  }

  /** How far each source is, and what the recorder counted. */
  datatype World = World(at: seq<nat>, counts: Counters)

  function Start(n: nat): World {
    World(seq(n, i => 0), ZERO)
  }

  ghost predicate Good(streams: seq<seq<Event>>, w: World) {
    |w.at| == |streams| && forall i :: 0 <= i < |streams| ==> w.at[i] <= |streams[i]|
  }

  /** A schedule names the source of each recorded event; any source with events left may be next. */
  ghost predicate CanPlay(streams: seq<seq<Event>>, w: World, schedule: seq<nat>)
    requires Good(streams, w)
    decreases |schedule|
  {
    schedule == [] ||
    (schedule[0] < |streams| && w.at[schedule[0]] < |streams[schedule[0]]|
     && CanPlay(streams, Next(streams, w, schedule[0]), schedule[1..]))
  }

  ghost function Next(streams: seq<seq<Event>>, w: World, i: nat): (w': World)
    requires Good(streams, w) && i < |streams| && w.at[i] < |streams[i]|
    ensures Good(streams, w')
  {
    World(w.at[i := w.at[i] + 1], Tally(w.counts, streams[i][w.at[i]]))
  }

  ghost function Play(streams: seq<seq<Event>>, w: World, schedule: seq<nat>): (w': World)
    requires Good(streams, w) && CanPlay(streams, w, schedule)
    ensures Good(streams, w')
    decreases |schedule|
  {
    if schedule == [] then w else Play(streams, Next(streams, w, schedule[0]), schedule[1..])
  }

  /** Where each source stands. */
  ghost function Phases(streams: seq<seq<Event>>, w: World): seq<Phase>
    requires Good(streams, w)
  {
    seq(|streams|, i requires 0 <= i < |streams| => PhaseAfter(Closed, streams[i][..w.at[i]]))
  }

  function Open(p: Phase): nat { if p.Opened? then 1 else 0 }

  function Faulted(p: Phase): nat { if p.Opened? && p.applied then 1 else 0 }

  function Sum(ps: seq<Phase>, f: Phase -> nat): nat {
    if ps == [] then 0 else f(ps[0]) + Sum(ps[1..], f)
  }

  lemma {:induction false} SumUpdate(ps: seq<Phase>, f: Phase -> nat, i: nat, p: Phase)
    requires i < |ps|
    ensures Sum(ps[i := p], f) == Sum(ps, f) - f(ps[i]) + f(p)
  {
    if i == 0 {
      assert ps[i := p][1..] == ps[1..];
    } else {
      SumUpdate(ps[1..], f, i - 1, p);
      assert ps[i := p][1..] == ps[1..][i - 1 := p];
    }
  }

  lemma {:induction false} SumClosed(ps: seq<Phase>, f: Phase -> nat)
    requires f(Closed) == 0 && forall i :: 0 <= i < |ps| ==> ps[i] == Closed
    ensures Sum(ps, f) == 0
  {
    if ps == [] {
    } else {
      SumClosed(ps[1..], f);
    }
  }

  /** A stream that ends closed is never wrong on the way. */
  lemma {:induction false} NeverWrong(es: seq<Event>, n: nat)
    requires PhaseAfter(Closed, es) != Wrong && n <= |es|
    ensures PhaseAfter(Closed, es[..n]) != Wrong
  {
    if n == |es| {
      assert es[..n] == es;
    } else {
      NeverWrong(es[..|es| - 1], n);
      assert es[..|es| - 1][..n] == es[..n];
    }
  }

  /** The counters agree with the sources. */
  ghost predicate Accurate(streams: seq<seq<Event>>, w: World)
    requires Good(streams, w)
  {
    && w.counts.active == Sum(Phases(streams, w), Open)
    && w.counts.activeFaults == Sum(Phases(streams, w), Faulted)
  }

  lemma NextAccurate(streams: seq<seq<Event>>, w: World, i: nat)
    requires Complete(streams) && Good(streams, w) && Accurate(streams, w)
    requires i < |streams| && w.at[i] < |streams[i]|
    ensures Accurate(streams, Next(streams, w, i))
  {
    var n := w.at[i];
    var e := streams[i][n];
    var p := PhaseAfter(Closed, streams[i][..n]);
    assert streams[i][..n + 1] == streams[i][..n] + [e];
    PhaseStep(Closed, streams[i][..n], e);
    NeverWrong(streams[i], n);
    NeverWrong(streams[i], n + 1);
    var ps := Phases(streams, w);
    assert Phases(streams, Next(streams, w, i)) == ps[i := Advance(p, e)];
    SumUpdate(ps, Open, i, Advance(p, e));
    SumUpdate(ps, Faulted, i, Advance(p, e));
  }

  lemma {:induction false} PlayAccurate(streams: seq<seq<Event>>, w: World, schedule: seq<nat>)
    requires Complete(streams) && Good(streams, w) && Accurate(streams, w) && CanPlay(streams, w, schedule)
    ensures Accurate(streams, Play(streams, w, schedule))
    decreases |schedule|
  {
    if schedule == [] {
    } else {
      NextAccurate(streams, w, schedule[0]);
      PlayAccurate(streams, Next(streams, w, schedule[0]), schedule[1..]);
    }
  }

  /**
   * After any part of any interleaving, `Active` is the number of open flows and `ActiveFaults` the number of open
   * flows with an applied fault, so neither can run below zero; both are zero once all sources are through.
   */
  lemma FlowAccounting(streams: seq<seq<Event>>, schedule: seq<nat>)
    requires Complete(streams) && CanPlay(streams, Start(|streams|), schedule)
    ensures var w := Play(streams, Start(|streams|), schedule);
            && Accurate(streams, w)
            && w.counts.active >= w.counts.activeFaults >= 0
            && ((forall i :: 0 <= i < |streams| ==> w.at[i] == |streams[i]|) ==>
                w.counts.active == 0 == w.counts.activeFaults)
  {
    var start := Start(|streams|);
    SumClosed(Phases(streams, start), Open);
    SumClosed(Phases(streams, start), Faulted);
    PlayAccurate(streams, start, schedule);
    var w := Play(streams, start, schedule);
    FaultedIsOpen(Phases(streams, w));
    if forall i :: 0 <= i < |streams| ==> w.at[i] == |streams[i]| {
      forall i | 0 <= i < |streams| ensures streams[i][..w.at[i]] == streams[i] { }
      SumClosed(Phases(streams, w), Open);
      SumClosed(Phases(streams, w), Faulted);
    }
  }

  lemma {:induction false} FaultedIsOpen(ps: seq<Phase>)
    ensures Sum(ps, Faulted) <= Sum(ps, Open)
  {
    if ps == [] {
    } else {
      FaultedIsOpen(ps[1..]);
    }
  }

  /** The events a run of the recorder counted, in the order it took the lock for them. */
  ghost function Counted(steps: seq<Step>): seq<Event> {
    if steps == [] then [] else (if steps[0].Enter? then [steps[0].event] else []) + Counted(steps[1..])
  }

  function TallyAll(c: Counters, es: seq<Event>): Counters
    decreases |es|
  {
    if es == [] then c else TallyAll(Tally(c, es[0]), es[1..])
  }

  /** Counters that queueing does not touch. */
  predicate SameFlows(a: Counters, b: Counters) {
    a.total == b.total && a.eligible == b.eligible && a.selected == b.selected && a.applied == b.applied
    && a.active == b.active && a.activeFaults == b.activeFaults
  }

  /** Queueing, dropping, writing and closing never disturb the run counters: only the recorded events do. */
  lemma {:induction false} RunCounts(s: State, c: Counters, steps: seq<Step>)
    requires CanRun(s, steps) && SameFlows(s.counts, c)
    ensures SameFlows(After(s, steps).counts, TallyAll(c, Counted(steps)))
    decreases |steps|
  {
    if steps == [] {
    } else {
      var e := if steps[0].Enter? then [steps[0].event] else [];
      var c' := if steps[0].Enter? then Tally(c, steps[0].event) else c;
      RunCounts(Do(s, steps[0]), c', steps[1..]);
      if steps[0].Enter? {
        assert Counted(steps)[1..] == Counted(steps[1..]);
      } else {
        assert Counted(steps) == Counted(steps[1..]);
      }
    }
  }

  predicate StartsFlow(e: Event) { e.Started? }

  predicate Eligible(e: Event) { e.Decided? && e.eligible }

  predicate Selected(e: Event) { e.Decided? && e.selected }

  predicate AppliesFault(e: Event) { e.Applied? }

  predicate FinishesFlow(e: Event) { e.Finished? }

  predicate FinishesFaulted(e: Event) { e.Finished? && e.applied }

  function Number(es: seq<Event>, p: Event -> bool): nat {
    if es == [] then 0 else (if p(es[0]) then 1 else 0) + Number(es[1..], p)
  }

  /** What the counters mean: how many events of each kind were counted. */
  lemma {:induction false} TallyNumbers(c: Counters, es: seq<Event>)
    ensures var t := TallyAll(c, es);
            && t.total == c.total + Number(es, StartsFlow)
            && t.eligible == c.eligible + Number(es, Eligible)
            && t.selected == c.selected + Number(es, Selected)
            && t.applied == c.applied + Number(es, AppliesFault)
            && t.active == c.active + Number(es, StartsFlow) - Number(es, FinishesFlow)
            && t.activeFaults == c.activeFaults + Number(es, AppliesFault) - Number(es, FinishesFaulted)
    decreases |es|
  {
    if es == [] {
    } else {
      TallyNumbers(Tally(c, es[0]), es[1..]);
    }
  }

  /** After any run of the recorder its run counters are the numbers of recorded events of each kind. */
  lemma {:induction false} RunNumbers(capacity: nat, steps: seq<Step>)
    requires CanRun(Init(capacity), steps)
    ensures var c, es := After(Init(capacity), steps).counts, Counted(steps);
            && c.total == Number(es, StartsFlow)
            && c.eligible == Number(es, Eligible)
            && c.selected == Number(es, Selected)
            && c.applied == Number(es, AppliesFault)
            && c.active == Number(es, StartsFlow) - Number(es, FinishesFlow)
            && c.activeFaults == Number(es, AppliesFault) - Number(es, FinishesFaulted)
  {
    RunCounts(Init(capacity), ZERO, steps);
    TallyNumbers(ZERO, Counted(steps));
  }

  /** How many of the events finished a flow with outcome `o`. */
  function Endings(es: seq<Event>, o: Outcome): nat {
    if es == [] then 0 else
      Endings(es[..|es| - 1], o) + if es[|es| - 1].Finished? && es[|es| - 1].outcome == o then 1 else 0
  }

  /**
   * The outcome table counts every flow of each outcome it lists; one it does not list never came, or found it full.
   */
  ghost predicate OutcomesFit(m: map<Outcome, nat>, es: seq<Event>) {
    && |m| <= 32
    && (forall o :: o in m ==> m[o] == Endings(es, o))
    && (|m| < 32 ==> forall o :: o !in m ==> Endings(es, o) == 0)
  }

  lemma {:induction false} OutcomeStep(m: map<Outcome, nat>, es: seq<Event>, e: Event)
    requires OutcomesFit(m, es)
    ensures OutcomesFit(TallyOutcome(m, e), es + [e])
  {
    assert (es + [e])[..|es|] == es;
    if e.Finished? {
      assert m[e.outcome := 1].Keys == m.Keys + {e.outcome};
    }
  }

  lemma {:induction false} OneOutcome(s: State, es: seq<Event>, step: Step)
    requires Enabled(s, step) && OutcomesFit(s.outcomes, es)
    ensures OutcomesFit(Do(s, step).outcomes, es + if step.Enter? then [step.event] else [])
  {
    if step.Enter? {
      OutcomeStep(s.outcomes, es, step.event);
    } else {
      assert es + [] == es;
    }
  }

  lemma {:induction false} Associates(a: seq<Event>, b: seq<Event>, c: seq<Event>)
    ensures (a + b) + c == a + (b + c)
  {
  }

  lemma {:induction false} RunOutcomes(s: State, es: seq<Event>, steps: seq<Step>)
    requires CanRun(s, steps) && OutcomesFit(s.outcomes, es)
    ensures OutcomesFit(After(s, steps).outcomes, es + Counted(steps))
    decreases |steps|
  {
    if steps == [] {
      assert es + Counted(steps) == es;
    } else {
      var here := if steps[0].Enter? then [steps[0].event] else [];
      OneOutcome(s, es, steps[0]);
      RunOutcomes(Do(s, steps[0]), es + here, steps[1..]);
      Associates(es, here, Counted(steps[1..]));
    }
  }

  /**
   * After any run each listed outcome has the number of flows that ended with it, and one is missing only from a full
   * table.
   */
  lemma {:induction false} OutcomeNumbers(capacity: nat, steps: seq<Step>)
    requires CanRun(Init(capacity), steps)
    ensures var m, es := After(Init(capacity), steps).outcomes, Counted(steps);
            && |m| <= 32
            && (forall o :: o in m ==> m[o] == Endings(es, o))
            && (|m| < 32 ==> forall o :: o !in m ==> Endings(es, o) == 0)
  {
    RunOutcomes(Init(capacity), [], steps);
    assert [] + Counted(steps) == Counted(steps);
  }

  function Taken(steps: seq<Step>, step: Step): nat {
    if steps == [] then 0 else (if steps[0] == step then 1 else 0) + Taken(steps[1..], step)
  }

  /** The counters of one state, corrected by the step the writer or the lock holder is in the middle of. */
  ghost predicate WritesFit(s: State, good: int, bad: int, entered: int) {
    && s.counts.written + (if s.writer.Encoded? && !s.writer.failed then 1 else 0) == good
    && s.counts.writeErrors + (if s.writer.Encoded? && s.writer.failed then 1 else 0) == bad
    && s.calls + (if s.producer.Outside? then 0 else 1) == entered
  }

  lemma {:induction false} WritesStep(s: State, good: int, bad: int, entered: int, step: Step)
    requires Enabled(s, step) && WritesFit(s, good, bad, entered)
    ensures WritesFit(Do(s, step), good + (if step == Encode(false) then 1 else 0),
                      bad + (if step == Encode(true) then 1 else 0), entered + (if step.Enter? then 1 else 0))
  {
  }

  lemma {:induction false} RunWrites(s: State, good: int, bad: int, entered: int, steps: seq<Step>)
    requires CanRun(s, steps) && WritesFit(s, good, bad, entered)
    ensures WritesFit(After(s, steps), good + Taken(steps, Encode(false)), bad + Taken(steps, Encode(true)),
                      entered + |Counted(steps)|)
    decreases |steps|
  {
    if steps == [] {
    } else {
      WritesStep(s, good, bad, entered, steps[0]);
      RunWrites(Do(s, steps[0]),
                good + (if steps[0] == Encode(false) then 1 else 0), bad + (if steps[0] == Encode(true) then 1 else 0),
                entered + (if steps[0].Enter? then 1 else 0), steps[1..]);
    }
  }

  /**
   * Where every recorded event is after any run, with nobody in the middle of a step: Written counts the events encoded
   * without an error, WriteErrors those with one, and all that were recorded are written, dropped or pending.
   */
  lemma {:induction false} WriteNumbers(capacity: nat, steps: seq<Step>)
    requires CanRun(Init(capacity), steps)
    ensures var s := After(Init(capacity), steps);
            !s.writer.Encoded? && s.producer.Outside? ==>
              && s.counts.written == Taken(steps, Encode(false))
              && s.counts.writeErrors == Taken(steps, Encode(true)) <= s.counts.dropped
              && |Counted(steps)| == s.counts.written + s.counts.dropped + s.counts.pending
  {
    RunWrites(Init(capacity), 0, 0, 0, steps);
    assert Inv(Init(capacity));
    RunKeeps(Init(capacity), steps);
  }

  ghost function Scheduled(streams: seq<seq<Event>>, w: World, schedule: seq<nat>): seq<Event>
    requires Good(streams, w) && CanPlay(streams, w, schedule)
    decreases |schedule|
  {
    if schedule == [] then [] else
      [streams[schedule[0]][w.at[schedule[0]]]] + Scheduled(streams, Next(streams, w, schedule[0]), schedule[1..])
  }

  lemma {:induction false} ScheduledTally(streams: seq<seq<Event>>, w: World, schedule: seq<nat>)
    requires Good(streams, w) && CanPlay(streams, w, schedule)
    ensures Play(streams, w, schedule).counts == TallyAll(w.counts, Scheduled(streams, w, schedule))
    decreases |schedule|
  {
    if schedule == [] {
    } else {
      var w' := Next(streams, w, schedule[0]);
      ScheduledTally(streams, w', schedule[1..]);
      assert Scheduled(streams, w, schedule)[1..] == Scheduled(streams, w', schedule[1..]);
    }
  }

  /** The two together: whatever the queue and the writer do, the recorder's counters are those of the open flows. */
  lemma RecorderAccounting(capacity: nat, steps: seq<Step>, streams: seq<seq<Event>>, schedule: seq<nat>)
    requires CanRun(Init(capacity), steps)
    requires Complete(streams) && CanPlay(streams, Start(|streams|), schedule)
    requires Counted(steps) == Scheduled(streams, Start(|streams|), schedule)
    ensures var counts := After(Init(capacity), steps).counts;
            var phases := Phases(streams, Play(streams, Start(|streams|), schedule));
            && counts.active == Sum(phases, Open)
            && counts.activeFaults == Sum(phases, Faulted)
  {
    RunCounts(Init(capacity), ZERO, steps);
    ScheduledTally(streams, Start(|streams|), schedule);
    FlowAccounting(streams, schedule);
  }
}
