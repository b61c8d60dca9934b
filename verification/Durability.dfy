/**
 * The managed instance on its machine: publication through the store, with the process killed or the machine losing
 * power between any two steps.
 */
module Durability {
  import opened Bytes
  import opened History
  import opened Config
  import opened Control
  import opened Store

  /**
   * Why a save runs: an audit entry, or an apply that publishes `next` once `text`, the encoding of `document`, is
   * stored.
   */
  datatype Purpose = ForAudit | ForApply(next: Snapshot, document: Document, text: string)

  /** How far the temporary file is. */
  datatype Stage = Created | Written | Flushed

  /** A save under way: before its rename, or after it and before the directory sync. */
  datatype Saving =
    | Idle
    | Preparing(state: Stored, purpose: Purpose, stage: Stage)
    | InPlace(state: Stored, purpose: Purpose)

  /** A running instance; `applied` is the document and text of the latest stored apply of this process. */
  datatype Process =
    | Down
    | Up(active: Snapshot, state: Stored, poisoned: bool, saving: Saving, applied: Option<(Document, string)>)

  /**
   * `saves` are the states a save was ever begun for, the bootstrap first; `acknowledged` is the latest of them whose
   * caller was told of success.  `ledger` holds the revision and text of the bootstrap and of every apply ever begun.
   */
  datatype Host = Host(disk: Disk, process: Process, saves: seq<Stored>, acknowledged: nat, ledger: seq<(nat, string)>)

  datatype Step =
    | Launch(document: Document)                  // the process starts on the visible state and publishes it
    | BeginAudit(entry: Audit)
    | BeginApply(document: Document, expected: nat, actor: string, text: string)
    | WriteFile
    | SyncFile
    | FailBeforeRename
    | Rename
    | FailAfterRename
    | Confirm                                     // the directory sync succeeds; the save returns and publishes
    | Switch(enabled: bool)
    | Kill
    | PowerLoss(kept: nat)                        // the machine comes back with one of the possible versions

  /** The snapshot an apply will publish, if it is not refused. */
  function Target(active: Snapshot, document: Document, expected: nat): Option<Snapshot> {
    match PlanOf(active, document, Some(expected))
    case Refuse(_) => None
    case Keep => Some(active)
    case Publish(info) => Some(Snapshot(info, document, active.engine + 1))
  }

  predicate Ready(p: Process) {
    p.Up? && p.saving.Idle? && !p.poisoned
  }

  predicate At(p: Process, stage: Stage) {
    p.Up? && p.saving.Preparing? && p.saving.stage == stage
  }

  predicate Enabled(h: Host, step: Step) {
    var p := h.process;
    match step
    case Launch(_) => p.Down? && h.disk.versions != []
    case BeginAudit(_) => Ready(p)
    case BeginApply(document, expected, _, _) => Ready(p) && Target(p.active, document, expected).Some?
    case WriteFile => At(p, Created)
    case SyncFile => At(p, Written)
    case FailBeforeRename => p.Up? && p.saving.Preparing?
    case Rename => At(p, Flushed)
    case FailAfterRename => p.Up? && p.saving.InPlace?
    case Confirm => p.Up? && p.saving.InPlace? && h.disk.versions != [] && h.saves != []
    case Switch(_) => Ready(p)
    case Kill => p.Up?
    case PowerLoss(kept) => h.disk.confirmed <= kept < |h.disk.versions|
  }

  function ApplyState(state: Stored, actor: string, text: string, revision: nat): Stored {
    AppendAudit(state, Audit(actor, "apply", "ok", revision)).(config := text, revision := revision)
  }

  function Begin(h: Host, state: Stored, purpose: Purpose): Host
    requires h.process.Up?
  {
    h.(process := h.process.(saving := Preparing(state, purpose, Created)), saves := h.saves + [state])
  }

  function Do(h: Host, step: Step): Host
    requires Enabled(h, step)
  {
    var p := h.process;
    match step
    case Launch(document) =>
      var state := Visible(h.disk);
      h.(process := Up(Snapshot(Info(state.revision, false, 0), document, 0), state, false, Idle, None))
    case BeginAudit(entry) => Begin(h, AppendAudit(p.state, entry), ForAudit)
    case BeginApply(document, expected, actor, text) =>
      var next := Target(p.active, document, expected).value;
      Begin(h, ApplyState(p.state, actor, text, next.info.revision), ForApply(next, document, text))
      .(ledger := h.ledger + [(next.info.revision, text)])
    case WriteFile => h.(process := p.(saving := p.saving.(stage := Written)))
    case SyncFile => h.(process := p.(saving := p.saving.(stage := Flushed)))
    case FailBeforeRename => h.(process := p.(saving := Idle))
    case Rename => h.(disk := Renamed(h.disk, Version(p.saving.state, p.saving.stage == Flushed)),
                      process := p.(saving := InPlace(p.saving.state, p.saving.purpose)))
    case FailAfterRename => h.(process := p.(saving := Idle, poisoned := true))
    case Confirm =>
      var up := p.(state := p.saving.state, saving := Idle);
      h.(disk := Synced(h.disk),
         process := match p.saving.purpose
                    case ForAudit => up
                    case ForApply(next, document, text) => up.(active := next, applied := Some((document, text))),
         acknowledged := |h.saves| - 1)
    case Switch(enabled) => h.(process := p.(active := Control.Step(p.active, 0, Toggle(enabled)).0))
    case Kill => h.(process := Down)
    case PowerLoss(kept) => h.(disk := Crashed(h.disk, kept), process := Down)
  }

  /** The acknowledged save or one begun after it. */
  ghost predicate SavedSince(h: Host, s: Stored) {
    exists k :: h.acknowledged <= k < |h.saves| && h.saves[k] == s
  }

  predicate InLedger(ledger: seq<(nat, string)>, s: Stored) {
    (s.revision, s.config) in ledger
  }

  /**
   * Everything a crash may leave was saved, not before the acknowledged save, under a revision and text of the ledger.
   */
  ghost predicate LedgerInv(h: Host) {
    && h.acknowledged < |h.saves|
    && (forall k :: 0 <= k < |h.saves| ==> InLedger(h.ledger, h.saves[k]))
    && (forall i :: h.disk.confirmed <= i < |h.disk.versions| ==> SavedSince(h, h.disk.versions[i].state))
    && (h.process.Up? && !h.process.saving.Idle? ==> h.process.saving.state == h.saves[|h.saves| - 1])
  }

  function Acknowledged(h: Host): nat
    requires h.acknowledged < |h.saves|
  {
    h.saves[h.acknowledged].revision
  }

  /** Possible versions are whole and in the order of their revisions, none older than what was acknowledged. */
  ghost predicate DiskInv(h: Host)
    requires h.acknowledged < |h.saves|
  {
    var d := h.disk;
    && ValidDisk(d)
    && (forall i, j :: d.confirmed <= i <= j < |d.versions| ==>
        d.versions[i].state.revision <= d.versions[j].state.revision)
    && Acknowledged(h) <= d.versions[d.confirmed].state.revision
  }

  /** The new version is in place but the process still stands on the one before it. */
  ghost predicate OneAhead(d: Disk, state: Stored) {
    && d.confirmed + 2 <= |d.versions|
    && d.versions[|d.versions| - 2].state == state
    && state.revision <= Visible(d).revision <= state.revision + 1
  }

  /** What a save under way is going to leave behind. */
  ghost predicate SavingInv(p: Process)
    requires p.Up?
  {
    match p.saving
    case Idle => true
    case _ =>
      match p.saving.purpose
      case ForAudit => p.saving.state.revision == p.state.revision && p.saving.state.config == p.state.config
      case ForApply(next, document, text) =>
        && next.info.revision == p.saving.state.revision
        && p.state.revision <= next.info.revision <= p.state.revision + 1
        && p.saving.state.config == text && Equal(next.document, document)
  }

  ghost predicate ProcessInv(d: Disk, p: Process)
    requires p.Up? && ValidDisk(d)
  {
    && p.active.info.revision == p.state.revision
    && (p.applied.Some? ==> p.state.config == p.applied.value.1 && Equal(p.active.document, p.applied.value.0))
    && SavingInv(p)
    && (p.poisoned ==> p.saving.Idle?)
    && (p.poisoned || p.saving.InPlace? ==> OneAhead(d, p.state))
    && (!p.poisoned && !p.saving.InPlace? ==> Visible(d) == p.state)
    && (p.saving.InPlace? ==> Visible(d) == p.saving.state)
  }

  ghost predicate Inv(h: Host) {
    LedgerInv(h) && DiskInv(h) && (h.process.Up? ==> ProcessInv(h.disk, h.process))
  }

  lemma VisibleSaved(h: Host)
    requires LedgerInv(h) && ValidDisk(h.disk)
    ensures SavedSince(h, Visible(h.disk)) && InLedger(h.ledger, Visible(h.disk))
  {
    assert SavedSince(h, h.disk.versions[|h.disk.versions| - 1].state);
  }

  lemma BeginKeepsLedger(h: Host, state: Stored, purpose: Purpose, ledger: seq<(nat, string)>)
    requires LedgerInv(h) && h.process.Up? && h.ledger <= ledger && InLedger(ledger, state)
    ensures LedgerInv(Begin(h, state, purpose).(ledger := ledger))
  {
    var h' := Begin(h, state, purpose).(ledger := ledger);
    forall i | h.disk.confirmed <= i < |h.disk.versions|
      ensures SavedSince(h', h'.disk.versions[i].state)
    {
      var k :| h.acknowledged <= k < |h.saves| && h.saves[k] == h.disk.versions[i].state;
      assert h'.saves[k] == h.saves[k];
    }
  }

  lemma RenameKeepsLedger(h: Host)
    requires LedgerInv(h) && Enabled(h, Rename)
    ensures LedgerInv(Do(h, Rename))
  {
    var h' := Do(h, Rename);
    assert h'.saves[|h'.saves| - 1] == h.process.saving.state;
    forall i | h'.disk.confirmed <= i < |h'.disk.versions|
      ensures SavedSince(h', h'.disk.versions[i].state)
    {
      if i < |h.disk.versions| {
        assert SavedSince(h, h.disk.versions[i].state);
      }
    }
  }

  /** Steps that touch neither the disk nor the saves. */
  lemma ProcessKeepsLedger(h: Host, p: Process)
    requires LedgerInv(h) && (p.Up? && !p.saving.Idle? ==> p.saving.state == h.saves[|h.saves| - 1])
    ensures LedgerInv(h.(process := p))
  {
    forall i | h.disk.confirmed <= i < |h.disk.versions|
      ensures SavedSince(h.(process := p), h.disk.versions[i].state)
    {
      assert SavedSince(h, h.disk.versions[i].state);
    }
  }

  lemma PowerLossKeepsLedger(h: Host, kept: nat)
    requires LedgerInv(h) && Enabled(h, PowerLoss(kept))
    ensures LedgerInv(Do(h, PowerLoss(kept)))
  {
    assert SavedSince(h, h.disk.versions[kept].state);
  }

  lemma ConfirmKeepsLedger(h: Host)
    requires LedgerInv(h) && Enabled(h, Confirm) && h.process.saving.state == Visible(h.disk)
    ensures LedgerInv(Do(h, Confirm))
  {
    assert Do(h, Confirm).saves[|h.saves| - 1] == Visible(h.disk);
  }

  lemma LedgerKeeps(h: Host, step: Step)
    requires Inv(h) && Enabled(h, step)
    ensures LedgerInv(Do(h, step))
  {
    var p := h.process;
    match step {
      case BeginAudit(entry) =>
        VisibleSaved(h);
        BeginKeepsLedger(h, AppendAudit(p.state, entry), ForAudit, h.ledger);
      case BeginApply(document, expected, actor, text) =>
        var next := Target(p.active, document, expected).value;
        BeginKeepsLedger(h, ApplyState(p.state, actor, text, next.info.revision), ForApply(next, document, text),
                         h.ledger + [(next.info.revision, text)]);
      case Rename => RenameKeepsLedger(h);
      case PowerLoss(kept) => PowerLossKeepsLedger(h, kept);
      case Confirm => ConfirmKeepsLedger(h);
      case _ => ProcessKeepsLedger(h, Do(h, step).process);
    }
  }

  lemma RenameKeeps(h: Host)
    requires Inv(h) && Enabled(h, Rename)
    ensures DiskInv(Do(h, Rename)) && ProcessInv(Do(h, Rename).disk, Do(h, Rename).process)
  {
    var d, d' := h.disk, Do(h, Rename).disk;
    assert d'.versions[|d'.versions| - 2] == d.versions[|d.versions| - 1];
    forall i, j | d'.confirmed <= i <= j < |d'.versions|
      ensures d'.versions[i].state.revision <= d'.versions[j].state.revision
    {
      if j == |d'.versions| - 1 && i < j {
        assert d'.versions[i] == d.versions[i];
        assert d.versions[i].state.revision <= d.versions[|d.versions| - 1].state.revision;
      }
    }
  }

  lemma PowerLossKeeps(h: Host, kept: nat)
    requires Inv(h) && Enabled(h, PowerLoss(kept))
    ensures DiskInv(Do(h, PowerLoss(kept)))
  {
    var d := h.disk;
    assert d.versions[d.confirmed].state.revision <= d.versions[kept].state.revision;
  }

  lemma BeginKeeps(h: Host, step: Step)
    requires Inv(h) && Enabled(h, step) && (step.BeginAudit? || step.BeginApply?)
    ensures ProcessInv(h.disk, Do(h, step).process)
  {
  }

  lemma ConfirmKeeps(h: Host)
    requires Inv(h) && Enabled(h, Confirm) && Do(h, Confirm).acknowledged < |Do(h, Confirm).saves|
    ensures DiskInv(Do(h, Confirm)) && ProcessInv(Do(h, Confirm).disk, Do(h, Confirm).process)
  {
  }

  lemma DiskKeeps(h: Host, step: Step)
    requires Inv(h) && Enabled(h, step) && Do(h, step).acknowledged < |Do(h, step).saves|
    ensures DiskInv(Do(h, step)) && (Do(h, step).process.Up? ==> ProcessInv(Do(h, step).disk, Do(h, step).process))
  {
    match step {
      case Rename => RenameKeeps(h);
      case PowerLoss(kept) => PowerLossKeeps(h, kept);
      case Confirm => ConfirmKeeps(h);
      case BeginAudit(_) => BeginKeeps(h, step);
      case BeginApply(_, _, _, _) => BeginKeeps(h, step);
      case _ =>
    }
  }

  lemma StepKeeps(h: Host, step: Step)
    requires Inv(h) && Enabled(h, step)
    ensures Inv(Do(h, step))
  {
    LedgerKeeps(h, step);
    DiskKeeps(h, step);
  }

  // Runs, built step by step at their end.

  ghost predicate CanRun(h: Host, steps: seq<Step>)
    decreases |steps|, 0
  {
    steps == [] || (CanRun(h, steps[..|steps| - 1]) && Enabled(After(h, steps[..|steps| - 1]), steps[|steps| - 1]))
  }

  ghost function After(h: Host, steps: seq<Step>): Host
    requires CanRun(h, steps)
    decreases |steps|, 1
  {
    if steps == [] then h else Do(After(h, steps[..|steps| - 1]), steps[|steps| - 1])
  }

  /** A started process stands on the file, with injection off until someone switches it on. */
  lemma {:induction false} LaunchState(h: Host, document: Document)
    requires Enabled(h, Launch(document))
    ensures var p := Do(h, Launch(document)).process;
            && p.Up? && p.state == Visible(h.disk) && p.active.document == document && p.saving.Idle? && !p.poisoned
            && p.active.info == Info(Visible(h.disk).revision, false, 0)
            && Do(h, Launch(document)).disk == h.disk
  {
  }

  lemma {:induction false} RunKeeps(h: Host, steps: seq<Step>)
    requires Inv(h) && CanRun(h, steps)
    ensures Inv(After(h, steps))
  {
    if steps == [] {
    } else {
      RunKeeps(h, steps[..|steps| - 1]);
      StepKeeps(After(h, steps[..|steps| - 1]), steps[|steps| - 1]);
    }
  }

  /** Nothing acknowledged is ever taken back, and nothing saved or applied is ever forgotten. */
  ghost predicate Grows(a: Host, b: Host) {
    && a.acknowledged <= b.acknowledged && a.acknowledged < |a.saves| && b.acknowledged < |b.saves|
    && Acknowledged(a) <= Acknowledged(b) && a.saves <= b.saves && a.ledger <= b.ledger
  }

  lemma StepGrows(h: Host, step: Step)
    requires Inv(h) && Enabled(h, step)
    ensures Grows(h, Do(h, step))
  {
    if step.Confirm? {
      var d := h.disk;
      assert d.versions[d.confirmed].state.revision <= d.versions[|d.versions| - 1].state.revision;
    }
  }

  lemma {:induction false} RunGrows(h: Host, steps: seq<Step>, n: nat)
    requires Inv(h) && CanRun(h, steps) && n <= |steps|
    ensures CanRun(h, steps[..n]) && Inv(After(h, steps[..n])) && Grows(After(h, steps[..n]), After(h, steps))
  {
    RunKeeps(h, steps);
    if n == |steps| {
      assert steps[..n] == steps;
    } else {
      var before := steps[..|steps| - 1];
      RunGrows(h, before, n);
      assert before[..n] == steps[..n];
      RunKeeps(h, before);
      StepGrows(After(h, before), steps[|steps| - 1]);
    }
  }

  /** A freshly bootstrapped instance. */
  function Bootstrapped(config: string, entry: Audit): Host {
    var state := Stored(1, config, [entry]);
    Host(Disk([Version(state, true)], 0), Down, [state], 0, [(1, config)])
  }

  lemma BootstrapInv(config: string, entry: Audit)
    ensures Inv(Bootstrapped(config, entry))
  {
    var h := Bootstrapped(config, entry);
    assert h.saves[0] == h.disk.versions[0].state;
    assert h.ledger[0] == (1, config);
  }

  /**
   * Managed durability.  Power lost at any moment of any run leaves one whole state that was saved: the last one
   * acknowledged, or one whose save began after it.  Its revision and text are those of the bootstrap or of one apply,
   * and its revision is at most one past the published one.  What was acknowledged at an earlier moment still counts.
   * Outside a save an unpoisoned store holds the published revision, with the text of the document last applied.
   */
  lemma ManagedDurability(config: string, entry: Audit, steps: seq<Step>, n: nat, recovered: Stored)
    requires CanRun(Bootstrapped(config, entry), steps) && n <= |steps|
    requires MayRecover(After(Bootstrapped(config, entry), steps).disk, recovered)
    ensures var start := Bootstrapped(config, entry);
            var h := After(start, steps);
            && CanRun(start, steps[..n])
            && Grows(After(start, steps[..n]), h)
            && SavedSince(h, recovered) && InLedger(h.ledger, recovered)
            && Acknowledged(h) <= recovered.revision
            && (exists i :: h.disk.confirmed <= i < |h.disk.versions| && h.disk.versions[i] == Version(recovered, true))
            && (h.process.Up? ==>
                  && recovered.revision <= h.process.active.info.revision + 1
                  && (h.process.saving.Idle? && !h.process.poisoned ==>
                        && Visible(h.disk) == h.process.state
                           && h.process.state.revision == h.process.active.info.revision
                        && (h.process.applied.Some? ==>
                              Visible(h.disk).config == h.process.applied.value.1
                              && Equal(h.process.active.document, h.process.applied.value.0))))
  {
    var start := Bootstrapped(config, entry);
    BootstrapInv(config, entry);
    RunKeeps(start, steps);
    RunGrows(start, steps, n);
    Recoverable(After(start, steps), recovered);
  }

  lemma Recoverable(h: Host, recovered: Stored)
    requires Inv(h) && MayRecover(h.disk, recovered)
    ensures SavedSince(h, recovered) && InLedger(h.ledger, recovered)
    ensures Acknowledged(h) <= recovered.revision <= Visible(h.disk).revision
    ensures exists i :: h.disk.confirmed <= i < |h.disk.versions| && h.disk.versions[i] == Version(recovered, true)
    ensures h.process.Up? ==> recovered.revision <= h.process.active.info.revision + 1
  {
    var d := h.disk;
    var i :| d.confirmed <= i < |d.versions| && d.versions[i].state == recovered;
    assert d.versions[d.confirmed].state.revision <= d.versions[i].state.revision;
    assert d.versions[i].state.revision <= d.versions[|d.versions| - 1].state.revision;
    assert d.versions[i] == Version(recovered, true);
  }

  /** One step of a run and the host it was taken on. */
  datatype Entry = Entry(before: Host, step: Step)

  ghost function Trace(h: Host, steps: seq<Step>): (t: seq<Entry>)
    requires CanRun(h, steps)
    ensures |t| == |steps|
    decreases |steps|
  {
    if steps == [] then [] else
      Trace(h, steps[..|steps| - 1]) + [Entry(After(h, steps[..|steps| - 1]), steps[|steps| - 1])]
  }

  /** A rename that gives the file a higher revision. */
  predicate Raises(e: Entry) {
    e.step.Rename? && At(e.before.process, Flushed)
        && e.before.process.saving.state.revision > e.before.process.state.revision
  }

  /** What makes the file's name certain: a directory sync, or power coming back. */
  predicate Secures(e: Entry) {
    e.step.Confirm? || e.step.PowerLoss?
  }

  ghost predicate ExposedBy(t: seq<Entry>, i: nat, j: nat) {
    i < j < |t| && Raises(t[i]) && t[j].step.Launch? && forall k :: i < k < |t| ==> !Secures(t[k])
  }

  /**
   * A rename that raised the revision was followed by a start of the process, and by no directory sync or power loss.
   */
  ghost predicate Exposed(t: seq<Entry>) {
    exists i: nat, j: nat :: ExposedBy(t, i, j)
  }

  lemma ExposedIsHeld(t: seq<Entry>)
    requires Exposed(t)
    ensures Held(t, Raises, Secures)
  {
    var i: nat, j: nat :| ExposedBy(t, i, j);
    assert HeldFrom(t, i, Raises, Secures);
  }

  lemma ExposedStep(t: seq<Entry>, e: Entry)
    ensures Exposed(t + [e]) <==> !Secures(e) && (Exposed(t) || (e.step.Launch? && Held(t, Raises, Secures)))
  {
    var all := t + [e];
    assert all[|t|] == e;
    assert forall k :: 0 <= k < |t| ==> all[k] == t[k];
    if i: nat, j: nat :| ExposedBy(all, i, j) {
      if j < |t| {
        assert ExposedBy(t, i, j);
      } else {
        assert HeldFrom(t, i, Raises, Secures);
      }
    }
    if !Secures(e) {
      if i: nat, j: nat :| ExposedBy(t, i, j) {
        assert ExposedBy(all, i, j);
      }
      if i: nat :| e.step.Launch? && HeldFrom(t, i, Raises, Secures) {
        assert ExposedBy(all, i, |t|);
      }
    }
  }

  /** The oldest and the newest revision power loss may leave. */
  function Oldest(h: Host): nat
    requires h.disk.confirmed < |h.disk.versions|
  {
    h.disk.versions[h.disk.confirmed].state.revision
  }

  function Newest(h: Host): nat
    requires h.disk.versions != []
  {
    Visible(h.disk).revision
  }

  lemma RevisionOrder(h: Host)
    requires Inv(h)
    ensures Acknowledged(h) <= Oldest(h) <= Newest(h)
    ensures forall i :: h.disk.confirmed <= i < |h.disk.versions| ==> h.disk.versions[i].state.revision <= Newest(h)
  {
  }

  lemma OldestMoves(h: Host, step: Step)
    requires Inv(h) && Enabled(h, step) && Inv(Do(h, step))
    ensures Acknowledged(Do(h, step)) == if step.Confirm? then Newest(h) else Acknowledged(h)
    ensures Oldest(Do(h, step)) == match step
                                   case Confirm => Newest(h)
                                   case PowerLoss(kept) => h.disk.versions[kept].state.revision
                                   case _ => Oldest(h)
  {
  }

  lemma NewestMoves(h: Host, step: Step)
    requires Inv(h) && Enabled(h, step) && Inv(Do(h, step))
    ensures Newest(Do(h, step)) == match step
                                   case Rename => h.process.saving.state.revision
                                   case PowerLoss(kept) => h.disk.versions[kept].state.revision
                                   case _ => Newest(h)
    ensures var p := h.process;
            step.Rename? ==>
                p.active.info.revision == p.state.revision == Newest(h) <= p.saving.state.revision <= Newest(h) + 1
  {
  }

  lemma PublishedMoves(h: Host, step: Step)
    requires Inv(h) && Enabled(h, step) && Do(h, step).process.Up?
    ensures Do(h, step).process.active.info.revision
            == if step.Launch? || step.Confirm? then Newest(h) else h.process.active.info.revision
  {
  }

  ghost predicate Uncertain(h: Host)
    requires Inv(h)
  {
    Oldest(h) < Newest(h)
  }

  /** A power loss may leave an older revision than the published one. */
  ghost predicate MayLose(h: Host)
    requires Inv(h) && h.process.Up?
  {
    Oldest(h) < h.process.active.info.revision
  }

  ghost predicate ExposureFits(h: Host, t: seq<Entry>)
    requires Inv(h)
  {
    (Held(t, Raises, Secures) <==> Uncertain(h)) && (h.process.Up? ==> (Exposed(t) <==> MayLose(h)))
  }

  lemma ExposureKept(h: Host, step: Step, t: seq<Entry>)
    requires Inv(h) && Enabled(h, step) && Inv(Do(h, step)) && ExposureFits(h, t)
    ensures ExposureFits(Do(h, step), t + [Entry(h, step)])
  {
    var e := Entry(h, step);
    HeldStep(t, e, Raises, Secures);
    ExposedStep(t, e);
    if Exposed(t) {
      ExposedIsHeld(t);
    }
    RevisionOrder(h);
    OldestMoves(h, step);
    NewestMoves(h, step);
    if Do(h, step).process.Up? {
      PublishedMoves(h, step);
    }
  }

  lemma {:induction false} RunExposure(config: string, entry: Audit, steps: seq<Step>)
    requires CanRun(Bootstrapped(config, entry), steps)
    ensures var h := After(Bootstrapped(config, entry), steps);
            Inv(h) && ExposureFits(h, Trace(Bootstrapped(config, entry), steps))
    decreases |steps|
  {
    var start := Bootstrapped(config, entry);
    BootstrapInv(config, entry);
    RunKeeps(start, steps);
    if steps == [] {
    } else {
      var before := steps[..|steps| - 1];
      RunExposure(config, entry, before);
      ExposureKept(After(start, before), steps[|steps| - 1], Trace(start, before));
    }
  }

  lemma OldestIsLeast(h: Host, bound: nat)
    requires Inv(h)
    ensures (exists s :: MayRecover(h.disk, s) && s.revision < bound) <==> Oldest(h) < bound
  {
    var d := h.disk;
    assert MayRecover(d, d.versions[d.confirmed].state);
    forall s | MayRecover(d, s)
      ensures d.versions[d.confirmed].state.revision <= s.revision
    {
      var i :| d.confirmed <= i < |d.versions| && d.versions[i].state == s;
      assert d.versions[d.confirmed].state.revision <= d.versions[i].state.revision;
    }
  }

  /**
   * Power loss can take back the published revision exactly when a rename that raised the revision was followed by a
   * start of the process with no directory sync and no power loss since that rename.
   */
  lemma PublishedMayBeLost(config: string, entry: Audit, steps: seq<Step>)
    requires CanRun(Bootstrapped(config, entry), steps) && After(Bootstrapped(config, entry), steps).process.Up?
    ensures var h := After(Bootstrapped(config, entry), steps);
            (exists s :: MayRecover(h.disk, s) && s.revision < h.process.active.info.revision)
            <==> Exposed(Trace(Bootstrapped(config, entry), steps))
  {
    RunExposure(config, entry, steps);
    var h := After(Bootstrapped(config, entry), steps);
    OldestIsLeast(h, h.process.active.info.revision);
  }

  /** A rename that raises the revision while the published one is not acknowledged yet. */
  predicate Overtakes(e: Entry) {
    Raises(e) && e.before.acknowledged < |e.before.saves|
        && e.before.process.active.info.revision > Acknowledged(e.before)
  }

  /**
   * What ends the lead of the file: a directory sync, or power coming back with at most one revision past the
   * acknowledged one.
   */
  predicate Rejoins(e: Entry) {
    e.step.Confirm?
    || (e.step.PowerLoss? && e.before.acknowledged < |e.before.saves| && e.step.kept < |e.before.disk.versions|
        && e.before.disk.versions[e.step.kept].state.revision <= Acknowledged(e.before) + 1)
  }

  ghost predicate LeadFits(h: Host, t: seq<Entry>)
    requires Inv(h)
  {
    Held(t, Overtakes, Rejoins) <==> Newest(h) > Acknowledged(h) + 1
  }

  lemma LeadKept(h: Host, step: Step, t: seq<Entry>)
    requires Inv(h) && Enabled(h, step) && Inv(Do(h, step)) && LeadFits(h, t)
    ensures LeadFits(Do(h, step), t + [Entry(h, step)])
  {
    HeldStep(t, Entry(h, step), Overtakes, Rejoins);
    RevisionOrder(h);
    OldestMoves(h, step);
    NewestMoves(h, step);
  }

  lemma {:induction false} RunLead(config: string, entry: Audit, steps: seq<Step>)
    requires CanRun(Bootstrapped(config, entry), steps)
    ensures var h := After(Bootstrapped(config, entry), steps);
            Inv(h) && LeadFits(h, Trace(Bootstrapped(config, entry), steps))
    decreases |steps|
  {
    var start := Bootstrapped(config, entry);
    BootstrapInv(config, entry);
    RunKeeps(start, steps);
    if steps == [] {
    } else {
      var before := steps[..|steps| - 1];
      RunLead(config, entry, before);
      LeadKept(After(start, before), steps[|steps| - 1], Trace(start, before));
    }
  }

  /**
   * Power loss can leave more than one revision past the acknowledged one exactly when a changing apply was renamed
   * while the published revision was not acknowledged, with no directory sync since and no power loss that came back
   * with less.
   */
  lemma AheadOfAcknowledged(config: string, entry: Audit, steps: seq<Step>)
    requires CanRun(Bootstrapped(config, entry), steps)
    ensures var h := After(Bootstrapped(config, entry), steps);
            && h.acknowledged < |h.saves|
            && ((exists s :: MayRecover(h.disk, s) && s.revision > Acknowledged(h) + 1)
                <==> Held(Trace(Bootstrapped(config, entry), steps), Overtakes, Rejoins))
  {
    RunLead(config, entry, steps);
    var h := After(Bootstrapped(config, entry), steps);
    var d := h.disk;
    assert d.versions[|d.versions| - 1].state == Visible(d);
    assert MayRecover(d, Visible(d));
    forall s | MayRecover(d, s)
      ensures s.revision <= Visible(d).revision
    {
      Recoverable(h, s);
    }
  }

  ghost predicate Leads(h: Host, steps: seq<Step>, t: Host) {
    CanRun(h, steps) && After(h, steps) == t
  }

  lemma Append(h: Host, steps: seq<Step>, t: Host, step: Step) returns (more: seq<Step>, t': Host)
    requires Leads(h, steps, t) && Enabled(t, step)
    ensures t' == Do(t, step) && Leads(h, more, t')
  {
    more, t' := steps + [step], Do(t, step);
    assert more[..|steps|] == steps;
  }

  /** An apply up to and with its rename. */
  lemma ApplyInPlace(start: Host, before: seq<Step>, h: Host, document: Document, actor: string, text: string)
    returns (steps: seq<Step>, t: Host)
    requires Inv(start) && Leads(start, before, h) && Inv(h) && Ready(h.process)
    requires RestartCompatible(h.process.active.document, document) && !Equal(h.process.active.document, document)
    ensures Leads(start, steps, t) && Inv(t) && t.process.Up? && t.process.saving.InPlace?
    ensures t.process.state == h.process.state && t.process.saving.state.revision == h.process.state.revision + 1
    ensures h.acknowledged < |h.saves| && t.acknowledged < |t.saves| && Acknowledged(t) == Acknowledged(h)
    ensures Visible(t.disk) == t.process.saving.state
  {
    var apply := BeginApply(document, h.process.active.info.revision, actor, text);
    steps, t := Append(start, before, h, apply);
    steps, t := Append(start, steps, t, WriteFile);
    steps, t := Append(start, steps, t, SyncFile);
    steps, t := Append(start, steps, t, Rename);
    RunKeeps(start, steps);
  }

  lemma RestartRun(start: Host, before: seq<Step>, h: Host, document: Document) returns (steps: seq<Step>, t: Host)
    requires Leads(start, before, h) && Enabled(h, FailAfterRename) && h.disk.versions != []
    ensures Leads(start, steps, t) && Ready(t.process) && t.process.state == Visible(h.disk) && t.disk == h.disk
    ensures t.process.active.document == document && t.acknowledged == h.acknowledged && t.saves == h.saves
  {
    steps, t := Append(start, before, h, FailAfterRename);
    steps, t := Append(start, steps, t, Kill);
    steps, t := Append(start, steps, t, Launch(document));
  }

  /**
   * Killing a process whose save failed after the rename and starting it again publishes a version that power loss may
   * take back.
   */
  lemma RestartOnUnsettledDisk(start: Host, before: seq<Step>, h: Host, document: Document)
      returns (steps: seq<Step>, t: Host)
    requires Inv(start) && Leads(start, before, h) && Inv(h) && h.process.Up? && h.process.saving.InPlace?
    ensures Leads(start, steps, t) && Inv(t) && Ready(t.process) && t.process.state == Visible(h.disk)
    ensures t.process.active.document == document && MayRecover(t.disk, h.process.state)
    ensures h.acknowledged < |h.saves| && t.acknowledged < |t.saves| && Acknowledged(t) == Acknowledged(h)
  {
    assert Enabled(h, FailAfterRename) && MayRecover(h.disk, h.process.state) by {
      assert h.disk.versions[|h.disk.versions| - 2].state == h.process.state;
    }
    steps, t := RestartRun(start, before, h, document);
    RunKeeps(start, steps);
  }

  lemma FirstLaunch(config: string, entry: Audit, document: Document) returns (steps: seq<Step>, t: Host)
    ensures Inv(Bootstrapped(config, entry)) && Leads(Bootstrapped(config, entry), steps, t) && Inv(t)
            && Ready(t.process)
    ensures t.process.state.revision == 1 && t.process.active.document == document
    ensures t.acknowledged < |t.saves| && Acknowledged(t) == 1
  {
    var start := Bootstrapped(config, entry);
    BootstrapInv(config, entry);
    steps, t := Append(start, [], start, Launch(document));
    RunKeeps(start, steps);
  }

  /**
   * An apply that fails after the rename, a process restart without power loss, and then a power loss take back
   * revision 2 although it was published.
   */
  lemma LostPublication(config: string, entry: Audit, first: Document, second: Document, actor: string, text: string)
    returns (steps: seq<Step>, recovered: Stored)
    requires RestartCompatible(first, second) && !Equal(first, second)
    ensures CanRun(Bootstrapped(config, entry), steps)
    ensures var h := After(Bootstrapped(config, entry), steps);
            h.process.Up? && h.process.active.info.revision == 2 && MayRecover(h.disk, recovered)
                && recovered.revision == 1
  {
    var start := Bootstrapped(config, entry);
    var h1, h2, h3;
    steps, h1 := FirstLaunch(config, entry, first);
    steps, h2 := ApplyInPlace(start, steps, h1, second, actor, text);
    steps, h3 := RestartOnUnsettledDisk(start, steps, h2, second);
    recovered := h2.process.state;
  }

  /**
   * Two applies in a row that fail after their renames, with a process restart in between: power loss may leave
   * revision 3 though only revision 1 was acknowledged.
   */
  lemma TwoAhead(config: string, entry: Audit, first: Document, second: Document, third: Document, actor: string,
                 text: string)
    returns (steps: seq<Step>, recovered: Stored)
    requires RestartCompatible(first, second) && !Equal(first, second)
    requires RestartCompatible(second, third) && !Equal(second, third)
    ensures CanRun(Bootstrapped(config, entry), steps)
    ensures var h := After(Bootstrapped(config, entry), steps);
            && h.acknowledged < |h.saves| && Acknowledged(h) == 1
            && MayRecover(h.disk, recovered) && recovered.revision == 3
  {
    var start := Bootstrapped(config, entry);
    var h1, h2, h3, h4;
    steps, h1 := FirstLaunch(config, entry, first);
    steps, h2 := ApplyInPlace(start, steps, h1, second, actor, text);
    steps, h3 := RestartOnUnsettledDisk(start, steps, h2, second);
    steps, h4 := ApplyInPlace(start, steps, h3, third, actor, text);
    recovered := Visible(h4.disk);
    assert h4.disk.versions[|h4.disk.versions| - 1].state == recovered;
  }
}
