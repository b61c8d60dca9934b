/** The durable store: one state file, replaced by rename and confirmed by syncing its directory. */
module Store {

  const AUDIT_LIMIT: nat := 1000

  datatype Audit = Audit(actor: string, operation: string, outcome: string, revision: nat)

  /** The managed state; `config` is the encoded text of the document saved with this revision. */
  datatype Stored = Stored(revision: nat, config: string, audit: seq<Audit>)

  /** A version of the file; `flushed`: its contents were synced before it got its name. */
  datatype Version = Version(state: Stored, flushed: bool)

  /**
   * The directory entry as a crash may leave it: `versions` are those renamed into place, oldest first; all before
   * `confirmed` are gone for good, and a machine crash leaves any one from `confirmed` on.
   */
  datatype Disk = Disk(versions: seq<Version>, confirmed: nat)

  ghost predicate ValidDisk(d: Disk) {
    d.confirmed < |d.versions| && forall i :: d.confirmed <= i < |d.versions| ==> d.versions[i].flushed
  }

  /** What a reader of the running machine sees. */
  function Visible(d: Disk): Stored
    requires d.versions != []
  {
    d.versions[|d.versions| - 1].state
  }

  predicate Settled(d: Disk) {
    d.confirmed + 1 == |d.versions|
  }

  /** A state the machine may come back with after a crash. */
  ghost predicate MayRecover(d: Disk, s: Stored) {
    exists i :: d.confirmed <= i < |d.versions| && d.versions[i].state == s
  }

  function Renamed(d: Disk, v: Version): Disk {
    d.(versions := d.versions + [v])
  }

  function Synced(d: Disk): Disk
    requires d.versions != []
  {
    d.(confirmed := |d.versions| - 1)
  }

  function Crashed(d: Disk, i: nat): Disk
    requires i < |d.versions|
  {
    Disk(d.versions[..i + 1], i)
  }

  /** Where a save is cut short by an error, if anywhere. */
  datatype Fault = AtCreate | AtWrite | AtSync | AtClose | AtRename | AtOpenDirectory | AtSyncDirectory | NoFault

  /** The error comes when the new version already has its name. */
  predicate Late(fault: Fault) {
    fault.AtOpenDirectory? || fault.AtSyncDirectory?
  }

  function AppendAudit(s: Stored, entry: Audit): (r: Stored)
    ensures r == s.(audit := r.audit) && |r.audit| <= (if |s.audit| < AUDIT_LIMIT then |s.audit| + 1 else AUDIT_LIMIT)
    ensures r.audit != [] && r.audit[|r.audit| - 1] == entry
  {
    var all := s.audit + [entry];
    s.(audit := if |all| > AUDIT_LIMIT then all[|all| - AUDIT_LIMIT..] else all)
  }

  function AppendAll(s: Stored, entries: seq<Audit>): Stored {
    if entries == [] then s else AppendAudit(AppendAll(s, entries[..|entries| - 1]), entries[|entries| - 1])
  }

  function Newest(entries: seq<Audit>): seq<Audit> {
    if |entries| > 1000 then entries[|entries| - 1000..] else entries
  }

  /** However many entries were appended, the audit trail is the newest thousand of all of them, in order. */
  lemma {:induction false} AuditIsNewest(s: Stored, entries: seq<Audit>)
    requires |s.audit| <= AUDIT_LIMIT
    ensures AppendAll(s, entries) == s.(audit := Newest(s.audit + entries))
  {
    if entries == [] {
      assert s.audit + entries == s.audit;
    } else {
      var before, last := entries[..|entries| - 1], entries[|entries| - 1];
      AuditIsNewest(s, before);
      assert s.audit + entries == (s.audit + before) + [last];
      NewestStep(s.audit + before, last);
    }
  }

  lemma NewestStep(all: seq<Audit>, last: Audit)
    ensures Newest(Newest(all) + [last]) == Newest(all + [last])
  {
  }

  class Store {
    var disk: Disk
    var state: Stored
    var poisoned: bool

    /** Outside a save an unpoisoned store has in memory what is in the file. */
    ghost predicate Valid()
      reads this
    {
      ValidDisk(disk) && (!poisoned ==> state == Visible(disk))
    }

    /** Opens the store on what the machine shows. */
    constructor (disk: Disk)
      requires ValidDisk(disk)
      ensures Valid() && this.disk == disk && !poisoned && state == Visible(disk)
    {
      this.disk, state, poisoned := disk, Visible(disk), false;
    }

    /** Replaces the file; `renamed` tells whether the new version got its name before the error. */
    method AtomicFile(next: Stored, fault: Fault) returns (renamed: bool, ok: bool)
      requires ValidDisk(disk)
      modifies `disk
      ensures ValidDisk(disk)
      ensures ok <==> fault == NoFault
      ensures renamed <==> Late(fault) || fault == NoFault
      ensures disk == if ok then Synced(Renamed(old(disk), Version(next, true)))
                      else if renamed then Renamed(old(disk), Version(next, true))
                      else old(disk)
    {
      if fault == AtCreate {
        return false, false;
      }
      var failed, flushed := fault == AtWrite, false;
      if !failed {
        failed := fault == AtSync;
        flushed := !failed;
      }
      if !failed {
        failed := fault == AtClose;
      }
      if failed {
        return false, false;
      }
      if fault == AtRename {
        return false, false;
      }
      disk := Renamed(disk, Version(next, flushed));
      if fault == AtOpenDirectory {
        return true, false;
      }
      if fault == AtSyncDirectory {
        return true, false;
      }
      disk := Synced(disk);
      return true, true;
    }

    /**
     * Saves a state.  Success makes it the only state a crash may leave; an error after the rename poisons the store.
     */
    method Save(next: Stored, fault: Fault) returns (ok: bool)
      requires Valid()
      modifies this
      ensures Valid()
      ensures ok <==> !old(poisoned) && fault == NoFault
      ensures ok ==> state == next && Settled(disk) && Visible(disk) == next && !poisoned
      ensures !ok ==> state == old(state) && disk.confirmed == old(disk.confirmed)
      ensures !ok && (old(poisoned) || !Late(fault)) ==> disk == old(disk) && poisoned == old(poisoned)
      ensures !ok && !old(poisoned) && Late(fault) ==>
                poisoned && disk == Renamed(old(disk), Version(next, true))
    {
      if poisoned {
        return false;
      }
      var renamed;
      renamed, ok := AtomicFile(next, fault);
      if !ok {
        poisoned := renamed;
        return false;
      }
      state := next;
    }

    method RecordAudit(actor: string, operation: string, outcome: string, revision: nat, fault: Fault)
        returns (ok: bool)
      requires Valid()
      modifies this
      ensures Valid()
      ensures ok <==> !old(poisoned) && fault == NoFault
      ensures ok ==> state == AppendAudit(old(state), Audit(actor, operation, outcome, revision)) && Settled(disk)
      ensures !ok ==> state == old(state)
      ensures !ok && (old(poisoned) || !Late(fault)) ==> disk == old(disk) && poisoned == old(poisoned)
      ensures !ok && !old(poisoned) && Late(fault) ==>
                poisoned && disk == Renamed(old(disk), Version(Visible(disk), true))
                && Visible(disk) == AppendAudit(state, Audit(actor, operation, outcome, revision))
    {
      ok := Save(AppendAudit(state, Audit(actor, operation, outcome, revision)), fault);
    }

    /** Stores an applied document under its revision. */
    method Apply(actor: string, config: string, revision: nat, fault: Fault) returns (ok: bool)
      requires Valid()
      modifies this
      ensures Valid()
      ensures ok <==> !old(poisoned) && fault == NoFault
      ensures ok ==> Settled(disk) && state == Visible(disk) && state.revision == revision && state.config == config
                     && state.audit == AppendAudit(old(state), Audit(actor, "apply", "ok", revision)).audit
      ensures !ok ==> state == old(state)
      ensures !ok && (old(poisoned) || !Late(fault)) ==> disk == old(disk) && poisoned == old(poisoned)
      ensures !ok && !old(poisoned) && Late(fault) ==>
                poisoned && disk == Renamed(old(disk), Version(Visible(disk), true))
                && Visible(disk).revision == revision && Visible(disk).config == config
    {
      var next := AppendAudit(state, Audit(actor, "apply", "ok", revision));
      next := next.(config := config, revision := revision);
      ok := Save(next, fault);
    }
  }
}
