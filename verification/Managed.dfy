/** A managed instance: the service publishes through the store. */
module Managed {
  import opened Bytes
  import opened Config
  import opened Control
  import opened Store

  /** The service and the store agree on the revision in force. */
  ghost predicate Consistent(service: Service, store: Store)
    reads service, store
  {
    && service.managed
    && store.Valid()
    && store.state.revision == service.active.info.revision
  }

  /** Applies a document under a revision precondition: stored first, published only then. */
  method ApplyRevision(service: Service, store: Store, document: Document, expected: nat, actor: string, text: string,
                       fault: Fault)
    returns (o: Outcome)
    requires Consistent(service, store)
    modifies service, store
    ensures Consistent(service, store)
    ensures o.Done? <==>
            !PlanOf(old(service.active), document, Some(expected)).Refuse? && !old(store.poisoned) && fault == NoFault
    ensures o.Done? ==> Settled(store.disk) && Visible(store.disk).revision == service.active.info.revision
                        && Visible(store.disk).config == text && Equal(service.active.document, document)
    ensures o.Failed? ==> service.active == old(service.active) && store.state == old(store.state)
    ensures o.Failed?
            && (PlanOf(old(service.active), document, Some(expected)).Refuse? || old(store.poisoned)
                || !Late(fault)) ==>
              store.disk == old(store.disk) && store.poisoned == old(store.poisoned)
    ensures !PlanOf(old(service.active), document, Some(expected)).Refuse? && !old(store.poisoned) && Late(fault) ==>
              store.poisoned && store.disk == Renamed(old(store.disk), Version(Visible(store.disk), true))
              && Visible(store.disk).config == text
  {
    var plan := PlanOf(service.active, document, Some(expected));
    var persists := false;
    if !plan.Refuse? {
      var revision := if plan.Publish? then plan.info.revision else service.active.info.revision;
      persists := store.Apply(actor, text, revision, fault);
    }
    o := service.Apply(document, Some(expected), persists);
  }

  /** Switches injection, but only after the switch was written to the audit trail. */
  method SetEnabled(service: Service, store: Store, enabled: bool, actor: string, fault: Fault)
      returns (r: Option<Result>)
    requires Consistent(service, store)
    modifies service, store
    ensures Consistent(service, store)
    ensures r.Some? <==> !old(store.poisoned) && fault == NoFault
    ensures r.Some? ==> service.active.info.enabled == enabled && Settled(store.disk)
    ensures r.None? ==> service.active == old(service.active) && store.state == old(store.state)
    ensures r.None? && (old(store.poisoned) || !Late(fault)) ==>
            store.disk == old(store.disk) && store.poisoned == old(store.poisoned)
    ensures !old(store.poisoned) && Late(fault) ==>
              store.poisoned && store.disk == Renamed(old(store.disk), Version(Visible(store.disk), true))
    ensures service.active.document == old(service.active.document)
            && service.active.engine == old(service.active.engine)
  {
    var operation := if enabled then "enable" else "disable";
    var ok := store.RecordAudit(actor, operation, "ok", service.active.info.revision, fault);
    if !ok {
      return None;
    }
    var result := service.SetEnabled(enabled);
    return Some(result);
  }
}
