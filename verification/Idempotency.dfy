/** What every committed handler keeps of the rows behind idempotency: flows are completed, and flows,
    markers, journals and event markers match. */
module Idempotency {
  import opened Ledger
  import opened Keys
  import opened Items
  import opened Handlers
  import opened Atomic
  import opened Journals
  import opened Effects

  // ------------------------------------------------------------------------------------------
  // Flows, markers, journals, events
  // ------------------------------------------------------------------------------------------

  /** A stored flow is completed, its key's marker names it, and each of its steps has its journal. */
  predicate FlowTidy(t: Table, k: Key) {
    k.FlowK? && k in t ==>
      && t[k].FlowItem? && t[k].run.status == Completed
      && Lookup(t, FIdempK(k.tenant, t[k].run.idempotencyKey)) == Some(FIdempItem(k.flow))
      && forall i | 0 <= i < |t[k].steps| :: JournalOfFlow(t, JrnK(k.tenant, t[k].steps[i].journalId), k.flow)
  }

  predicate JournalOfFlow(t: Table, k: Key, flow: string) {
    k in t && t[k].JrnItem? && t[k].journal.flowRunId == flow
  }

  /** A marker names a stored flow that has its key. */
  predicate MarkerTidy(t: Table, k: Key) {
    k.FIdempK? && k in t ==>
      && t[k].FIdempItem?
      && var f := Lookup(t, FlowK(k.tenant, t[k].flowRunId));
         f.Some? && f.value.FlowItem? && f.value.run.idempotencyKey == k.key
  }

  /** A journal is valid, its event is marked, and its flow is stored and lists it. */
  ghost predicate JournalTidy(t: Table, k: Key) {
    k.JrnK? && k in t ==>
      && t[k].JrnItem? && JournalOk(t[k].journal.eventId, t[k].journal.entries)
      && EvtK(t[k].journal.eventId) in t
      && var f := Lookup(t, FlowK(k.tenant, t[k].journal.flowRunId));
         f.Some? && f.value.FlowItem? && Lists(f.value.steps, k.journal)
  }

  ghost predicate Lists(steps: seq<FlowStep>, journal: string) {
    exists i :: 0 <= i < |steps| && steps[i].journalId == journal
  }

  /** Journals of one event belong to one flow. */
  predicate SameEvent(t: Table, k: Key, l: Key) {
    k.JrnK? && l.JrnK? && k in t && l in t && t[k].JrnItem? && t[l].JrnItem?
    && t[k].journal.eventId == t[l].journal.eventId
    ==> k.tenant == l.tenant && t[k].journal.flowRunId == t[l].journal.flowRunId
  }

  ghost predicate Tidy(t: Table) {
    && (forall k :: FlowTidy(t, k))
    && (forall k :: MarkerTidy(t, k))
    && (forall k :: JournalTidy(t, k))
    && (forall k, l :: SameEvent(t, k, l))
  }

  lemma {:induction false} StepFlowTidy(r: Request, env: Env, t: Table, u: Table, k: Key)
    requires Takes(r, env, t, u) && DistinctIds(env) && FlowTidy(t, k)
    ensures FlowTidy(u, k)
  {
    hide Takes, PostedBy, DistinctIds, JournalId, FullJournal;
    if k.FlowK? && k in u {
      StepFlowRow(r, env, t, u, k);
      StepMarker(r, env, t, u, k.tenant, u[k].run.idempotencyKey);
      forall i | 0 <= i < |u[k].steps| ensures JournalOfFlow(u, JrnK(k.tenant, u[k].steps[i].journalId), k.flow) {
        StepJournal(r, env, t, u, JrnK(k.tenant, u[k].steps[i].journalId));
        if k !in t {
          var fr := PostedBy(r, env, t).value;
          assert u[k].steps[i] == StepRow(env, fr, i);
          assert JrnK(k.tenant, u[k].steps[i].journalId) == JournalKey(env, fr, i);
          JournalFlow(env, fr, i);
        } else {
          assert JournalOfFlow(t, JrnK(k.tenant, t[k].steps[i].journalId), k.flow);
        }
      }
    }
  }

  lemma {:induction false} JournalFlow(env: Env, fr: FlowReq, i: nat)
    requires i < |fr.steps|
    ensures FullJournal(env, fr, i).flowRunId == FlowId(env)
    ensures FullJournal(env, fr, i).eventId == fr.steps[i].eventId
        && FullJournal(env, fr, i).entries == fr.steps[i].entries
  {
  }

  lemma {:induction false} StepMarkerTidy(r: Request, env: Env, t: Table, u: Table, k: Key)
    requires Takes(r, env, t, u) && MarkerTidy(t, k)
    ensures MarkerTidy(u, k)
  {
    hide Takes, PostedBy, StepRows;
    if k.FIdempK? && k in u {
      StepMarker(r, env, t, u, k.tenant, k.key);
      StepFlowRow(r, env, t, u, FlowK(k.tenant, u[k].flowRunId));
    }
  }

  lemma {:induction false} StepJournalTidy(r: Request, env: Env, t: Table, u: Table, k: Key)
    requires Takes(r, env, t, u) && DistinctIds(env) && JournalTidy(t, k)
    ensures JournalTidy(u, k)
  {
    hide Takes, PostedBy, DistinctIds, JournalId, FullJournal, JournalOk, Problem, Overdrawn, RefsOf, Lists;
    if k.JrnK? && k in u {
      StepJournal(r, env, t, u, k);
      if k in t {
        StepEvent(r, env, t, u, t[k].journal.eventId);
        StepFlowRow(r, env, t, u, FlowK(k.tenant, t[k].journal.flowRunId));
      } else {
        var fr := PostedBy(r, env, t).value;
        var i: nat :| i < |fr.steps| && k == JournalKey(env, fr, i) && u[k] == JrnItem(FullJournal(env, fr, i));
        JournalFlow(env, fr, i);
        StepEvent(r, env, t, u, fr.steps[i].eventId);
        StepFlowRow(r, env, t, u, FlowK(k.tenant, FlowId(env)));
        PostedOk(r, env, t);
        ListsStep(env, fr, i);
      }
    }
  }

  lemma {:induction false} ListsStep(env: Env, fr: FlowReq, i: nat)
    requires i < |fr.steps|
    ensures Lists(StepRows(env, fr, |fr.steps|), JournalId(env, fr, i))
  {
    hide JournalId;
    assert StepRows(env, fr, |fr.steps|)[i] == StepRow(env, fr, i);
  }

  lemma {:induction false} StepSameEvent(r: Request, env: Env, t: Table, u: Table, k: Key, l: Key)
    requires Takes(r, env, t, u) && DistinctIds(env) && Tidy(t)
    ensures SameEvent(u, k, l)
  {
    hide Takes, PostedBy, DistinctIds, JournalId, FullJournal, FlowTidy, MarkerTidy;
    assert SameEvent(t, k, l) && JournalTidy(t, k) && JournalTidy(t, l);
    if k.JrnK? && l.JrnK? && k in u && l in u {
      EventOwner(r, env, t, u, k);
      EventOwner(r, env, t, u, l);
    }
  }

  /** A journal after the step is an old one, or the flow's with an event that was not marked. */
  lemma {:induction false} EventOwner(r: Request, env: Env, t: Table, u: Table, k: Key)
    requires Takes(r, env, t, u) && DistinctIds(env) && k.JrnK? && k in u
    ensures k in t ==> u[k] == t[k]
    ensures k !in t ==>
              PostedBy(r, env, t).Some? && u[k].JrnItem? && EvtK(u[k].journal.eventId) !in t
              && k.tenant == PostedBy(r, env, t).value.tenant && u[k].journal.flowRunId == FlowId(env)
  {
    hide Takes, PostedBy, DistinctIds, JournalId, FullJournal;
    StepJournal(r, env, t, u, k);
    if k !in t {
      var fr := PostedBy(r, env, t).value;
      var i: nat :| i < |fr.steps| && k == JournalKey(env, fr, i) && u[k] == JrnItem(FullJournal(env, fr, i));
      JournalFlow(env, fr, i);
      StepEvent(r, env, t, u, fr.steps[i].eventId);
    }
  }

  lemma {:induction false} StepTidy(r: Request, env: Env, t: Table, u: Table)
    requires Takes(r, env, t, u) && DistinctIds(env) && Tidy(t)
    ensures Tidy(u)
  {
    hide Takes, DistinctIds, FlowTidy, MarkerTidy, JournalTidy, SameEvent;
    forall k ensures FlowTidy(u, k) { StepFlowTidy(r, env, t, u, k); }
    forall k ensures MarkerTidy(u, k) { StepMarkerTidy(r, env, t, u, k); }
    forall k ensures JournalTidy(u, k) { StepJournalTidy(r, env, t, u, k); }
    forall k, l ensures SameEvent(u, k, l) { StepSameEvent(r, env, t, u, k, l); }
  }
}
