/** The journals, flow rows and event markers a posted flow leaves. */
module Journals {
  import opened Ledger
  import opened Keys
  import opened Items
  import opened Handlers
  import opened FlowFacts

  /** The ids drawn by one handler call are distinct. */
  ghost predicate DistinctIds(env: Env) {
    forall i: nat, j: nat :: env.gen(i) == env.gen(j) ==> i == j
  }

  lemma {:induction false} StepBaseGrows(steps: seq<StepInput>, i: nat, j: nat)
    requires i < j <= |steps|
    ensures StepBase(steps, i) + |steps[i].entries| + 3 <= StepBase(steps, j)
  {
    if i < j - 1 {
      StepBaseGrows(steps, i, j - 1);
    }
  }

  lemma {:induction false} JournalIdsDistinct(env: Env, fr: FlowReq, i: nat, j: nat)
    requires DistinctIds(env) && i < |fr.steps| && j < |fr.steps| && JournalId(env, fr, i) == JournalId(env, fr, j)
    ensures i == j
  {
    if i < j {
      StepBaseGrows(fr.steps, i, j);
    } else if j < i {
      StepBaseGrows(fr.steps, j, i);
    }
  }

  function JournalKey(env: Env, fr: FlowReq, i: nat): Key
    requires i < |fr.steps|
  {
    JrnK(fr.tenant, JournalId(env, fr, i))
  }

  function FullJournal(env: Env, fr: FlowReq, i: nat): Journal
    requires i < |fr.steps|
  {
    JournalOf(env, fr, i, |fr.steps[i].entries|)
  }

  lemma {:induction false} EntryWritesLast(env: Env, fr: FlowReq, i: nat, m: nat, k: Key)
    requires i < |fr.steps| && m <= |fr.steps[i].entries|
    ensures LastItem(EntryWrites(env, fr, i, m), k)
         == if m > 0 && k == JournalKey(env, fr, i) then Some(JrnItem(JournalOf(env, fr, i, m))) else None
  {
    hide JournalId, JournalOf;
    if m > 0 {
      EntryWritesLast(env, fr, i, m - 1, k);
      var ws := EntryWrites(env, fr, i, m);
      assert ws[..|ws| - 1] == EntryWrites(env, fr, i, m - 1);
    }
  }

  lemma {:induction false} LastOfTwo(v: Write, w: Write, k: Key)
    ensures LastItem([v, w], k) == if k == w.key then Some(w.item) else if k == v.key then Some(v.item) else None
  {
    assert [v, w][..1] == [v];
    assert LastItem([v], k) == if k == v.key then Some(v.item) else None;
  }

  /** One step writes its full journal, its event marker, the flow row, and its outbox event. */
  lemma {:induction false} StepWritesLast(env: Env, fr: FlowReq, i: nat, k: Key)
    requires i < |fr.steps|
    ensures k.JrnK? ==> LastItem(StepWrites(env, fr, i), k) == if k == JournalKey(env, fr, i)
        then Some(JrnItem(FullJournal(env, fr, i))) else None
    ensures k.EvtK? ==> LastItem(StepWrites(env, fr, i), k) == if k == EvtK(fr.steps[i].eventId)
        then Some(EvtItem(JournalId(env, fr, i))) else None
    ensures k.ObxK? ==> LastItem(StepWrites(env, fr, i), k) == if k == ObxK(EventOf(env, fr, i).id)
        then Some(ObxItem(EventOf(env, fr, i))) else None
    ensures k.FlowK? && k != FlowK(fr.tenant, FlowId(env)) ==> LastItem(StepWrites(env, fr, i), k) == None
  {
    hide JournalId, EventOf, FlowId, StepRows, RunOf, EntryWrites;
    var n := |fr.steps[i].entries|;
    var head := [JournalWrite(env, fr, i, 0), EventMarker(env, fr, i)];
    var last := [FlowWrite(env, fr, Running, i + 1), OutboxWrite(EventOf(env, fr, i))];
    EntryWritesLast(env, fr, i, n, k);
    LastOfTwo(head[0], head[1], k);
    LastOfTwo(last[0], last[1], k);
    LastItemConcat(head, EntryWrites(env, fr, i, n), k);
    LastItemConcat(head + EntryWrites(env, fr, i, n), last, k);
  }

  lemma {:induction false} StepsWritesNext(env: Env, fr: FlowReq, n: nat, k: Key)
    requires 0 < n <= |fr.steps|
    ensures LastItem(StepsWrites(env, fr, n), k)
         == if LastItem(StepWrites(env, fr, n - 1), k).Some? then LastItem(StepWrites(env, fr, n - 1), k)
            else LastItem(StepsWrites(env, fr, n - 1), k)
  {
    hide StepWrites;
    LastItemConcat(StepsWrites(env, fr, n - 1), StepWrites(env, fr, n - 1), k);
  }

  lemma {:induction false} StepsWritesJournal(env: Env, fr: FlowReq, n: nat, i: nat)
    requires DistinctIds(env) && n <= |fr.steps| && i < |fr.steps|
    ensures LastItem(StepsWrites(env, fr, n), JournalKey(env, fr, i))
         == if i < n then Some(JrnItem(FullJournal(env, fr, i))) else None
  {
    hide StepWrites, JournalId, JournalOf, LastItem, DistinctIds;
    if n == 0 {
      NotWritten([], JournalKey(env, fr, i));
    } else {
      StepsWritesJournal(env, fr, n - 1, i);
      StepsWritesNext(env, fr, n, JournalKey(env, fr, i));
      StepWritesLast(env, fr, n - 1, JournalKey(env, fr, i));
      if JournalKey(env, fr, i) == JournalKey(env, fr, n - 1) {
        JournalIdsDistinct(env, fr, i, n - 1);
      }
    }
  }

  lemma {:induction false} StepsWritesNoJournal(env: Env, fr: FlowReq, n: nat, k: Key)
    requires n <= |fr.steps| && k.JrnK?
    requires forall i: nat | i < |fr.steps| :: k != JournalKey(env, fr, i)
    ensures LastItem(StepsWrites(env, fr, n), k) == None
  {
    hide StepWrites, JournalId, JournalOf, LastItem;
    if n == 0 {
      NotWritten([], k);
    } else {
      StepsWritesNoJournal(env, fr, n - 1, k);
      StepsWritesNext(env, fr, n, k);
      StepWritesLast(env, fr, n - 1, k);
    }
  }

  lemma {:induction false} StepsWritesEvent(env: Env, fr: FlowReq, n: nat, event: string)
    requires n <= |fr.steps|
    ensures LastItem(StepsWrites(env, fr, n), EvtK(event)).Some? <==> exists i: nat ::
        i < n && fr.steps[i].eventId == event
  {
    hide StepWrites, JournalId, JournalOf, LastItem, EventOf;
    if n == 0 {
      NotWritten([], EvtK(event));
    } else {
      StepsWritesEvent(env, fr, n - 1, event);
      StepsWritesNext(env, fr, n, EvtK(event));
      StepWritesLast(env, fr, n - 1, EvtK(event));
    }
  }

  /** With distinct event ids each marker names the journal of its step. */
  lemma {:induction false} StepsWritesMarker(env: Env, fr: FlowReq, n: nat, i: nat)
    requires n <= |fr.steps| && i < |fr.steps|
    requires forall j, k | 0 <= j < k < |fr.steps| :: fr.steps[j].eventId != fr.steps[k].eventId
    ensures LastItem(StepsWrites(env, fr, n), EvtK(fr.steps[i].eventId))
         == if i < n then Some(EvtItem(JournalId(env, fr, i))) else None
  {
    hide StepWrites, JournalId, JournalOf, LastItem, EventOf;
    var k := EvtK(fr.steps[i].eventId);
    if n == 0 {
      NotWritten([], k);
    } else {
      StepsWritesMarker(env, fr, n - 1, i);
      StepsWritesNext(env, fr, n, k);
      StepWritesLast(env, fr, n - 1, k);
      assert fr.steps[n - 1].eventId == fr.steps[i].eventId ==> n - 1 == i;
    }
  }

  lemma {:induction false} StepsWritesOtherFlow(env: Env, fr: FlowReq, n: nat, k: Key)
    requires n <= |fr.steps| && k.FlowK? && k != FlowK(fr.tenant, FlowId(env))
    ensures LastItem(StepsWrites(env, fr, n), k) == None
  {
    hide StepWrites, JournalId, JournalOf, LastItem, FlowId;
    if n == 0 {
      NotWritten([], k);
    } else {
      StepsWritesOtherFlow(env, fr, n - 1, k);
      StepsWritesNext(env, fr, n, k);
      StepWritesLast(env, fr, n - 1, k);
    }
  }

  // ------------------------------------------------------------------------------------------
  // The whole flow
  // ------------------------------------------------------------------------------------------

  /** For journals, events and outbox rows a flow is its steps. */
  lemma {:induction false} FlowIsSteps(env: Env, fr: FlowReq, loaded: seq<Loaded>, k: Key)
    requires |loaded| == |RefsOf(fr)| && (k.JrnK? || k.EvtK? || k.ObxK?)
    ensures LastItem(FlowWrites(env, fr, loaded), k) == LastItem(StepsWrites(env, fr, |fr.steps|), k)
  {
    hide RefsOf, StepsWrites, BalWrites, StepRows, RunOf;
    FlowSplit(env, fr, loaded, k);
    LastLeavesAlone(env, fr, k);
    BalWritesElsewhere(fr, loaded, k);
    NotWritten(BalWrites(fr, loaded, |loaded|), k);
    NotWritten(OpenWrites(env, fr), k);
    LastItemConcat(OpenWrites(env, fr), StepsWrites(env, fr, |fr.steps|), k);
  }

  /** The flow row ends completed, with every step in order; no other flow row is written. */
  lemma {:induction false} FlowRow(env: Env, fr: FlowReq, loaded: seq<Loaded>, k: Key)
    requires |loaded| == |RefsOf(fr)| && k.FlowK?
    ensures LastItem(FlowWrites(env, fr, loaded), k)
         == if k == FlowK(fr.tenant, FlowId(env))
           then Some(FlowItem(RunOf(env, fr, Completed), StepRows(env, fr, |fr.steps|))) else None
  {
    hide RefsOf, StepsWrites, BalWrites, StepRows, RunOf;
    FlowSplit(env, fr, loaded, k);
    assert LastItem(FlowLast(env, fr), k) == if k == FlowK(fr.tenant, FlowId(env))
      then Some(FlowLast(env, fr)[0].item) else None;
    if k != FlowK(fr.tenant, FlowId(env)) {
      BalWritesElsewhere(fr, loaded, k);
      NotWritten(BalWrites(fr, loaded, |loaded|), k);
      NotWritten(OpenWrites(env, fr), k);
      LastItemConcat(OpenWrites(env, fr), StepsWrites(env, fr, |fr.steps|), k);
      StepsWritesOtherFlow(env, fr, |fr.steps|, k);
    }
  }

  /** Everything a flow writes, balances apart, it writes as new. */
  lemma {:induction false} FlowConds(env: Env, fr: FlowReq, loaded: seq<Loaded>, k: Key)
    requires |loaded| == |RefsOf(fr)| && !k.BalK? && LastItem(FlowWrites(env, fr, loaded), k).Some?
    ensures FirstCond(FlowWrites(env, fr, loaded), k) == Some(NotExists)
  {
    hide RefsOf, StepsWrites, BalWrites, StepRows, RunOf, LastItem, FirstCond;
    var ws := FlowWrites(env, fr, loaded);
    Witnesses(ws, k);
    StepsWritesKinds(env, fr, |fr.steps|);
    BalWritesElsewhere(fr, loaded, k);
    var w :| w in ws && w.key == k && w.cond == FirstCond(ws, k).value;
    assert w in OpenWrites(env, fr) || w in StepsWrites(env, fr, |fr.steps|) || w in BalWrites(fr, loaded, |loaded|)
      || w in FlowLast(env, fr);
  }
}
