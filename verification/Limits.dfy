/** How many items a handler buffers, and so when a flow is too large to commit. */
module Limits {
  import opened Ledger
  import opened Keys
  import opened Items
  import opened Ordering
  import opened Handlers
  import opened FlowFacts
  import opened Writes
  import opened Serializability
  import opened Atomic
  import opened Journals
  import opened Effects
  import opened Books

  lemma {:induction false} KeySetConcat(xs: seq<Write>, ys: seq<Write>)
    ensures KeySet(xs + ys) == KeySet(xs) + KeySet(ys)
  {
    forall k ensures k in KeySet(xs + ys) <==> k in KeySet(xs) + KeySet(ys) {
      if k in KeySet(xs) {
        var w :| w in xs && w.key == k;
        assert w in xs + ys;
      }
      if k in KeySet(ys) {
        var w :| w in ys && w.key == k;
        assert w in xs + ys;
      }
    }
  }

  /** The buffer holds one item per distinct key. */
  lemma {:induction false} PutsAreKeys(ws: seq<Write>)
    ensures |AddAll(Empty, ws).puts| == |KeySet(ws)|
  {
    hide AddAll;
    EmptyValid();
    AddAllValid(Empty, ws);
    var m := AddAll(Empty, ws).puts;
    assert m.Keys == KeySet(ws);
    assert |m| == |m.Keys|;
  }

  // ------------------------------------------------------------------------------------------
  // The keys of a flow
  // ------------------------------------------------------------------------------------------

  function OutboxKey(env: Env, fr: FlowReq, i: nat): Key
    requires i < |fr.steps|
  {
    ObxK(EventOf(env, fr, i).id)
  }

  function OutboxKeys(env: Env, fr: FlowReq, n: nat): set<Key>
    requires n <= |fr.steps|
  {
    if n == 0 then {} else OutboxKeys(env, fr, n - 1) + {OutboxKey(env, fr, n - 1)}
  }

  /** The distinct event ids of the first `n` steps. */
  function EventIds(steps: seq<StepInput>, n: nat): set<string>
    requires n <= |steps|
  {
    if n == 0 then {} else EventIds(steps, n - 1) + {steps[n - 1].eventId}
  }

  function EventKeys(events: set<string>): set<Key> {
    set e | e in events :: EvtK(e)
  }

  lemma {:induction false} EventKeysSize(events: set<string>)
    ensures |EventKeys(events)| == |events|
    decreases |events|
  {
    if events != {} {
      var e :| e in events;
      EventKeysSize(events - {e});
      assert EventKeys(events) == EventKeys(events - {e}) + {EvtK(e)};
    }
  }

  lemma {:induction false} JournalKeysSize(env: Env, fr: FlowReq, n: nat)
    requires n <= |fr.steps| && DistinctIds(env)
    ensures |JournalKeys(env, fr, n)| == n
  {
    hide JournalId, DistinctIds;
    if n > 0 {
      JournalKeysSize(env, fr, n - 1);
      JournalKeysAre(env, fr, n - 1, JournalKey(env, fr, n - 1));
      if JournalKey(env, fr, n - 1) in JournalKeys(env, fr, n - 1) {
        var i: nat :| i < n - 1 && JournalKey(env, fr, n - 1) == JournalKey(env, fr, i);
        JournalIdsDistinct(env, fr, i, n - 1);
      }
    }
  }

  lemma {:induction false} OutboxKinds(env: Env, fr: FlowReq, n: nat)
    requires n <= |fr.steps|
    ensures forall k | k in OutboxKeys(env, fr, n) :: k.ObxK?
  {
    if n > 0 {
      OutboxKinds(env, fr, n - 1);
    }
  }

  /** Ids drawn later are not those of earlier outbox events. */
  lemma {:induction false} OutboxBelow(env: Env, fr: FlowReq, n: nat, m: nat)
    requires n <= |fr.steps| && DistinctIds(env) && m >= StepBase(fr.steps, n)
    ensures ObxK(env.Id(m)) !in OutboxKeys(env, fr, n)
  {
    if n > 0 {
      OutboxBelow(env, fr, n - 1, m);
    }
  }

  lemma {:induction false} OutboxKeysSize(env: Env, fr: FlowReq, n: nat)
    requires n <= |fr.steps| && DistinctIds(env)
    ensures |OutboxKeys(env, fr, n)| == n
  {
    hide DistinctIds;
    if n > 0 {
      OutboxKeysSize(env, fr, n - 1);
      OutboxBelow(env, fr, n - 1, StepBase(fr.steps, n - 1) + |fr.steps[n - 1].entries| + 2);
    }
  }

  lemma {:induction false} EntryKeys(env: Env, fr: FlowReq, i: nat, m: nat)
    requires i < |fr.steps| && m <= |fr.steps[i].entries|
    ensures KeySet(EntryWrites(env, fr, i, m)) <= {JournalKey(env, fr, i)}
  {
    hide JournalId;
    EntryWritesKinds(env, fr, i, m);
    forall w | w in EntryWrites(env, fr, i, m) ensures w.key == JournalKey(env, fr, i) {
      var n: nat :| n <= |fr.steps[i].entries| && w == JournalWrite(env, fr, i, n);
    }
  }

  lemma {:induction false} PairKeys(v: Write, w: Write)
    ensures KeySet([v, w]) == {v.key, w.key}
  {
    assert v in [v, w] && w in [v, w];
  }

  lemma {:induction false} StepKeys(env: Env, fr: FlowReq, i: nat)
    requires i < |fr.steps|
    ensures KeySet(StepWrites(env, fr, i))
         == {JournalKey(env, fr, i), EvtK(fr.steps[i].eventId), FlowK(fr.tenant, FlowId(env)), OutboxKey(env, fr, i)}
  {
    hide JournalId, EntryWrites, FlowId, StepRows, RunOf, KeySet;
    var n := |fr.steps[i].entries|;
    var head := [JournalWrite(env, fr, i, 0), EventMarker(env, fr, i)];
    var last := [FlowWrite(env, fr, Running, i + 1), OutboxWrite(EventOf(env, fr, i))];
    EntryKeys(env, fr, i, n);
    PairKeys(head[0], head[1]);
    PairKeys(last[0], last[1]);
    KeySetConcat(head, EntryWrites(env, fr, i, n));
    KeySetConcat(head + EntryWrites(env, fr, i, n), last);
  }

  lemma {:induction false} StepsKeys(env: Env, fr: FlowReq, n: nat)
    requires n <= |fr.steps|
    ensures KeySet(StepsWrites(env, fr, n)) + {FlowK(fr.tenant, FlowId(env))}
         == JournalKeys(env, fr, n) + OutboxKeys(env, fr, n) + EventKeys(EventIds(fr.steps, n))
           + {FlowK(fr.tenant, FlowId(env))}
  {
    hide JournalId, StepWrites, FlowId, EventOf;
    if n > 0 {
      StepsKeys(env, fr, n - 1);
      StepKeys(env, fr, n - 1);
      KeySetConcat(StepsWrites(env, fr, n - 1), StepWrites(env, fr, n - 1));
      assert EventKeys(EventIds(fr.steps, n)) == EventKeys(EventIds(fr.steps, n - 1)) + {EvtK(fr.steps[n - 1].eventId)};
    }
  }

  function BalanceKeys(tenant: string, refs: seq<BalRef>): set<Key> {
    set r | r in refs :: BalKey(tenant, r)
  }

  lemma {:induction false} BalanceKeysSize(tenant: string, refs: seq<BalRef>)
    requires forall i, j | 0 <= i < j < |refs| :: refs[i] != refs[j]
    ensures |BalanceKeys(tenant, refs)| == |refs|
  {
    if refs != [] {
      var n := |refs| - 1;
      BalanceKeysSize(tenant, refs[..n]);
      assert refs == refs[..n] + [refs[n]];
      assert BalanceKeys(tenant, refs) == BalanceKeys(tenant, refs[..n]) + {BalKey(tenant, refs[n])};
    }
  }

  lemma {:induction false} BalWriteKeys(fr: FlowReq, loaded: seq<Loaded>)
    requires |loaded| == |RefsOf(fr)|
    ensures KeySet(BalWrites(fr, loaded, |loaded|)) == BalanceKeys(fr.tenant, RefsOf(fr))
  {
    hide RefsOf, FinalDebits, FinalCredits;
    var ws := BalWrites(fr, loaded, |loaded|);
    forall k ensures k in KeySet(ws) <==> k in BalanceKeys(fr.tenant, RefsOf(fr)) {
      if k in BalanceKeys(fr.tenant, RefsOf(fr)) {
        var r :| r in RefsOf(fr) && BalKey(fr.tenant, r) == k;
        var i :| 0 <= i < |RefsOf(fr)| && RefsOf(fr)[i] == r;
        assert ws[i] in ws;
      }
    }
  }

  lemma {:induction false} RefsDistinct(fr: FlowReq)
    ensures forall i, j | 0 <= i < j < |RefsOf(fr)| :: RefsOf(fr)[i] != RefsOf(fr)[j]
  {
    hide RefLess;
    RefsSorted(AllEntries(fr.steps));
    forall i, j | 0 <= i < j < |RefsOf(fr)| ensures RefsOf(fr)[i] != RefsOf(fr)[j] {
      if RefsOf(fr)[i] == RefsOf(fr)[j] {
        IncreasingDistinct(RefsOf(fr), i, j);
      }
    }
  }

  function FlowKeys(env: Env, fr: FlowReq): set<Key> {
    var n := |fr.steps|;
    JournalKeys(env, fr, n) + OutboxKeys(env, fr, n) + EventKeys(EventIds(fr.steps, n))
    + BalanceKeys(fr.tenant, RefsOf(fr)) + {FlowK(fr.tenant, FlowId(env)), FIdempK(fr.tenant, fr.key)}
  }

  lemma {:induction false} FlowKeysAre(env: Env, fr: FlowReq, loaded: seq<Loaded>)
    requires |loaded| == |RefsOf(fr)|
    ensures KeySet(FlowWrites(env, fr, loaded)) == FlowKeys(env, fr)
  {
    hide RefsOf, StepsWrites, BalWrites, KeySet, FlowId, RunOf, StepRows, JournalKeys, OutboxKeys, EventKeys,
      EventIds, BalanceKeys;
    var n := |fr.steps|;
    var open, steps, bals, last := OpenWrites(env, fr), StepsWrites(env, fr, n), BalWrites(fr, loaded, |loaded|),
      FlowLast(env, fr);
    StepsKeys(env, fr, n);
    BalWriteKeys(fr, loaded);
    PairKeys(open[0], open[1]);
    OneKey(last[0]);
    KeySetConcat(open, steps);
    KeySetConcat(open + steps, bals);
    KeySetConcat(open + steps + bals, last);
  }

  lemma {:induction false} OneKey(w: Write)
    ensures KeySet([w]) == {w.key}
  {
    assert w in [w];
  }

  /** Items of a flow: two for the flow itself, a journal and an outbox event per step, one marker per
      distinct event, one row per pair. */
  function FlowItems(fr: FlowReq): nat {
    2 + 2 * |fr.steps| + |EventIds(fr.steps, |fr.steps|)| + |RefsOf(fr)|
  }

  lemma {:induction false} FlowKeysSize(env: Env, fr: FlowReq)
    requires DistinctIds(env)
    ensures |FlowKeys(env, fr)| == FlowItems(fr)
  {
    hide RefsOf, FlowId, JournalKeys, OutboxKeys, EventIds, EventKeys, BalanceKeys, DistinctIds;
    var n := |fr.steps|;
    var j, o, e, b := JournalKeys(env, fr, n), OutboxKeys(env, fr, n), EventKeys(EventIds(fr.steps, n)),
      BalanceKeys(fr.tenant, RefsOf(fr));
    JournalKeysSize(env, fr, n);
    JournalKinds(env, fr, n);
    OutboxKeysSize(env, fr, n);
    OutboxKinds(env, fr, n);
    EventKeysSize(EventIds(fr.steps, n));
    RefsDistinct(fr);
    BalanceKeysSize(fr.tenant, RefsOf(fr));
    OtherKinds(EventIds(fr.steps, n), fr.tenant, RefsOf(fr));
    DisjointSize(j, o);
    DisjointSize(j + o, e);
    DisjointSize(j + o + e, b);
    DisjointSize(j + o + e + b, {FlowK(fr.tenant, FlowId(env)), FIdempK(fr.tenant, fr.key)});
  }

  /** With distinct event ids a step accounts for three items. */
  lemma {:induction false} DistinctEvents(steps: seq<StepInput>, n: nat)
    requires n <= |steps| && forall i, j | 0 <= i < j < |steps| :: steps[i].eventId != steps[j].eventId
    ensures |EventIds(steps, n)| == n
    ensures forall e :: e in EventIds(steps, n) ==> exists i :: 0 <= i < n && steps[i].eventId == e
  {
    if n > 0 {
      DistinctEvents(steps, n - 1);
    }
  }

  // ------------------------------------------------------------------------------------------
  // Whole handlers
  // ------------------------------------------------------------------------------------------

  function Extra(r: Request): nat {
    if r.CreateReservation? then 3 else if Updates(r) then 2 else 0
  }

  function TailKeys(r: Request, env: Env, row: Option<HeldRow>, fres: FlowResult): set<Key>
    requires !fres.FlowFail?
  {
    if r.CreateReservation?
      then {ResK(r.tenant, env.Id(UsedOf(fres))), RIdempK(r.tenant, r.key), ObxK(env.Id(UsedOf(fres) + 1))}
    else if Updates(r) && row.Some? then {ResK(TenantOf(r), row.value.res.id), ObxK(env.Id(UsedOf(fres)))}
    else {}
  }

  lemma {:induction false} TailKeysAre(r: Request, env: Env, row: Option<HeldRow>, fres: FlowResult)
    requires !fres.FlowFail?
    ensures KeySet(TailWrites(r, env, row, fres)) == TailKeys(r, env, row, fres)
  {
    hide ReservationToItem, Updated;
    var ws := TailWrites(r, env, row, fres);
    if r.CreateReservation? {
      assert ws[0] in ws && ws[1] in ws && ws[2] in ws;
    } else if Updates(r) && row.Some? {
      assert ws[0] in ws && ws[1] in ws;
    }
  }

  /** The number of items a handler that posts its flow tries to commit. */
  lemma {:induction false} ItemCount(r: Request, env: Env, t: Table)
    requires PostedBy(r, env, t).Some? && DistinctIds(env) && (Updates(r) ==> WayOf(r, t).row.Some?)
    ensures |AddAll(Empty, StepAll(r, env, t)).puts| == FlowItems(PostedBy(r, env, t).value) + Extra(r)
  {
    hide WayOf, FlowSpec, KeySet, FlowKeys, DistinctIds, TailWrites, FlowWrites, RefsOf, FlowItems, ParseSteps;
    var way := WayOf(r, t);
    var fres := FlowSpec(env, way.raw, t);
    var fr := Parsed(way.raw);
    PostedIs(env, way.raw, t);
    var loaded := LoadedAll(t, fr.tenant, RefsOf(fr));
    PutsAreKeys(StepAll(r, env, t));
    KeySetConcat(FlowWrites(env, fr, loaded), TailWrites(r, env, way.row, fres));
    FlowKeysAre(env, fr, loaded);
    FlowKeysSize(env, fr);
    TailKeysAre(r, env, way.row, fres);
    UsedIs(env, way.raw, t);
    TailApart(r, env, way.row, fres, fr);
  }

  lemma {:induction false} UsedIs(env: Env, raw: FlowReq, t: Table)
    requires FlowSpec(env, raw, t).FlowPosted?
    ensures UsedOf(FlowSpec(env, raw, t)) == StepBase(Parsed(raw).steps, |Parsed(raw).steps|)
  {
    hide RefsOf, StepBase, FlowWrites, RunOf, StepRows, StepOk, Overdrawn, AmountsOk, ParseSteps, KnownFlow,
      FirstProblem, LoadedAll;
  }

  lemma {:induction false} FlowKeyKinds(env: Env, fr: FlowReq, m: nat, k: Key)
    requires DistinctIds(env) && m >= StepBase(fr.steps, |fr.steps|)
    requires k in FlowKeys(env, fr)
    ensures !k.ResK? && !k.RIdempK? && k != ObxK(env.Id(m))
  {
    hide RefsOf, FlowId, JournalKeys, OutboxKeys, EventIds, EventKeys, BalanceKeys, StepBase, DistinctIds;
    var n := |fr.steps|;
    JournalKinds(env, fr, n);
    OutboxKinds(env, fr, n);
    OutboxBelow(env, fr, n, m);
    OtherKinds(EventIds(fr.steps, n), fr.tenant, RefsOf(fr));
  }

  lemma {:induction false} JournalKinds(env: Env, fr: FlowReq, n: nat)
    requires n <= |fr.steps|
    ensures forall k | k in JournalKeys(env, fr, n) :: k.JrnK?
  {
    if n > 0 {
      JournalKinds(env, fr, n - 1);
    }
  }

  lemma {:induction false} OtherKinds(events: set<string>, tenant: string, refs: seq<BalRef>)
    ensures forall k | k in EventKeys(events) :: k.EvtK?
    ensures forall k | k in BalanceKeys(tenant, refs) :: k.BalK?
  {
  }

  lemma {:induction false} DisjointSize<T>(a: set<T>, b: set<T>)
    requires a !! b
    ensures |a + b| == |a| + |b|
  {
  }

  /** The items after the flow are none of the flow's. */
  lemma {:induction false} TailApart(r: Request, env: Env, row: Option<HeldRow>, fres: FlowResult, fr: FlowReq)
    requires !fres.FlowFail? && DistinctIds(env) && UsedOf(fres) == StepBase(fr.steps, |fr.steps|)
        && (Updates(r) ==> row.Some?)
    ensures |FlowKeys(env, fr) + TailKeys(r, env, row, fres)| == |FlowKeys(env, fr)| + Extra(r)
  {
    hide FlowKeys, StepBase, DistinctIds;
    forall k | k in FlowKeys(env, fr) ensures k !in TailKeys(r, env, row, fres) {
      FlowKeyKinds(env, fr, UsedOf(fres), k);
      FlowKeyKinds(env, fr, UsedOf(fres) + 1, k);
    }
    DisjointSize(FlowKeys(env, fr), TailKeys(r, env, row, fres));
  }

  lemma {:induction false} NeverClassifiedTooLarge(t: Table, b: Buffer)
    ensures Classify(t, b) != FlowTooLarge
  {
  }

  /** A handler that posts is refused as too large exactly when flow and reservation together need more
      than 100 items. */
  lemma {:induction false} TooLargeIff(r: Request, env: Env, t: Table)
    requires Sound(t) && PostedBy(r, env, t).Some? && DistinctIds(env)
    ensures Alone(r, env, t).answer == Err(FlowTooLarge) <==> FlowItems(PostedBy(r, env, t).value) + Extra(r) > 100
  {
    hide WayOf, FlowSpec, FlowItems, After, StepAll, Alone, AllHold, Written, Classify, AddAll, TailWrites, WritesOf;
    AloneIs(r, env, t);
    WayRow(r, t);
    ItemCount(r, env, t);
    NeverClassifiedTooLarge(t, AddAll(Empty, StepAll(r, env, t)));
    OutcomeIs(r, env, t);
    SomeItems(PostedBy(r, env, t).value);
  }

  lemma {:induction false} SomeItems(fr: FlowReq)
    ensures FlowItems(fr) >= 2
  {
  }

  lemma {:induction false} WayRow(r: Request, t: Table)
    requires WayOf(r, t).Flows?
    ensures Updates(r) ==> WayOf(r, t).row.Some?
    ensures !r.CreateAccount?
  {
    hide CreateFlow, CommitFlow, ReleaseFlow, ExpireFlow, Closed;
  }

  lemma {:induction false} OutcomeIs(r: Request, env: Env, t: Table)
    requires PostedBy(r, env, t).Some?
    ensures Outcome1(r, env, t).Done? && Outcome1(r, env, t).writes == StepAll(r, env, t)
  {
    hide FlowSpec, WayOf, TailWrites, WritesOf, After;
    var way := WayOf(r, t);
    WayRow(r, t);
    AfterDone(r, env, way.row, FlowSpec(env, way.raw, t));
    AfterIs(r, env, way.row, FlowSpec(env, way.raw, t));
  }

  lemma {:induction false} AfterDone(r: Request, env: Env, row: Option<HeldRow>, fres: FlowResult)
    requires !fres.FlowFail? && !r.CreateAccount? && (Updates(r) ==> row.Some?)
    ensures After(r, env, row, fres).Done?
  {
  }

  /** With distinct event ids: 2 + 3S + K items for S steps over K pairs. */
  lemma {:induction false} FlowItemsDistinct(fr: FlowReq)
    requires forall i, j | 0 <= i < j < |fr.steps| :: fr.steps[i].eventId != fr.steps[j].eventId
    ensures FlowItems(fr) == 2 + 3 * |fr.steps| + |RefsOf(fr)|
  {
    hide RefsOf;
    DistinctEvents(fr.steps, |fr.steps|);
  }
}
