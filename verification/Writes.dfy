/** Every write a handler can buffer fits its key, and carries the version its condition allows. */
module Writes {
  import opened Ledger
  import opened Keys
  import opened Items
  import opened Ordering
  import opened Handlers
  import opened FlowFacts

  /** An item stored under `k` is of the kind, and has the identity, that `k` names; versions start at 1. */
  predicate Typed(k: Key, item: Item) {
    match k
    case AccK(t, a) => item.AccItem? && item.account.id == a && item.account.tenantId == t
    case AccUK(_, _, _, _, _) => item.AccUItem?
    case BalK(_, _, _) => item.BalItem? && item.version >= 1
    case JrnK(t, j) => item.JrnItem? && item.journal.id == j && item.journal.tenantId == t
    case EvtK(_) => item.EvtItem?
    case FlowK(t, f) => item.FlowItem? && item.run.id == f && item.run.tenantId == t
    case FIdempK(_, _) => item.FIdempItem?
    case ObxK(id) => item.ObxItem? && item.event.id == id
    case ResK(t, id) => item.ResItem? && item.reservation.id == id && item.reservation.tenantId == t
      && item.resVersion >= 1
    case RIdempK(_, _) => item.RIdempItem?
  }

  /** A new item has version 1 if it has one at all; a replaced item's version rises by exactly 1. */
  predicate GoodWrite(w: Write) {
    && Typed(w.key, w.item)
    && match w.cond
       case NoCond => false
       case NotExists => VersionOf(w.item) == None || VersionOf(w.item) == Some(1)
       case VersionEquals(v) => VersionOf(w.item) == Some(v + 1)
  }

  ghost predicate GoodWrites(ws: seq<Write>) {
    && (forall w | w in ws :: GoodWrite(w))
    && (forall v, w | v in ws && w in ws && v.key == w.key :: v.cond == w.cond)
  }

  /** What the table needs for the concurrency argument. */
  ghost predicate Sound(t: Table) {
    forall k | k in t :: Typed(k, t[k])
  }

  lemma {:induction false} GoodPut(ws: seq<Write>, k: Key)
    requires GoodWrites(ws)
    requires k in AddAll(Empty, ws).puts
    ensures var p := AddAll(Empty, ws).puts[k]; GoodWrite(Write(k, p.item, p.cond))
  {
    Coalesced(ws, k);
    Witnesses(ws, k);
    var v :| v in ws && v.key == k && v.item == LastItem(ws, k).value;
    var w :| w in ws && w.key == k && w.cond == FirstCond(ws, k).value;
    assert GoodWrite(v) && v.cond == w.cond;
  }

  predicate LoadedOk(loaded: seq<Loaded>) {
    forall i | 0 <= i < |loaded| :: loaded[i].version >= 0 && (!loaded[i].existed ==> loaded[i].version == 0)
  }

  lemma {:induction false} StepWritesGood(env: Env, fr: FlowReq, i: nat)
    requires i < |fr.steps|
    ensures forall w | w in StepWrites(env, fr, i) :: GoodWrite(w)
  {
    EntryWritesKinds(env, fr, i, |fr.steps[i].entries|);
  }

  lemma {:induction false} StepsWritesGood(env: Env, fr: FlowReq, n: nat)
    requires n <= |fr.steps|
    ensures forall w | w in StepsWrites(env, fr, n) :: GoodWrite(w)
  {
    if n > 0 {
      StepsWritesGood(env, fr, n - 1);
      StepWritesGood(env, fr, n - 1);
    }
  }

  lemma {:induction false} BalWritesOnce(fr: FlowReq, loaded: seq<Loaded>, v: Write, w: Write)
    requires |loaded| == |RefsOf(fr)|
    requires v in BalWrites(fr, loaded, |loaded|) && w in BalWrites(fr, loaded, |loaded|) && v.key == w.key
    ensures v == w
  {
    var ws := BalWrites(fr, loaded, |loaded|);
    RefsSorted(AllEntries(fr.steps));
    var i :| 0 <= i < |ws| && ws[i] == v;
    var j :| 0 <= j < |ws| && ws[j] == w;
    IncreasingDistinct(RefsOf(fr), i, j);
  }

  lemma {:induction false} BalWritesGood(fr: FlowReq, loaded: seq<Loaded>, w: Write)
    requires |loaded| == |RefsOf(fr)| && LoadedOk(loaded)
    requires w in BalWrites(fr, loaded, |loaded|)
    ensures w.key.BalK? && GoodWrite(w)
  {
    var i :| 0 <= i < |loaded| && BalWrites(fr, loaded, |loaded|)[i] == w;
  }

  /** Good writes of a flow: balances once each, everything else always as a new item, and nothing that
      belongs to a reservation. */
  ghost predicate FlowGood(ws: seq<Write>) {
    && GoodWrites(ws)
    && (forall w | w in ws :: !w.key.ResK? && !w.key.RIdempK? && (w.key.BalK? || w.cond == NotExists))
  }

  lemma {:induction false} NoWritesGood()
    ensures FlowGood([])
  {
  }

  lemma {:induction false} FlowWritesGood(env: Env, fr: FlowReq, loaded: seq<Loaded>)
    requires |loaded| == |RefsOf(fr)| && LoadedOk(loaded)
    ensures FlowGood(FlowWrites(env, fr, loaded))
  {
    hide RefsOf, StepsWrites, StepRows, LoadedOk, Sum;
    var ws, bs := FlowWrites(env, fr, loaded), BalWrites(fr, loaded, |loaded|);
    StepsWritesKinds(env, fr, |fr.steps|);
    StepsWritesGood(env, fr, |fr.steps|);
    forall w | w in ws
      ensures GoodWrite(w) && !w.key.ResK? && !w.key.RIdempK? && (w.key.BalK? ==> w in bs)
          && (w.key.BalK? || w.cond == NotExists)
    {
      if w in bs {
        BalWritesGood(fr, loaded, w);
      } else {
        assert w in OpenWrites(env, fr) || w in StepsWrites(env, fr, |fr.steps|) || w in FlowLast(env, fr);
      }
    }
    forall v, w | v in ws && w in ws && v.key == w.key ensures v.cond == w.cond {
      if v.key.BalK? {
        BalWritesOnce(fr, loaded, v, w);
      }
    }
  }

  predicate RowOk(r: Request, row: Option<HeldRow>) {
    row.Some? ==> row.value.res.tenantId == TenantOf(r) && row.value.version >= 1
  }

  lemma {:induction false} GoodAppend(ws: seq<Write>, extra: seq<Write>)
    requires FlowGood(ws)
    requires forall w | w in extra :: GoodWrite(w) && !w.key.BalK? && (w.key.ResK? || w.cond == NotExists)
    requires forall v, w | v in extra && w in extra && v.key == w.key :: v.cond == w.cond
    ensures GoodWrites(ws + extra)
  {
  }

  lemma {:induction false} UpdateWritesGood(ws: seq<Write>, r: Request, row: HeldRow, after: Reservation, e: Event)
    requires FlowGood(ws)
    requires RowOk(r, Some(row)) && after.id == row.res.id && after.tenantId == row.res.tenantId
    ensures GoodWrites(ws + UpdateWrites(r, row, after, e))
  {
    GoodAppend(ws, UpdateWrites(r, row, after, e));
  }

  function WritesOf(res: FlowResult): seq<Write> {
    if res.FlowPosted? then res.writes else []
  }

  function UsedOf(res: FlowResult): nat {
    if res.FlowPosted? then res.used else 0
  }

  /** The reservation, and the event, with which commit, release and expiry end. */
  function Updated(r: Request, res: Reservation): Reservation {
    match r
    case CommitReservation(_, _, _, _, amount) => Committing(res, amount)
    case ReleaseReservation(_, _, _, amount) => Releasing(res, amount)
    case _ => Expiring(res)
  }

  function UpdatedEvent(r: Request, id: string, res: Reservation): Event {
    match r
    case CommitReservation(_, _, key, _, _) =>
      Event(id, res.tenantId, res.id, "RESERVATION_COMMITTED", res.id + ":committed:" + key)
    case ReleaseReservation(_, _, key, _) =>
      Event(id, res.tenantId, res.id, "RESERVATION_RELEASED", res.id + ":released:" + key)
    case _ => Event(id, res.tenantId, res.id, "RESERVATION_EXPIRED", res.id + ":expired")
  }

  predicate Updates(r: Request) {
    r.CommitReservation? || r.ReleaseReservation? || r.ExpireReservation?
  }

  /** The three row-updating handlers end alike. */
  lemma {:induction false} AfterUpdates(r: Request, env: Env, row: HeldRow, res: FlowResult)
    requires Updates(r) && !res.FlowFail?
    ensures After(r, env, Some(row), res).Done?
    ensures After(r, env, Some(row), res).writes
         == WritesOf(res) + UpdateWrites(r, row, Updated(r, row.res), UpdatedEvent(r, env.Id(UsedOf(res)), row.res))
  {
  }

  function CreateWrites(r: Request, env: Env, used: nat, flowRunId: string): seq<Write>
    requires r.CreateReservation?
  {
    var rsv := NewReservation(r, env.Id(used), flowRunId, env.now);
    [Fresh(ResK(r.tenant, rsv.id), ReservationToItem(rsv, 1)),
     Fresh(RIdempK(r.tenant, r.key), RIdempItem(rsv.id)),
     OutboxWrite(CreatedEvent(env.Id(used + 1), rsv))]
  }

  lemma {:induction false} AfterCreates(r: Request, env: Env, row: Option<HeldRow>, res: FlowResult)
    requires r.CreateReservation? && !res.FlowFail?
    ensures After(r, env, row, res).Done?
    ensures After(r, env, row, res).writes == WritesOf(res) + CreateWrites(r, env, UsedOf(res), res.run.id)
  {
  }

  lemma {:induction false} CreateWritesGood(ws: seq<Write>, r: Request, env: Env, used: nat, flowRunId: string)
    requires FlowGood(ws) && r.CreateReservation?
    ensures GoodWrites(ws + CreateWrites(r, env, used, flowRunId))
  {
    hide ParseAccountOwner;
    GoodAppend(ws, CreateWrites(r, env, used, flowRunId));
  }

  /** The writes of every handler that reaches its commit. */
  lemma {:induction false} AfterGood(r: Request, env: Env, row: Option<HeldRow>, res: FlowResult)
    requires RowOk(r, row)
    requires FlowGood(WritesOf(res))
    requires After(r, env, row, res).Done?
    ensures GoodWrites(After(r, env, row, res).writes)
  {
    if r.CreateReservation? {
      AfterCreates(r, env, row, res);
      CreateWritesGood(WritesOf(res), r, env, UsedOf(res), res.run.id);
    } else if Updates(r) {
      AfterUpdates(r, env, row.value, res);
      UpdateWritesGood(WritesOf(res), r, row.value, Updated(r, row.value.res),
        UpdatedEvent(r, env.Id(UsedOf(res)), row.value.res));
    }
  }
}
