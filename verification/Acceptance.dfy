/** Exactly which flow submissions are posted. */
module Acceptance {
  import opened Ledger
  import opened Keys
  import opened Items
  import opened Ordering
  import opened Handlers
  import opened FlowFacts
  import opened Writes
  import opened Protocol
  import opened Serializability
  import opened Atomic
  import opened Journals
  import opened Effects
  import opened Limits

  /** What the request itself and the balances must satisfy. */
  ghost predicate Sensible(raw: FlowReq, t: Table) {
    var fr := Parsed(raw);
    && AmountsOk(raw.steps)
    && KnownFlow(t, fr.tenant, fr.key) == None
    && (forall i | 0 <= i < |fr.steps| :: StepOk(fr.steps[i]))
    && (forall ref | ref in RefsOf(fr) ::
          Problem(t, fr.tenant, ref) == None && !Overdrawn(fr, LoadedAt(t, fr.tenant, ref), ref))
  }

  /** And what its commit must find: few enough items, none of them there already, balances apart. */
  ghost predicate Acceptable(raw: FlowReq, env: Env, t: Table) {
    && Sensible(raw, t)
    && FlowItems(Parsed(raw)) <= 100
    && (forall k | k in FlowKeys(env, Parsed(raw)) && !k.BalK? :: k !in t)
  }

  lemma {:induction false} PostsIffSensible(env: Env, raw: FlowReq, t: Table)
    ensures FlowSpec(env, raw, t).FlowPosted? <==> Sensible(raw, t)
  {
    hide AmountsOk, RefsOf, StepOk, Overdrawn, LoadedAt, FirstProblem, Problem, ParseSteps, KnownFlow, FlowWrites,
      RunOf, StepRows, StepBase;
    var fr := Parsed(raw);
    KnownItem(t, fr.tenant, fr.key);
    NoProblem(t, fr.tenant, RefsOf(fr));
    var loaded := LoadedAll(t, fr.tenant, RefsOf(fr));
    if FlowSpec(env, raw, t).FlowPosted? {
      PostedIs(env, raw, t);
      forall ref | ref in RefsOf(fr) ensures !Overdrawn(fr, LoadedAt(t, fr.tenant, ref), ref) {
        var j :| 0 <= j < |RefsOf(fr)| && RefsOf(fr)[j] == ref;
        assert loaded[j] == LoadedAt(t, fr.tenant, ref);
      }
    } else if Sensible(raw, t) {
      forall i | 0 <= i < |loaded| ensures !Overdrawn(fr, loaded[i], RefsOf(fr)[i]) {
        assert RefsOf(fr)[i] in RefsOf(fr);
      }
    }
  }

  lemma {:induction false} KnownItem(t: Table, tenant: string, key: string)
    ensures KnownFlow(t, tenant, key).Some? ==> KnownFlow(t, tenant, key).value.FlowItem?
  {
  }

  /** On the table it read, a flow's balance conditions hold; so its commit succeeds exactly when its new
      rows are new. */
  lemma {:induction false} HoldsIffNew(env: Env, fr: FlowReq, t: Table)
    requires Sound(t)
    ensures AllHold(t, AddAll(Empty, FlowWrites(env, fr, LoadedAll(t, fr.tenant, RefsOf(fr)))))
            <==> forall k | k in FlowKeys(env, fr) && !k.BalK? :: k !in t
  {
    hide RefsOf, FlowWrites, FlowKeys, LoadedAt, CondHolds;
    var loaded := LoadedAll(t, fr.tenant, RefsOf(fr));
    var ws := FlowWrites(env, fr, loaded);
    var b := AddAll(Empty, ws);
    EmptyValid();
    AddAllValid(Empty, ws);
    FlowKeysAre(env, fr, loaded);
    forall k | k in b.puts ensures CondHolds(t, k, b.puts[k].cond) <==> k.BalK? || k !in t {
      CondOnTable(env, fr, t, k);
    }
    assert forall k :: k in b.puts <==> k in FlowKeys(env, fr);
  }

  lemma {:induction false} CondOnTable(env: Env, fr: FlowReq, t: Table, k: Key)
    requires Sound(t)
    requires k in AddAll(Empty, FlowWrites(env, fr, LoadedAll(t, fr.tenant, RefsOf(fr)))).puts
    ensures CondHolds(t, k, AddAll(Empty, FlowWrites(env, fr, LoadedAll(t, fr.tenant, RefsOf(fr)))).puts[k].cond)
        <==> k.BalK? || k !in t
  {
    hide RefsOf, FlowWrites, AddAll, FirstCond, LastItem;
    var loaded := LoadedAll(t, fr.tenant, RefsOf(fr));
    var ws := FlowWrites(env, fr, loaded);
    Coalesced(ws, k);
    if k.BalK? {
      var ref := BalRef(k.account, k.currency);
      if k.tenant == fr.tenant && ref in RefsOf(fr) {
        var j :| 0 <= j < |RefsOf(fr)| && RefsOf(fr)[j] == ref;
        FlowWritesBalance(env, fr, loaded, j);
        assert k in t ==> Typed(k, t[k]);
      } else {
        FlowSkipsBalance(env, fr, loaded, k);
      }
    } else {
      FlowConds(env, fr, loaded, k);
    }
  }

  /** A flow submission, alone on a table, is posted if and only if it is acceptable there. */
  lemma {:induction false} PostedIffAcceptable(raw: FlowReq, env: Env, t: Table)
    requires Sound(t) && DistinctIds(env)
    ensures (exists u :: Takes(Request.ExecuteFlow(raw), env, t, u)) <==> Acceptable(raw, env, t)
  {
    hide AmountsOk, RefsOf, StepOk, Overdrawn, LoadedAt, Problem, ParseSteps, KnownFlow, FlowSpec, FlowKeys, FlowItems,
      AllHold, Written, Classify, Alone, DistinctIds, FlowWrites, AddAll, Results;
    var r := Request.ExecuteFlow(raw);
    var fr := Parsed(raw);
    AloneIs(r, env, t);
    PostsIffSensible(env, raw, t);
    if FlowSpec(env, raw, t).FlowPosted? {
      PostedIs(env, raw, t);
      ItemCount(r, env, t);
      SomeItems(fr);
      StepAllIs(raw, env, t);
      OutcomeIs(r, env, t);
      HoldsIffNew(env, fr, t);
      if Acceptable(raw, env, t) {
        assert Takes(r, env, t, Alone(r, env, t).wrote.value);
      }
    } else {
      forall u ensures !Takes(r, env, t, u) {
        if Takes(r, env, t, u) {
          ReplayWritesNothing(raw, env, t);
        }
      }
    }
  }

  lemma {:induction false} StepAllIs(raw: FlowReq, env: Env, t: Table)
    requires FlowSpec(env, raw, t).FlowPosted?
    ensures StepAll(Request.ExecuteFlow(raw), env, t)
        == FlowWrites(env, Parsed(raw), LoadedAll(t, Parsed(raw).tenant, RefsOf(Parsed(raw))))
  {
    hide RefsOf, FlowWrites, FlowSpec, ParseSteps;
    PostedIs(env, raw, t);
    var ws := FlowWrites(env, Parsed(raw), LoadedAll(t, Parsed(raw).tenant, RefsOf(Parsed(raw))));
    assert ws + [] == ws;
  }

  lemma {:induction false} ReplayWritesNothing(raw: FlowReq, env: Env, t: Table)
    requires Sound(t) && !FlowSpec(env, raw, t).FlowPosted?
    ensures Alone(Request.ExecuteFlow(raw), env, t).wrote == None
  {
    hide FlowSpec, Alone, AllHold, Written, Classify, Results;
    AloneIs(Request.ExecuteFlow(raw), env, t);
  }

  // ------------------------------------------------------------------------------------------
  // Any handler that posts
  // ------------------------------------------------------------------------------------------

  /** What the commit of a posting handler must find: few enough items, and none of its new rows there; the
      reservation row that a commit, release or expiry replaces is the one it read. */
  ghost predicate Committable(r: Request, env: Env, t: Table)
    requires PostedBy(r, env, t).Some?
  {
    var fr := PostedBy(r, env, t).value;
    && FlowItems(fr) + Extra(r) <= 100
    && (forall k | k in FlowKeys(env, fr) && !k.BalK? :: k !in t)
    && (forall k | k in TailKeys(r, env, WayOf(r, t).row, FlowSpec(env, WayOf(r, t).raw, t))
      && !(Updates(r) && k.ResK?) :: k !in t)
  }

  lemma {:induction false} HeadCondOnTable(r: Request, env: Env, t: Table, fr: FlowReq, tail: seq<Write>, k: Key)
    requires Sound(t) && k in FlowKeys(env, fr)
    ensures var ws := FlowWrites(env, fr, LoadedAll(t, fr.tenant, RefsOf(fr))) + tail;
            FirstCond(ws, k).Some? && (CondHolds(t, k, FirstCond(ws, k).value) <==> k.BalK? || k !in t)
  {
    hide RefsOf, FlowWrites, AddAll, FirstCond, LastItem, FlowKeys, LoadedAt, CondHolds;
    var loaded := LoadedAll(t, fr.tenant, RefsOf(fr));
    var ws := FlowWrites(env, fr, loaded);
    EmptyValid();
    AddAllValid(Empty, ws);
    FlowKeysAre(env, fr, loaded);
    Coalesced(ws, k);
    CondOnTable(env, fr, t, k);
    FirstCondConcat(ws, tail, k);
  }

  lemma {:induction false} TailConds(r: Request, env: Env, row: Option<HeldRow>, fres: FlowResult, k: Key)
    requires !fres.FlowFail? && k in TailKeys(r, env, row, fres)
    ensures FirstCond(TailWrites(r, env, row, fres), k)
         == if Updates(r) && k.ResK? then Some(VersionEquals(row.value.version)) else Some(NotExists)
  {
    hide ReservationToItem, Updated, UpdatedEvent, NewReservation, RunOf;
    var ws := TailWrites(r, env, row, fres);
    if r.CreateReservation? {
      CreatedKeys(r, env, fres);
      TripleConds(ws[0], ws[1], ws[2], k);
      assert ws == [ws[0], ws[1], ws[2]];
    } else {
      UpdatedKeys(r, env, row.value, fres);
      PairConds(ws[0], ws[1], k);
    }
  }

  lemma {:induction false} CreatedKeys(r: Request, env: Env, fres: FlowResult)
    requires r.CreateReservation? && !fres.FlowFail?
    ensures var ws := CreateWrites(r, env, UsedOf(fres), fres.run.id);
            ws[0].key == ResK(r.tenant, env.Id(UsedOf(fres))) && ws[2].key == ObxK(env.Id(UsedOf(fres) + 1))
  {
    hide ReservationToItem;
  }

  lemma {:induction false} UpdatedKeys(r: Request, env: Env, row: HeldRow, fres: FlowResult)
    requires Updates(r) && !fres.FlowFail?
    ensures UpdatedEvent(r, env.Id(UsedOf(fres)), row.res).id == env.Id(UsedOf(fres))
  {
  }

  lemma {:induction false} TailCondOnTable(r: Request, env: Env, t: Table, fr: FlowReq, row: Option<HeldRow>,
      fres: FlowResult, k: Key)
    requires Sound(t) && DistinctIds(env) && !fres.FlowFail? && UsedOf(fres) == StepBase(fr.steps, |fr.steps|)
    requires Updates(r) ==> row.Some? && row == RowOf(r, t)
    requires k in TailKeys(r, env, row, fres)
    ensures var ws := FlowWrites(env, fr, LoadedAll(t, fr.tenant, RefsOf(fr))) + TailWrites(r, env, row, fres);
            FirstCond(ws, k).Some? && (CondHolds(t, k, FirstCond(ws, k).value) <==> (Updates(r) && k.ResK?) || k !in t)
  {
    hide RefsOf, FlowWrites, FirstCond, FlowKeys, TailWrites, StepBase, DistinctIds;
    var loaded := LoadedAll(t, fr.tenant, RefsOf(fr));
    FlowKeysAre(env, fr, loaded);
    if k in FlowKeys(env, fr) {
      FlowKeyKinds(env, fr, UsedOf(fres), k);
      FlowKeyKinds(env, fr, UsedOf(fres) + 1, k);
    }
    NotWritten(FlowWrites(env, fr, loaded), k);
    TailConds(r, env, row, fres, k);
    FirstCondConcat(FlowWrites(env, fr, loaded), TailWrites(r, env, row, fres), k);
    if Updates(r) && k.ResK? {
      RowVersion(r, t);
    }
  }

  lemma {:induction false} RowVersion(r: Request, t: Table)
    requires Sound(t) && RowOf(r, t).Some?
    ensures var k := ResK(TenantOf(r), ReservationIdOf(r));
            && k == ResK(TenantOf(r), RowOf(r, t).value.res.id)
            && CondHolds(t, k, VersionEquals(RowOf(r, t).value.version))
  {
    var k := ResK(TenantOf(r), ReservationIdOf(r));
    assert Typed(k, t[k]);
  }

  lemma {:induction false} WayRowIs(r: Request, t: Table)
    requires WayOf(r, t).Flows? && Updates(r)
    ensures WayOf(r, t).row == RowOf(r, t) && RowOf(r, t).Some?
  {
    hide CommitFlow, ReleaseFlow, ExpireFlow, Closed;
  }

  /** Every handler that posts its flow commits, alone on a table, exactly when it is committable there. */
  lemma {:induction false} CommitsIff(r: Request, env: Env, t: Table)
    requires Sound(t) && DistinctIds(env) && PostedBy(r, env, t).Some?
    ensures (exists u :: Takes(r, env, t, u)) <==> Committable(r, env, t)
  {
    hide WayOf, FlowSpec, FlowKeys, TailKeys, FlowItems, AllHold, Written, Classify, Alone, DistinctIds, FlowWrites,
      AddAll, TailWrites, RefsOf, KeySet, RowOf;
    var way := WayOf(r, t);
    var fres := FlowSpec(env, way.raw, t);
    var fr := Parsed(way.raw);
    var ws := StepAll(r, env, t);
    AloneIs(r, env, t);
    PostedIs(env, way.raw, t);
    UsedIs(env, way.raw, t);
    WayRow(r, t);
    if Updates(r) {
      WayRowIs(r, t);
    }
    ItemCount(r, env, t);
    SomeItems(fr);
    OutcomeIs(r, env, t);
    AllHoldIff(r, env, t);
    if Committable(r, env, t) {
      assert Takes(r, env, t, Alone(r, env, t).wrote.value);
    }
  }

  lemma {:induction false} AllHoldIff(r: Request, env: Env, t: Table)
    requires Sound(t) && DistinctIds(env) && PostedBy(r, env, t).Some?
    ensures AllHold(t, AddAll(Empty, StepAll(r, env, t))) <==>
              && (forall k | k in FlowKeys(env, PostedBy(r, env, t).value) && !k.BalK? :: k !in t)
              && (forall k | k in TailKeys(r, env, WayOf(r, t).row, FlowSpec(env, WayOf(r, t).raw, t))
                && !(Updates(r) && k.ResK?) :: k !in t)
  {
    hide WayOf, FlowSpec, FlowKeys, TailKeys, DistinctIds, FlowWrites, AddAll, TailWrites, RefsOf, RowOf, FirstCond,
      LastItem, StepBase, LoadedAt, CondHolds;
    var way := WayOf(r, t);
    var fres := FlowSpec(env, way.raw, t);
    var fr := Parsed(way.raw);
    PostedIs(env, way.raw, t);
    UsedIs(env, way.raw, t);
    if Updates(r) {
      WayRowIs(r, t);
    }
    var loaded := LoadedAll(t, fr.tenant, RefsOf(fr));
    var head, tail := FlowWrites(env, fr, loaded), TailWrites(r, env, way.row, fres);
    var ws := head + tail;
    var b := AddAll(Empty, ws);
    EmptyValid();
    AddAllValid(Empty, ws);
    FlowKeysAre(env, fr, loaded);
    TailKeysAre(r, env, way.row, fres);
    KeySetConcat(head, tail);
    forall k | k in FlowKeys(env, fr) ensures k in b.puts && (CondHolds(t, k, b.puts[k].cond) <==> k.BalK? || k !in t) {
      HeadCondOnTable(r, env, t, fr, tail, k);
      Coalesced(ws, k);
    }
    forall k | k in TailKeys(r, env, way.row, fres)
      ensures k in b.puts && (CondHolds(t, k, b.puts[k].cond) <==> (Updates(r) && k.ResK?) || k !in t)
    {
      TailCondOnTable(r, env, t, fr, way.row, fres, k);
      Coalesced(ws, k);
    }
    forall k | k in b.puts ensures k in FlowKeys(env, fr) || k in TailKeys(r, env, way.row, fres) {
      assert k in KeySet(ws);
    }
  }
}
