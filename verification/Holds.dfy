/** The life of a reservation: conservation of its amount, its status law, and what never goes back.
    Nothing in the handlers checks these; they follow from the transitions. */
module Holds {
  import opened Ledger
  import opened Keys
  import opened Items
  import opened Handlers
  import opened FlowFacts
  import opened Writes
  import opened Protocol
  import opened Serializability
  import opened Atomic
  import opened Journals
  import opened Effects
  import opened Reachable

  // ------------------------------------------------------------------------------------------
  // One step
  // ------------------------------------------------------------------------------------------

  /** The reservation a creation adds. */
  function Created(r: Request, env: Env, t: Table): Reservation
    requires r.CreateReservation? && WayOf(r, t).Flows? && !FlowSpec(env, WayOf(r, t).raw, t).FlowFail?
  {
    var fres := FlowSpec(env, WayOf(r, t).raw, t);
    NewReservation(r, env.Id(UsedOf(fres)), fres.run.id, env.now)
  }

  lemma {:induction false} FlowSkipsReservations(env: Env, raw: FlowReq, t: Table, k: Key)
    requires (k.ResK? || k.RIdempK?) && !FlowSpec(env, raw, t).FlowFail?
    ensures LastItem(WritesOf(FlowSpec(env, raw, t)), k) == None
        && FirstCond(WritesOf(FlowSpec(env, raw, t)), k) == None
  {
    hide FlowSpec, FlowWrites, LastItem, FirstCond, RefsOf, ParseSteps;
    if FlowSpec(env, raw, t).FlowPosted? {
      PostedIs(env, raw, t);
      FlowLeavesAlone(env, Parsed(raw), LoadedAll(t, raw.tenant, RefsOf(Parsed(raw))), k);
    } else {
      NotWritten([], k);
    }
  }

  lemma {:induction false} TailAt(r: Request, env: Env, row: Option<HeldRow>, fres: FlowResult, k: Key)
    requires !fres.FlowFail? && k.ResK? && (Updates(r) ==> row.Some?)
    ensures var ws := TailWrites(r, env, row, fres);
            && LastItem(ws, k) ==
               (if r.CreateReservation? then
                  var rsv := NewReservation(r, env.Id(UsedOf(fres)), fres.run.id, env.now);
                  if k == ResK(r.tenant, rsv.id) then Some(ReservationToItem(rsv, 1)) else None
                else if Updates(r) && k == ResK(TenantOf(r), row.value.res.id)
                then Some(ReservationToItem(Updated(r, row.value.res), row.value.version + 1)) else None)
            && FirstCond(ws, k) ==
               (if LastItem(ws, k) == None then None else if r.CreateReservation? then Some(NotExists)
                 else Some(VersionEquals(row.value.version)))
  {
    hide ReservationToItem, Updated, UpdatedEvent;
    var ws := TailWrites(r, env, row, fres);
    if r.CreateReservation? {
      assert ws == [ws[0], ws[1], ws[2]] && ws[..2] == [ws[0], ws[1]] && ws[..2][..1] == [ws[0]];
      TripleConds(ws[0], ws[1], ws[2], k);
      LastOfTwo(ws[0], ws[1], k);
    } else if Updates(r) {
      PairConds(ws[0], ws[1], k);
      LastOfTwo(ws[0], ws[1], k);
    }
  }

  /** What a committed handler does to reservation rows: a creation adds one, the other three replace
      the row they name, everything else leaves them alone. */
  lemma {:induction false} StepReservation(r: Request, env: Env, t: Table, u: Table, k: Key)
    requires Takes(r, env, t, u) && k.ResK?
    ensures r.CreateReservation? ==> WayOf(r, t).Flows? && !FlowSpec(env, WayOf(r, t).raw, t).FlowFail?
    ensures Updates(r) ==> RowOf(r, t).Some? && WayOf(r, t).Flows? && WayOf(r, t).row == RowOf(r, t)
    ensures if r.CreateReservation? && k == ResK(r.tenant, Created(r, env, t).id)
            then k !in t && Lookup(u, k) == Some(ReservationToItem(Created(r, env, t), 1))
            else if Updates(r) && k == ResK(TenantOf(r), ReservationIdOf(r))
            then Lookup(u, k) == Some(ReservationToItem(Updated(r, RowOf(r, t).value.res),
              RowOf(r, t).value.version + 1))
            else Lookup(u, k) == Lookup(t, k)
  {
    hide Takes, FlowSpec, TailWrites, ReservationToItem, Updated, NewReservation, CreateFlow, CommitFlow, ReleaseFlow,
      ExpireFlow, Closed, AccountWrites;
    TakesIs(r, env, t, u);
    StepLookup(r, env, t, u, k);
    var way := WayOf(r, t);
    if way.Flows? {
      var fres := FlowSpec(env, way.raw, t);
      FlowSkipsReservations(env, way.raw, t, k);
      TailAt(r, env, way.row, fres, k);
      LastItemConcat(WritesOf(fres), TailWrites(r, env, way.row, fres), k);
      FirstCondConcat(WritesOf(fres), TailWrites(r, env, way.row, fres), k);
      if Updates(r) {
        RowNamed(r, env, t, u);
      }
    } else {
      AccountSkips(NewAccount(r), k);
    }
  }

  lemma {:induction false} AccountSkips(a: Account, k: Key)
    requires !k.AccK? && !k.AccUK?
    ensures LastItem(AccountWrites(a), k) == None
  {
    NotWritten(AccountWrites(a), k);
  }

  lemma {:induction false} RowNamed(r: Request, env: Env, t: Table, u: Table)
    requires Takes(r, env, t, u) && Updates(r) && RowOf(r, t).Some?
    ensures RowOf(r, t).value.res.id == ReservationIdOf(r) && RowOf(r, t).value.res.tenantId == TenantOf(r)
    ensures RowOf(r, t).value.version >= 1
  {
    hide Alone;
    var k := ResK(TenantOf(r), ReservationIdOf(r));
    assert Typed(k, t[k]);
  }

  // ------------------------------------------------------------------------------------------
  // The law
  // ------------------------------------------------------------------------------------------

  /** Conservation of the amount, and what each status says about the parts. */
  predicate Conserved(r: Reservation) {
    && r.outstanding + r.committed + r.released == r.original
    && r.original > 0 && r.outstanding >= 0 && r.committed >= 0 && r.released >= 0
    && (r.status == Held ==> r.committed == 0 && r.released == 0)
    && (r.status == Partial ==> 0 < r.outstanding < r.original)
    && (Closed(r.status) ==> r.outstanding == 0)
  }

  /** A stored reservation obeys the law and carries exactly its index attributes. */
  predicate HoldOk(t: Table, k: Key) {
    k.ResK? && k in t ==>
      && t[k].ResItem? && Conserved(t[k].reservation)
      && t[k] == ReservationToItem(t[k].reservation, t[k].resVersion)
  }

  ghost predicate HoldsOk(t: Table) {
    forall k :: HoldOk(t, k)
  }

  /** One committed update, on the row it found. */
  lemma {:induction false} UpdateFound(r: Request, t: Table)
    requires Updates(r) && WayOf(r, t).Flows?
    ensures WayOf(r, t).row == RowOf(r, t) && RowOf(r, t).Some?
    ensures var res := RowOf(r, t).value.res;
            && !Closed(res.status)
            && (r.ExpireReservation? ==> res.outstanding != 0)
            && (!r.ExpireReservation? ==> 0 < r.amount <= res.outstanding)
  {
    hide CommitFlow, ReleaseFlow, ExpireFlow, Closed;
  }

  lemma {:induction false} UpdateConserves(r: Request, t: Table)
    requires Updates(r) && WayOf(r, t).Flows? && Conserved(RowOf(r, t).value.res)
    ensures Conserved(Updated(r, RowOf(r, t).value.res))
  {
    hide WayOf, RowOf;
    UpdateFound(r, t);
  }

  lemma {:induction false} CreationConserves(r: Request, env: Env, t: Table)
    requires r.CreateReservation? && WayOf(r, t).Flows? && !FlowSpec(env, WayOf(r, t).raw, t).FlowFail?
    ensures Conserved(Created(r, env, t))
  {
    hide FlowSpec, CreateFlow;
  }

  lemma {:induction false} StepHold(r: Request, env: Env, t: Table, u: Table, k: Key)
    requires Takes(r, env, t, u) && HoldOk(t, k)
    ensures HoldOk(u, k)
  {
    hide Takes, FlowSpec, WayOf, Conserved, Updated, ParseAccountOwner, Created;
    if k.ResK? && k in u {
      StepReservation(r, env, t, u, k);
      if r.CreateReservation? {
        CreationConserves(r, env, t);
      } else if Updates(r) && k == ResK(TenantOf(r), ReservationIdOf(r)) {
        UpdateConserves(r, t);
      }
    }
  }

  /** What never goes back: the terms of a reservation, its committed and released amounts, and a
      terminal status. */
  predicate Advanced(x: Reservation, y: Reservation) {
    && y == x.(outstanding := y.outstanding, committed := y.committed, released := y.released, status := y.status)
    && x.committed <= y.committed && x.released <= y.released && y.outstanding <= x.outstanding
    && (Closed(x.status) ==> y == x)
    && (y.status == Held ==> y == x)
  }

  predicate Advances(t: Table, u: Table, k: Key) {
    k.ResK? && k in t && t[k].ResItem? ==> k in u && u[k].ResItem? && Advanced(t[k].reservation, u[k].reservation)
  }

  lemma {:induction false} StepAdvances(r: Request, env: Env, t: Table, u: Table, k: Key)
    requires Takes(r, env, t, u) && HoldOk(t, k)
    ensures Advances(t, u, k)
  {
    hide Takes, FlowSpec, WayOf, ParseAccountOwner, Created, RowOf;
    if k.ResK? && k in t {
      StepReservation(r, env, t, u, k);
      if Updates(r) && k == ResK(TenantOf(r), ReservationIdOf(r)) {
        UpdateFound(r, t);
        RowIs(r, t);
      }
    }
  }

  lemma {:induction false} RowIs(r: Request, t: Table)
    requires RowOf(r, t).Some?
    ensures var k := ResK(TenantOf(r), ReservationIdOf(r));
            k in t && t[k].ResItem? && RowOf(r, t).value == HeldRow(t[k].reservation, t[k].resVersion)
  {
  }

  // ------------------------------------------------------------------------------------------
  // Runs
  // ------------------------------------------------------------------------------------------

  lemma {:induction false} DoHolds(t0: Table, s: State, a: Action)
    requires Inv(t0, s) && Enabled(s, a) && HoldsOk(s.table)
    ensures HoldsOk(Do(s, a).table)
    ensures forall k :: Advances(s.table, Do(s, a).table, k)
  {
    hide Inv, Takes, HoldOk, Do, Enabled, Advanced;
    DoTakes(t0, s, a);
    var u := Do(s, a).table;
    if u != s.table {
      CommitIsLive(s, a);
      forall k ensures HoldOk(u, k) && Advances(s.table, u, k) {
        StepHold(s.live[a.id].req, s.live[a.id].env, s.table, u, k);
        StepAdvances(s.live[a.id].req, s.live[a.id].env, s.table, u, k);
      }
    } else {
      forall k ensures Advances(s.table, u, k) {
        SelfAdvances(s.table, k);
      }
    }
  }

  lemma {:induction false} CommitIsLive(s: State, a: Action)
    requires Enabled(s, a)
    ensures a.CommitTx? ==> a.id in s.live
  {
  }

  lemma {:induction false} SelfAdvances(t: Table, k: Key)
    ensures Advances(t, t, k)
  {
  }

  lemma {:induction false} AdvancesOn(t: Table, u: Table, v: Table, k: Key)
    requires Advances(t, u, k) && Advances(u, v, k)
    ensures Advances(t, v, k)
  {
  }

  /** In every reachable table every reservation obeys the conservation and status law. */
  lemma {:induction false} HoldsConserved(t0: Table, actions: seq<Action>)
    requires Sound(t0) && HoldsOk(t0) && Run(t0, actions).Some?
    ensures HoldsOk(Run(t0, actions).value.table)
  {
    hide Inv, HoldsOk, Enabled, Do, Sound, Advances;
    if actions != [] {
      var n := |actions| - 1;
      HoldsConserved(t0, actions[..n]);
      RunKeepsInv(t0, actions[..n]);
      DoHolds(t0, Run(t0, actions[..n]).value, actions[n]);
    }
  }

  /** From any point of a run to any later one, reservations only advance. */
  lemma {:induction false} HoldsAdvance(t0: Table, actions: seq<Action>, i: nat, k: Key)
    requires Sound(t0) && HoldsOk(t0) && Run(t0, actions).Some? && i <= |actions| && Run(t0, actions[..i]).Some?
    ensures Advances(Run(t0, actions[..i]).value.table, Run(t0, actions).value.table, k)
  {
    hide Inv, HoldsOk, Enabled, Do, Sound, Advances;
    if i == |actions| {
      assert actions[..i] == actions;
      SelfAdvances(Run(t0, actions).value.table, k);
    } else {
      var n := |actions| - 1;
      assert actions[..n][..i] == actions[..i];
      HoldsAdvance(t0, actions[..n], i, k);
      HoldsConserved(t0, actions[..n]);
      RunKeepsInv(t0, actions[..n]);
      DoHolds(t0, Run(t0, actions[..n]).value, actions[n]);
      AdvancesOn(Run(t0, actions[..i]).value.table, Run(t0, actions[..n]).value.table, Run(t0, actions).value.table, k);
    }
  }

  /** Expiry finds nothing to do exactly when the reservation is closed: an open one always has
      something outstanding. */
  lemma {:induction false} ExpiryIdleIffClosed(r: Request, t: Table)
    requires r.ExpireReservation? && HoldsOk(t) && RowOf(r, t).Some?
    ensures WayOf(r, t) == Ends(Done([], NoResponse)) <==> Closed(RowOf(r, t).value.res.status)
    ensures !Closed(RowOf(r, t).value.res.status) ==> RowOf(r, t).value.res.outstanding > 0
  {
    hide ExpireFlow;
    RowIs(r, t);
    assert HoldOk(t, ResK(TenantOf(r), ReservationIdOf(r)));
  }
}
