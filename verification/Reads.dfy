/** The step machines unfolded read by read, for an arbitrary table at each read. */
module Reads {
  import opened Ledger
  import opened Keys
  import opened Items
  import opened Handlers
  import opened Writes

  lemma {:induction false} EndDrive(env: Env, fr: FlowReq, res: FlowResult, at: nat -> Table, n: nat)
    ensures FlowDrive(env, fr, FlowEnd(res), at, n) == (FlowEnd(res), n)
  {
    hide RefsOf;
  }

  lemma {:induction false} StepsRead(env: Env, fr: FlowReq, run: FlowRun, at: nat -> Table, n: nat)
    ensures var w := Lookup(at(n), FlowK(fr.tenant, run.id));
            FlowDrive(env, fr, WantSteps(run), at, n)
              == (FlowEnd(FlowReplay(run, if w.Some? && w.value.FlowItem? then w.value.steps else [])), n + 1)
  {
    hide RefsOf;
    var w := Lookup(at(n), FlowK(fr.tenant, run.id));
    EndDrive(env, fr, FlowReplay(run, if w.Some? && w.value.FlowItem? then w.value.steps else []), at, n + 1);
  }

  /** The idempotency reads of a flow. */
  lemma {:induction false} FlowMarkerReads(env: Env, fr: FlowReq, at: nat -> Table, n: nat)
    ensures FlowDrive(env, fr, WantMarker, at, n) ==
            var m := Lookup(at(n), FIdempK(fr.tenant, fr.key));
            if m.Some? && m.value.FIdempItem? then
              var v := Lookup(at(n + 1), FlowK(fr.tenant, m.value.flowRunId));
              if v.Some? && v.value.FlowItem? then
                if v.value.run.status != Completed then (FlowEnd(FlowFail(FlowConflict)), n + 2)
                else
                  var w := Lookup(at(n + 2), FlowK(fr.tenant, v.value.run.id));
                  (FlowEnd(FlowReplay(v.value.run, if w.Some? && w.value.FlowItem? then w.value.steps else [])), n + 3)
              else FlowDrive(env, fr, Loading(env, fr, []), at, n + 2)
            else FlowDrive(env, fr, Loading(env, fr, []), at, n + 1)
  {
    hide RefsOf, Loading;
    var m := Lookup(at(n), FIdempK(fr.tenant, fr.key));
    if m.Some? && m.value.FIdempItem? {
      var l := WantFlow(m.value.flowRunId);
      assert FlowDrive(env, fr, WantMarker, at, n) == FlowDrive(env, fr, l, at, n + 1);
      var v := Lookup(at(n + 1), FlowK(fr.tenant, m.value.flowRunId));
      if v.Some? && v.value.FlowItem? && v.value.run.status == Completed {
        assert FlowDrive(env, fr, l, at, n + 1) == FlowDrive(env, fr, WantSteps(v.value.run), at, n + 2);
        StepsRead(env, fr, v.value.run, at, n + 2);
      } else if v.Some? && v.value.FlowItem? {
        EndDrive(env, fr, FlowFail(FlowConflict), at, n + 2);
      }
    }
  }

  /** One account read of the loading phase. */
  lemma {:induction false} AccountRead(env: Env, fr: FlowReq, loaded: seq<Loaded>, at: nat -> Table, n: nat)
    requires |loaded| < |RefsOf(fr)|
    ensures var r := RefsOf(fr)[|loaded|];
            var v := Lookup(at(n), AccK(fr.tenant, r.account));
            FlowDrive(env, fr, Loading(env, fr, loaded), at, n) ==
            if !(v.Some? && v.value.AccItem?) then (FlowEnd(FlowFail(AccountNotFound)), n + 1)
            else if v.value.account.status != AccountStatus.Active then (FlowEnd(FlowFail(InvalidAccountStatus)), n + 1)
            else if v.value.account.currency != r.currency then (FlowEnd(FlowFail(AccountCurrencyMismatch)), n + 1)
            else FlowDrive(env, fr, WantBalance(loaded, v.value.account), at, n + 1)
  {
    hide RefsOf, Post;
  }

  /** The one or two balance reads of the loading phase. */
  lemma {:induction false} BalanceReads(env: Env, fr: FlowReq, loaded: seq<Loaded>, a: Account, at: nat -> Table,
      n: nat)
    requires |loaded| < |RefsOf(fr)|
    ensures var k := BalKey(fr.tenant, RefsOf(fr)[|loaded|]);
            var (d, c, ver) := BalanceRead(Lookup(at(n), k));
            FlowDrive(env, fr, WantBalance(loaded, a), at, n) ==
            if ver != 0 || d != 0 || c != 0
            then FlowDrive(env, fr, Loading(env, fr, loaded + [Loaded(a, d, c, ver, true)]), at, n + 1)
            else FlowDrive(env, fr, Loading(env, fr, loaded + [Loaded(a, 0, 0, 0, Lookup(at(n + 1), k).Some?)]), at,
              n + 2)
  {
    hide RefsOf, Post, Loading;
    var k := BalKey(fr.tenant, RefsOf(fr)[|loaded|]);
    var (d, c, ver) := BalanceRead(Lookup(at(n), k));
    if !(ver != 0 || d != 0 || c != 0) {
      assert FlowDrive(env, fr, WantBalance(loaded, a), at, n) == FlowDrive(env, fr, WantProbe(loaded, a), at, n + 1);
    }
  }

  lemma {:induction false} LoadingDone(env: Env, fr: FlowReq, loaded: seq<Loaded>, at: nat -> Table, n: nat)
    requires |loaded| == |RefsOf(fr)|
    ensures FlowDrive(env, fr, Loading(env, fr, loaded), at, n) == (FlowEnd(Post(env, fr, loaded)), n)
  {
    hide RefsOf, Post;
  }

  lemma {:induction false} DriveStep(r: Request, env: Env, l: Local, at: nat -> Table, n: nat)
    requires Wf(l) && !l.Finished?
    ensures Drive(r, env, l, at, n) == Drive(r, env, Feed(r, env, l, Lookup(at(n), Want(r, l))), at, n + 1)
  {
    hide Feed, Want;
  }

  lemma {:induction false} DriveFinished(r: Request, env: Env, out: Outcome, at: nat -> Table, n: nat)
    ensures Drive(r, env, Finished(out), at, n) == (Finished(out), n)
  {
  }

  /** The idempotency reads of a reservation creation. */
  lemma {:induction false} MarkerRead(r: Request, env: Env, at: nat -> Table, n: nat)
    requires r.CreateReservation? && r.amount > 0
    ensures var k := Lookup(at(n), RIdempK(r.tenant, r.key));
            if k.Some? && k.value.RIdempItem? then
              var v := Lookup(at(n + 1), ResK(r.tenant, k.value.reservationId));
              Drive(r, env, Start(r, env), at, n) == (Finished(
                if v.Some? && v.value.ResItem? then Done([], ReservationResponse(v.value.reservation))
                else Fail(ReservationNotFound)), n + 2)
            else Drive(r, env, Start(r, env), at, n) == Drive(r, env, BeginFlow(r, env, CreateFlow(r), None), at, n + 1)
  {
    hide Drive, BeginFlow, CreateFlow;
    DriveStep(r, env, WantReservationMarker, at, n);
    var k := Lookup(at(n), RIdempK(r.tenant, r.key));
    if k.Some? && k.value.RIdempItem? {
      DriveStep(r, env, WantReplayed(k.value.reservationId), at, n + 1);
      var l := Feed(r, env, WantReplayed(k.value.reservationId),
        Lookup(at(n + 1), ResK(r.tenant, k.value.reservationId)));
      DriveFinished(r, env, l.out, at, n + 2);
    }
  }

  lemma {:induction false} CreateAnswer(r: Request, env: Env, fres: FlowResult)
    requires r.CreateReservation?
    ensures After(r, env, None, fres) ==
            if fres.FlowFail? then Fail(fres.code)
            else Done(WritesOf(fres) + CreateWrites(r, env, UsedOf(fres), fres.run.id),
                      ReservationResponse(NewReservation(r, env.Id(UsedOf(fres)), fres.run.id, env.now)))
  {
  }

  /** The first read of commit, release and expiry, and what the row alone decides. */
  lemma {:induction false} RowReadIs(r: Request, env: Env, at: nat -> Table, n: nat)
    requires Updates(r) && (!r.ExpireReservation? ==> r.amount > 0)
    requires Sound(at(n))
    ensures var v := Lookup(at(n), ResK(TenantOf(r), ReservationIdOf(r)));
            if v.Some? && v.value.ResItem? then
              var row := HeldRow(v.value.reservation, v.value.resVersion);
              row.res.id == ReservationIdOf(r) && row.res.tenantId == TenantOf(r)
              && Drive(r, env, Start(r, env), at, n) ==
                 if r.ExpireReservation? then
                   if Closed(row.res.status) || row.res.outstanding == 0 then (Finished(Done([], NoResponse)), n + 1)
                   else Drive(r, env, BeginFlow(r, env, ExpireFlow(r, row.res), Some(row)), at, n + 1)
                 else if Closed(row.res.status) then (Finished(Fail(ReservationClosed)), n + 1)
                 else if r.amount > row.res.outstanding then (Finished(Fail(ReservationAmountExceeds)), n + 1)
                 else if r.CommitReservation? then Drive(r, env, WantDestination(row), at, n + 1)
                 else Drive(r, env, BeginFlow(r, env, ReleaseFlow(r, row.res), Some(row)), at, n + 1)
            else Drive(r, env, Start(r, env), at, n) == (Finished(Fail(ReservationNotFound)), n + 1)
  {
    hide Drive, BeginFlow, ExpireFlow, ReleaseFlow, Closed;
    var v := Lookup(at(n), ResK(TenantOf(r), ReservationIdOf(r)));
    DriveStep(r, env, WantReservation, at, n);
    var l := Feed(r, env, WantReservation, v);
    if l.Finished? {
      DriveFinished(r, env, l.out, at, n + 1);
    }
  }

  lemma {:induction false} DestinationRead(r: Request, env: Env, row: HeldRow, at: nat -> Table, n: nat)
    requires r.CommitReservation?
    ensures var v := Lookup(at(n), AccK(r.tenant, r.destination));
            Drive(r, env, WantDestination(row), at, n) ==
            if !(v.Some? && v.value.AccItem?) then (Finished(Fail(AccountNotFound)), n + 1)
            else if v.value.account.currency != row.res.currency
              then (Finished(Fail(ReservationCurrencyMismatch)), n + 1)
            else Drive(r, env, BeginFlow(r, env, CommitFlow(r, row.res, v.value.account.id), Some(row)), at, n + 1)
  {
    hide Drive, BeginFlow, CommitFlow;
    var v := Lookup(at(n), AccK(r.tenant, r.destination));
    DriveStep(r, env, WantDestination(row), at, n);
    var l := Feed(r, env, WantDestination(row), v);
    if l.Finished? {
      DriveFinished(r, env, l.out, at, n + 1);
    }
  }

  function UpdateAnswer(r: Request, res: Reservation): Response {
    if r.ExpireReservation? then NoResponse else ReservationResponse(Updated(r, res))
  }

  lemma {:induction false} UpdateDone(r: Request, env: Env, row: HeldRow, fres: FlowResult)
    requires Updates(r)
    ensures After(r, env, Some(row), fres) ==
            if fres.FlowFail? then Fail(fres.code)
            else Done(WritesOf(fres) + UpdateWrites(r, row, Updated(r, row.res),
              UpdatedEvent(r, env.Id(UsedOf(fres)), row.res)), UpdateAnswer(r, row.res))
  {
  }
}
