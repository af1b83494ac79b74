/** Why an in-bounds commit, release or expiry does not run out of money on the way, however many other
    handlers are in flight: as long as its reservation row is the one it read, the reserved account it
    reads afterwards holds at least what that row has outstanding. */
module Backing {
  import opened Ledger
  import opened Keys
  import opened Items
  import opened Ordering
  import opened Handlers
  import opened Writes
  import opened Protocol
  import opened Serializability
  import opened Atomic
  import opened Journals
  import opened Books
  import opened Idempotency
  import opened Reachable
  import opened Replay
  import opened Holds
  import opened Reserved

  // ------------------------------------------------------------------------------------------
  // What excuses a failure
  // ------------------------------------------------------------------------------------------

  /** The reservation row has been replaced since the handler read it. */
  predicate Passed(t: Table, r: Request, row: HeldRow) {
    var now := RowOf(r, t);
    now.Some? && now.value.version > row.version
  }

  /** A credit-normal account that may not go negative: paying into it from a reservation can overdraw it. */
  predicate Strict(t: Table, tenant: string, ref: BalRef) {
    var a := Lookup(t, AccK(tenant, ref.account));
    a.Some? && a.value.AccItem? && !Roomy(a.value.account)
  }

  predicate Roomy(a: Account) {
    a.allowNegative || a.normalBalance == NormalDebit
  }

  predicate Excused(t: Table, r: Request, row: HeldRow) {
    || Passed(t, r, row)
    || Strict(t, TenantOf(r), ReservedRef(row.res))
    || Strict(t, TenantOf(r), OtherRef(r, row.res))
  }

  /** Versions only rise and accounts never change, so an excuse stays one. */
  lemma {:induction false} ExcusedStays(t: Table, u: Table, r: Request, row: HeldRow)
    requires Sound(u) && Evolves(t, u) && Excused(t, r, row)
    ensures Excused(u, r, row)
  {
    if Passed(t, r, row) {
      var k := ResK(TenantOf(r), ReservationIdOf(r));
      assert Newer(u, k, t[k]) && Typed(k, u[k]);
    } else if Strict(t, TenantOf(r), ReservedRef(row.res)) {
      StrictStays(t, u, TenantOf(r), ReservedRef(row.res));
    } else {
      StrictStays(t, u, TenantOf(r), OtherRef(r, row.res));
    }
  }

  lemma {:induction false} StrictStays(t: Table, u: Table, tenant: string, ref: BalRef)
    requires Evolves(t, u) && Strict(t, tenant, ref)
    ensures Strict(u, tenant, ref)
  {
    var k := AccK(tenant, ref.account);
    assert Newer(u, k, t[k]);
  }

  // ------------------------------------------------------------------------------------------
  // Handlers in flight
  // ------------------------------------------------------------------------------------------

  function AmountOf(r: Request, row: HeldRow): int
    requires Updates(r)
  {
    if r.ExpireReservation? then row.res.outstanding else r.amount
  }

  /** A loaded balance out of which the inner flow can be paid. */
  predicate Ample(l: Loaded, ref: BalRef, row: HeldRow) {
    l.account.allowNegative
    || (l.account.normalBalance == NormalDebit
        && l.debits - l.credits >= if ref == ReservedRef(row.res) then row.res.outstanding else 0)
  }

  ghost predicate Paying(r: Request, row: HeldRow, fr: FlowReq)
    requires Updates(r)
  {
    && Transfers(fr, OtherRef(r, row.res), ReservedRef(row.res), AmountOf(r, row))
    && fr.tenant == TenantOf(r) && 0 < AmountOf(r, row) <= row.res.outstanding
  }

  ghost predicate AllAmple(fr: FlowReq, row: HeldRow, loaded: seq<Loaded>) {
    |loaded| <= |RefsOf(fr)|
    && forall i | 0 <= i < |loaded| :: Ample(loaded[i], RefsOf(fr)[i], row)
  }

  /** Where a handler stands after reading `row`, unless something excuses it. */
  ghost predicate Backed(r: Request, row: HeldRow, l: Local)
    requires Updates(r)
  {
    match l
    case WantDestination(held) => held == row && AmountOf(r, row) <= row.res.outstanding
    case InFlow(fr, held, fl) =>
      && held == Some(row) && Paying(r, row, fr) && AllAmple(fr, row, LoadedOf(fl))
      && (match fl
          case WantBalance(_, a) => Roomy(a)
          case WantProbe(loaded, a) =>
            a.allowNegative
            || (a.normalBalance == NormalDebit && |loaded| < |RefsOf(fr)|
              && RefsOf(fr)[|loaded|] != ReservedRef(row.res))
          case _ => true)
    case Finished(out) => out != Fail(InsufficientFunds)
    case _ => false
  }

  lemma {:induction false} PaysOut(r: Request, row: HeldRow, fr: FlowReq, l: Loaded, ref: BalRef)
    requires Updates(r) && Paying(r, row, fr) && Ample(l, ref, row)
    ensures !Overdrawn(fr, l, ref)
  {
    hide Transfers, Sum, AllEntries, RefsOf, OtherRef;
    TransferSums(fr, OtherRef(r, row.res), ReservedRef(row.res), AmountOf(r, row), ref);
  }

  lemma {:induction false} AfterBacked(r: Request, env: Env, row: HeldRow, fr: FlowReq, res: FlowResult)
    requires Updates(r) && res != FlowFail(InsufficientFunds)
    ensures Backed(r, row, Lift(r, env, fr, Some(row), FlowEnd(res)))
  {
    hide Paying, AllAmple, UpdateWrites, Committing, Releasing, Expiring;
  }

  lemma {:induction false} LoadingBacked(r: Request, env: Env, row: HeldRow, fr: FlowReq, loaded: seq<Loaded>)
    requires Updates(r) && Paying(r, row, fr) && AllAmple(fr, row, loaded)
    ensures Backed(r, row, Lift(r, env, fr, Some(row), Loading(env, fr, loaded)))
  {
    hide Paying, RefsOf, Ample, After, Overdrawn, StepOk, FlowWrites, RunOf, StepRows, StepBase;
    if |loaded| == |RefsOf(fr)| {
      forall i | 0 <= i < |loaded| ensures !Overdrawn(fr, loaded[i], RefsOf(fr)[i]) {
        PaysOut(r, row, fr, loaded[i], RefsOf(fr)[i]);
      }
      AfterBacked(r, env, row, fr, Post(env, fr, loaded));
    }
  }

  /** The moment of the balance read: the row is still the one read, so the reserved account holds at
      least what it has outstanding; every other debit-normal account holds at least nothing. */
  lemma {:induction false} BalanceAmple(r: Request, row: HeldRow, t: Table, ref: BalRef)
    requires Updates(r) && RowOf(r, t) == Some(row)
    requires Solvent(t) && HoldsOk(t) && ReservedLaw(t, TenantOf(r), ReservedRef(row.res))
    requires var a := Lookup(t, AccK(TenantOf(r), ref.account));
             a.Some? && a.value.AccItem? && a.value.account.normalBalance == NormalDebit
               && !a.value.account.allowNegative
    ensures Position(t, TenantOf(r), ref) >= if ref == ReservedRef(row.res) then row.res.outstanding else 0
  {
    hide HoldsOk, Outstanding;
    RowIs(r, t);
    if ref == ReservedRef(row.res) {
      OneOfTotal(t, TenantOf(r), ResK(TenantOf(r), ReservationIdOf(r)));
    } else {
      assert RowSolvent(t, TenantOf(r), ref);
    }
  }

  /** What a table must be for a read of it to keep a handler backed. */
  ghost predicate Sustains(t: Table, r: Request, row: HeldRow) {
    && Sound(t) && Solvent(t) && HoldsOk(t) && ReservedLaw(t, TenantOf(r), ReservedRef(row.res))
    && RowOf(r, t) == Some(row) && !Excused(t, r, row)
  }

  lemma {:induction false} AccountRoomy(t: Table, r: Request, row: HeldRow, fr: FlowReq, ref: BalRef)
    requires Updates(r) && Paying(r, row, fr) && ref in RefsOf(fr) && !Excused(t, r, row)
    ensures var a := Lookup(t, AccK(fr.tenant, ref.account));
            a.Some? && a.value.AccItem? ==> Roomy(a.value.account)
  {
    hide Transfers, RefsOf, OtherRef, Passed;
    TransferSums(fr, OtherRef(r, row.res), ReservedRef(row.res), AmountOf(r, row), ref);
  }

  /** The account a flow has just read is the one the table holds. */
  predicate AccountKnown(t: Table, l: Local) {
    l.InFlow? && l.fl.WantBalance? && |l.fl.loaded| < |RefsOf(l.fr)| ==>
      Lookup(t, AccK(l.fr.tenant, RefsOf(l.fr)[|l.fl.loaded|].account)) == Some(AccItem(l.fl.account))
  }

  lemma {:induction false} KnownStays(t: Table, u: Table, l: Local)
    requires Evolves(t, u) && AccountKnown(t, l)
    ensures AccountKnown(u, l)
  {
    hide RefsOf;
    if l.InFlow? && l.fl.WantBalance? && |l.fl.loaded| < |RefsOf(l.fr)| {
      var k := AccK(l.fr.tenant, RefsOf(l.fr)[|l.fl.loaded|].account);
      assert Newer(u, k, t[k]);
    }
  }

  lemma {:induction false} SnocAmple(fr: FlowReq, row: HeldRow, loaded: seq<Loaded>, last: Loaded)
    requires |loaded| < |RefsOf(fr)| && AllAmple(fr, row, loaded) && Ample(last, RefsOf(fr)[|loaded|], row)
    ensures AllAmple(fr, row, loaded + [last])
  {
    hide RefsOf, Ample;
  }

  ghost predicate Going(t: Table, r: Request, row: HeldRow, l: Local)
    requires Updates(r)
  {
    Backed(r, row, l) && AccountKnown(t, l)
  }

  lemma {:induction false} LoadingKnown(t: Table, r: Request, env: Env, row: Option<HeldRow>, fr: FlowReq,
      loaded: seq<Loaded>)
    requires |loaded| <= |RefsOf(fr)|
    ensures AccountKnown(t, Lift(r, env, fr, row, Loading(env, fr, loaded)))
  {
    hide RefsOf, Post, After;
  }

  /** The balance read of one pair. */
  lemma {:induction false} BalanceBacked(t: Table, r: Request, env: Env, row: HeldRow, fr: FlowReq,
      loaded: seq<Loaded>, a: Account)
    requires Updates(r) && Sustains(t, r, row) && |loaded| < |RefsOf(fr)|
    requires Going(t, r, row, InFlow(fr, Some(row), WantBalance(loaded, a)))
    ensures var fl := WantBalance(loaded, a);
            Going(t, r, row, Lift(r, env, fr, Some(row), FlowFeed(env, fr, fl, Lookup(t, FlowWant(fr, fl)))))
  {
    hide RefsOf, Loading, Paying, Position, HoldsOk, Solvent, Sound, ReservedLaw, Excused, AllAmple, After;
    var ref := RefsOf(fr)[|loaded|];
    var (d, c, ver) := BalanceRead(Lookup(t, BalKey(fr.tenant, ref)));
    PayingTenant(r, row, fr);
    if !a.allowNegative {
      BalanceAmple(r, row, t, ref);
      PositionIs(t, TenantOf(r), ref);
    }
    if ver != 0 || d != 0 || c != 0 {
      SnocAmple(fr, row, loaded, Loaded(a, d, c, ver, true));
      LoadingBacked(r, env, row, fr, loaded + [Loaded(a, d, c, ver, true)]);
      LoadingKnown(t, r, env, Some(row), fr, loaded + [Loaded(a, d, c, ver, true)]);
    }
  }

  lemma {:induction false} PositionIs(t: Table, tenant: string, ref: BalRef)
    ensures var (d, c, _) := BalanceRead(Lookup(t, BalKey(tenant, ref)));
            Position(t, tenant, ref) == d - c
  {
  }

  lemma {:induction false} PayingTenant(r: Request, row: HeldRow, fr: FlowReq)
    requires Updates(r) && Paying(r, row, fr)
    ensures fr.tenant == TenantOf(r) && row.res.outstanding > 0
  {
  }

  lemma {:induction false} FlowFeedBacked(t: Table, r: Request, env: Env, row: HeldRow, fr: FlowReq, fl: FlowLocal)
    requires Updates(r) && Sustains(t, r, row) && FlowWf(fr, fl) && !fl.FlowEnd?
    requires Going(t, r, row, InFlow(fr, Some(row), fl))
    ensures Going(t, r, row, Lift(r, env, fr, Some(row), FlowFeed(env, fr, fl, Lookup(t, FlowWant(fr, fl)))))
  {
    hide RefsOf, Loading, Paying, AllAmple, After, Sustains, BalanceRead;
    var v := Lookup(t, FlowWant(fr, fl));
    match fl
    case WantMarker =>
      NoneAmple(fr, row);
      LoadingBacked(r, env, row, fr, []);
      LoadingKnown(t, r, env, Some(row), fr, []);
    case WantFlow(_) =>
      NoneAmple(fr, row);
      LoadingBacked(r, env, row, fr, []);
      LoadingKnown(t, r, env, Some(row), fr, []);
      AfterBacked(r, env, row, fr, FlowFail(FlowConflict));
    case WantSteps(run) => AfterBacked(r, env, row, fr, FlowFeed(env, fr, fl, v).res);
    case WantAccount(loaded) =>
      SustainsRoom(t, r, row, fr, RefsOf(fr)[|loaded|]);
      AfterBacked(r, env, row, fr, FlowFail(AccountNotFound));
      AfterBacked(r, env, row, fr, FlowFail(InvalidAccountStatus));
      AfterBacked(r, env, row, fr, FlowFail(AccountCurrencyMismatch));
    case WantBalance(loaded, a) => BalanceBacked(t, r, env, row, fr, loaded, a);
    case WantProbe(loaded, a) =>
      var last := Loaded(a, 0, 0, 0, v.Some?);
      SnocAmple(fr, row, loaded, last);
      LoadingBacked(r, env, row, fr, loaded + [last]);
      LoadingKnown(t, r, env, Some(row), fr, loaded + [last]);
  }

  lemma {:induction false} NoneAmple(fr: FlowReq, row: HeldRow)
    ensures AllAmple(fr, row, [])
  {
    hide RefsOf;
  }

  lemma {:induction false} SustainsRoom(t: Table, r: Request, row: HeldRow, fr: FlowReq, ref: BalRef)
    requires Updates(r) && Sustains(t, r, row) && Paying(r, row, fr) && ref in RefsOf(fr)
    ensures var a := Lookup(t, AccK(fr.tenant, ref.account));
            a.Some? && a.value.AccItem? ==> Roomy(a.value.account)
  {
    hide RefsOf, Paying, Sound, Solvent, HoldsOk, ReservedLaw, Excused;
    AccountRoomy(t, r, row, fr, ref);
  }

  /** Entering the inner flow. */
  lemma {:induction false} BeginBacked(t: Table, r: Request, env: Env, row: HeldRow, raw: FlowReq)
    requires Updates(r) && Transfers(raw, OtherRef(r, row.res), ReservedRef(row.res), AmountOf(r, row))
    requires raw.tenant == TenantOf(r) && AmountOf(r, row) <= row.res.outstanding
    ensures Going(t, r, row, BeginFlow(r, env, raw, Some(row)))
  {
    hide Transfers, RefsOf, After, AmountsOk, ParseSteps, OtherRef;
    TransferParsed(raw, OtherRef(r, row.res), ReservedRef(row.res), AmountOf(r, row));
    AfterBacked(r, env, row, Parsed(raw), FlowFail(UnbalancedJournal));
    NoneAmple(Parsed(raw), row);
  }

  /** The read of the reservation row. */
  lemma {:induction false} RowBacked(t: Table, r: Request, env: Env, row: HeldRow)
    requires Updates(r) && row.res.tenantId == TenantOf(r) && row.res.id == ReservationIdOf(r)
    ensures Going(t, r, row, OnReservation(r, env, row))
  {
    hide BeginFlow, Closed, RefsOf;
    if r.ReleaseReservation? {
      if r.amount <= row.res.outstanding {
        BeginBacked(t, r, env, row, ReleaseFlow(r, row.res));
      }
    } else if r.ExpireReservation? {
      BeginBacked(t, r, env, row, ExpireFlow(r, row.res));
    }
  }

  lemma {:induction false} DestinationBacked(t: Table, r: Request, env: Env, row: HeldRow)
    requires r.CommitReservation? && Sound(t) && AmountOf(r, row) <= row.res.outstanding
    ensures var l := WantDestination(row); Going(t, r, row, Feed(r, env, l, Lookup(t, Want(r, l))))
  {
    hide BeginFlow, RefsOf, Sound;
    var v := Lookup(t, AccK(r.tenant, r.destination));
    if v.Some? && v.value.AccItem? {
      AccountNamed(t, r.tenant, r.destination);
      BeginBacked(t, r, env, row, CommitFlow(r, row.res, v.value.account.id));
    }
  }

  lemma {:induction false} AccountNamed(t: Table, tenant: string, account: string)
    requires Sound(t) && AccK(tenant, account) in t
    ensures t[AccK(tenant, account)].AccItem? && t[AccK(tenant, account)].account.id == account
  {
    assert Typed(AccK(tenant, account), t[AccK(tenant, account)]);
  }

  lemma {:induction false} SustainsSound(t: Table, r: Request, row: HeldRow)
    requires Sustains(t, r, row)
    ensures Sound(t)
  {
    hide Sound, Solvent, HoldsOk, ReservedLaw, Excused;
  }

  lemma {:induction false} FeedBacked(t: Table, r: Request, env: Env, row: HeldRow, l: Local)
    requires Updates(r) && Sustains(t, r, row) && Wf(l) && !l.Finished? && Going(t, r, row, l)
    ensures Going(t, r, row, Feed(r, env, l, Lookup(t, Want(r, l))))
  {
    hide Sustains, FlowFeed, FlowWant, FlowWf, Lift, Paying, AllAmple, RefsOf, BeginFlow;
    match l
    case WantDestination(held) =>
      if r.CommitReservation? {
        SustainsSound(t, r, row);
        DestinationBacked(t, r, env, row);
      }
    case InFlow(fr, held, fl) => FlowFeedBacked(t, r, env, row, fr, fl);
  }

  // ------------------------------------------------------------------------------------------
  // Runs
  // ------------------------------------------------------------------------------------------

  /** The reservation row a live commit, release or expiry has read. */
  function RowSeen(x: TxRec): Option<HeldRow> {
    if x.log != [] && x.log[0].1.Some? && x.log[0].1.value.ResItem?
    then Some(HeldRow(x.log[0].1.value.reservation, x.log[0].1.value.resVersion)) else None
  }

  /** A live handler on a reservation of account `ref` is backed unless something excuses it. */
  ghost predicate TxBacked(t: Table, x: TxRec, tenant: string, ref: BalRef) {
    Updates(x.req) && TenantOf(x.req) == tenant && RowSeen(x).Some? && ReservedRef(RowSeen(x).value.res) == ref ==>
      Excused(t, x.req, RowSeen(x).value) || Going(t, x.req, RowSeen(x).value, x.local)
  }

  lemma {:induction false} TxBackedStays(t: Table, u: Table, x: TxRec, tenant: string, ref: BalRef)
    requires Sound(u) && Evolves(t, u) && TxBacked(t, x, tenant, ref)
    ensures TxBacked(u, x, tenant, ref)
  {
    hide Sound, Evolves, Excused, Backed, AccountKnown, RowSeen;
    if Updates(x.req) && TenantOf(x.req) == tenant && RowSeen(x).Some? && ReservedRef(RowSeen(x).value.res) == ref {
      if Excused(t, x.req, RowSeen(x).value) {
        ExcusedStays(t, u, x.req, RowSeen(x).value);
      } else {
        KnownStays(t, u, x.local);
      }
    }
  }

  /** A first read is the read of the row. */
  lemma {:induction false} FirstRead(t: Table, x: TxRec)
    requires Sound(t) && TxOk(t, x) && Updates(x.req) && x.log == [] && Wf(x.local) && !x.local.Finished?
    ensures Want(x.req, x.local) == ResK(TenantOf(x.req), ReservationIdOf(x.req))
    ensures var v := Lookup(t, Want(x.req, x.local));
            v.Some? && v.value.ResItem? ==>
              Going(t, x.req, HeldRow(v.value.reservation, v.value.resVersion), Feed(x.req, x.env, x.local, v))
  {
    hide OnReservation, Backed, AccountKnown, BeginFlow;
    var k := ResK(TenantOf(x.req), ReservationIdOf(x.req));
    if k in t {
      assert Typed(k, t[k]);
      if t[k].ResItem? {
        RowBacked(t, x.req, x.env, HeldRow(t[k].reservation, t[k].resVersion));
      }
    }
  }

  /** The row seen is the one in the table, or the table has passed it. */
  lemma {:induction false} SeenOrPassed(t: Table, x: TxRec)
    requires Sound(t) && TxOk(t, x) && Updates(x.req) && RowSeen(x).Some?
    ensures RowOf(x.req, t) == RowSeen(x) || Passed(t, x.req, RowSeen(x).value)
  {
    hide Start, Feed;
    FirstWant(x);
    var k := ResK(TenantOf(x.req), ReservationIdOf(x.req));
    assert x.log[0].0 == k;
    assert Newer(t, k, x.log[0].1.value);
    assert Typed(k, t[k]);
  }

  lemma {:induction false} FirstWant(x: TxRec)
    requires Plays(x.req, x.env, x.log) && Updates(x.req) && x.log != []
    ensures x.log[0].0 == ResK(TenantOf(x.req), ReservationIdOf(x.req))
  {
    assert StateAt(x.req, x.env, x.log, 0) == Start(x.req, x.env);
    assert Want(x.req, StateAt(x.req, x.env, x.log, 0)) == x.log[0].0;
  }

  /** One more read keeps a handler backed. */
  lemma {:induction false} ReadBacked(t: Table, x: TxRec, tenant: string, ref: BalRef)
    requires Sound(t) && Solvent(t) && HoldsOk(t) && ReservedLaw(t, tenant, ref)
    requires TxOk(t, x) && Wf(x.local) && !x.local.Finished? && TxBacked(t, x, tenant, ref)
    ensures var k := Want(x.req, x.local); var v := Lookup(t, k);
            TxBacked(t, x.(local := Feed(x.req, x.env, x.local, v), log := x.log + [(k, v)]), tenant, ref)
  {
    hide Sound, Solvent, HoldsOk, ReservedLaw, TxOk, Feed, Want, Backed, AccountKnown, Excused, Passed;
    var k := Want(x.req, x.local);
    var v := Lookup(t, k);
    var log := x.log + [(k, v)];
    if Updates(x.req) && TenantOf(x.req) == tenant {
      if x.log == [] {
        FirstRead(t, x);
      } else if RowSeen(x).Some? && ReservedRef(RowSeen(x).value.res) == ref && !Excused(t, x.req, RowSeen(x).value) {
        SeenOrPassed(t, x);
        NotPassed(t, x.req, RowSeen(x).value);
        FeedBacked(t, x.req, x.env, RowSeen(x).value, x.local);
      }
    }
  }

  lemma {:induction false} NotPassed(t: Table, r: Request, row: HeldRow)
    requires !Excused(t, r, row)
    ensures !Passed(t, r, row)
  {
    hide Passed, Strict;
  }

  ghost predicate AllBacked(s: State, tenant: string, ref: BalRef) {
    forall id | id in s.live :: TxBacked(s.table, s.live[id], tenant, ref)
  }

  lemma {:induction false} DoBacked(t0: Table, s: State, a: Action, tenant: string, ref: BalRef)
    requires Inv(t0, s) && Enabled(s, a) && AllBacked(s, tenant, ref)
    requires Solvent(s.table) && HoldsOk(s.table) && ReservedLaw(s.table, tenant, ref)
    requires Sound(Do(s, a).table)
    ensures AllBacked(Do(s, a), tenant, ref)
  {
    hide Sound, Solvent, HoldsOk, ReservedLaw, TxOk, Feed, Want, TxBacked, Start, Serial, SerialAnswers, Evolves,
      CommitOn;
    DoEvolves(t0, s, a);
    var u := Do(s, a);
    forall id | id in u.live ensures TxBacked(u.table, u.live[id], tenant, ref) {
      if a.BeginTx? && a.id == id {
        NothingSeen(u.table, u.live[id], tenant, ref);
      } else if a.ReadItem? && a.id == id {
        ReadBacked(s.table, s.live[id], tenant, ref);
      } else {
        TxBackedStays(s.table, u.table, s.live[id], tenant, ref);
      }
    }
  }

  lemma {:induction false} NothingSeen(t: Table, x: TxRec, tenant: string, ref: BalRef)
    requires x.log == []
    ensures TxBacked(t, x, tenant, ref)
  {
  }

  lemma {:induction false} RunBacked(t0: Table, actions: seq<Action>, tenant: string, ref: BalRef)
    requires LedgerInv(t0) && HoldsOk(t0) && ReservedLaw(t0, tenant, ref)
    requires Run(t0, actions).Some? && DrawsDistinct(actions) && RunRespects(t0, actions, tenant, ref)
    ensures AllBacked(Run(t0, actions).value, tenant, ref)
  {
    hide LedgerInv, HoldsOk, ReservedLaw, RunRespects, DistinctIds, Enabled, Do, Inv, AllBacked, Sound, Solvent,
      LiveDistinct;
    LedgerIsSound(t0);
    if actions == [] {
      InitialBacked(t0, tenant, ref);
    } else {
      var n := |actions| - 1;
      var s, a := Run(t0, actions[..n]).value, actions[n];
      LastStep(t0, actions);
      RespectsPrefix(t0, actions, n, tenant, ref);
      RunBacked(t0, actions[..n], tenant, ref);
      RunKeepsInv(t0, actions[..n]);
      RunKeepsInv(t0, actions);
      InvIsSound(t0, Run(t0, actions).value);
      LedgerHolds(t0, actions[..n]);
      LedgerSolvent(s.table);
      HoldsConserved(t0, actions[..n]);
      ReservedHolds(t0, actions[..n], tenant, ref);
      DoBacked(t0, s, a, tenant, ref);
    }
  }

  lemma {:induction false} InitialBacked(t0: Table, tenant: string, ref: BalRef)
    ensures AllBacked(Initial(t0), tenant, ref)
  {
  }

  lemma {:induction false} LedgerSolvent(t: Table)
    requires LedgerInv(t)
    ensures Solvent(t)
  {
    hide Sound, BalancesAddUp, BooksBalance, Solvent, Tidy;
  }

  /** In every run that respects the reserved account, a live commit, release or expiry has failed for
      lack of funds only if its reservation row has been replaced since it read it, or one of the two
      accounts is credit-normal and may not go negative. */
  lemma {:induction false} InBoundsNeverShort(t0: Table, actions: seq<Action>, id: nat)
    requires LedgerInv(t0) && HoldsOk(t0) && Run(t0, actions).Some? && DrawsDistinct(actions)
    requires var s := Run(t0, actions).value; id in s.live && Updates(s.live[id].req) && RowSeen(s.live[id]).Some?
    requires var x := Run(t0, actions).value.live[id];
             var ref := ReservedRef(RowSeen(x).value.res);
             ReservedLaw(t0, TenantOf(x.req), ref) && RunRespects(t0, actions, TenantOf(x.req), ref)
    requires var s := Run(t0, actions).value; var x := s.live[id]; var res := RowSeen(x).value.res;
             && RowOf(x.req, s.table) == RowSeen(x)
             && !Strict(s.table, TenantOf(x.req), ReservedRef(res))
             && !Strict(s.table, TenantOf(x.req), OtherRef(x.req, res))
    ensures Run(t0, actions).value.live[id].local != Finished(Fail(InsufficientFunds))
  {
    hide LedgerInv, HoldsOk, ReservedLaw, RunRespects, DistinctIds, Run, RowSeen, Strict, AccountKnown, RowOf;
    var s := Run(t0, actions).value;
    var x := s.live[id];
    RunBacked(t0, actions, TenantOf(x.req), ReservedRef(RowSeen(x).value.res));
    assert TxBacked(s.table, x, TenantOf(x.req), ReservedRef(RowSeen(x).value.res));
  }
}
