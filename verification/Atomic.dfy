/** What a handler does when the table does not change under it: the sequential meaning of the flow and
    reservation handlers, in one expression each. By `Serializability` every committed handler behaves
    this way on the table its predecessors left. */
module Atomic {
  import opened Ledger
  import opened Keys
  import opened Items
  import opened Ordering
  import opened Handlers
  import opened Writes
  import opened Reads
  import opened Serializability

  ghost predicate Constant(at: nat -> Table, t: Table) {
    forall i: nat :: at(i) == t
  }

  // ------------------------------------------------------------------------------------------
  // Flows
  // ------------------------------------------------------------------------------------------

  /** The flow a key leads to: its marker, and the row the marker names. */
  function KnownFlow(t: Table, tenant: string, key: string): Option<Item> {
    var m := Lookup(t, FIdempK(tenant, key));
    if m.Some? && m.value.FIdempItem? then
      var v := Lookup(t, FlowK(tenant, m.value.flowRunId));
      if v.Some? && v.value.FlowItem? then v else None
    else None
  }

  /** Why a flow cannot touch the pair `r`, if so. */
  function Problem(t: Table, tenant: string, r: BalRef): Option<Code> {
    var v := Lookup(t, AccK(tenant, r.account));
    if !(v.Some? && v.value.AccItem?) then Some(AccountNotFound)
    else if v.value.account.status != AccountStatus.Active then Some(InvalidAccountStatus)
    else if v.value.account.currency != r.currency then Some(AccountCurrencyMismatch)
    else None
  }

  function FirstProblem(t: Table, tenant: string, rs: seq<BalRef>): Option<Code> {
    if rs == [] then None
    else if Problem(t, tenant, rs[0]).Some? then Problem(t, tenant, rs[0])
    else FirstProblem(t, tenant, rs[1..])
  }

  const NoAccount := Account("", "", "", "", "", "", NormalDebit, false, ClosedAccount)

  /** The pair `r` as the table holds it. */
  function LoadedAt(t: Table, tenant: string, r: BalRef): Loaded {
    var v := Lookup(t, AccK(tenant, r.account));
    var b := Lookup(t, BalKey(tenant, r));
    var (d, c, ver) := BalanceRead(b);
    Loaded(if v.Some? && v.value.AccItem? then v.value.account else NoAccount, d, c, ver, b.Some?)
  }

  function LoadedAll(t: Table, tenant: string, rs: seq<BalRef>): (loaded: seq<Loaded>)
    ensures |loaded| == |rs|
    ensures forall i | 0 <= i < |rs| :: loaded[i] == LoadedAt(t, tenant, rs[i])
  {
    seq(|rs|, i requires 0 <= i < |rs| => LoadedAt(t, tenant, rs[i]))
  }

  function FlowSpec(env: Env, raw: FlowReq, t: Table): FlowResult {
    if !AmountsOk(raw.steps) then FlowFail(UnbalancedJournal)
    else
      var fr := Parsed(raw);
      var known := KnownFlow(t, fr.tenant, fr.key);
      if known.Some? && known.value.FlowItem? then
        if known.value.run.status != Completed then FlowFail(FlowConflict)
        else FlowReplay(known.value.run, known.value.steps)
      else
        var problem := FirstProblem(t, fr.tenant, RefsOf(fr));
        if problem.Some? then FlowFail(problem.value)
        else Post(env, fr, LoadedAll(t, fr.tenant, RefsOf(fr)))
  }

  lemma {:induction false} LoadingAlone(env: Env, fr: FlowReq, t: Table, at: nat -> Table, n: nat, k: nat)
    requires Constant(at, t) && Sound(t) && k <= |RefsOf(fr)|
    ensures var rs := RefsOf(fr);
            FlowDrive(env, fr, Loading(env, fr, LoadedAll(t, fr.tenant, rs[..k])), at, n).0 ==
            var problem := FirstProblem(t, fr.tenant, rs[k..]);
            FlowEnd(if problem.Some? then FlowFail(problem.value) else Post(env, fr, LoadedAll(t, fr.tenant, rs)))
    decreases |RefsOf(fr)| - k
  {
    hide RefsOf, Post, FlowDrive, Loading, LoadedAt, Sound;
    var rs := RefsOf(fr);
    var loaded := LoadedAll(t, fr.tenant, rs[..k]);
    if k == |rs| {
      assert rs[..k] == rs;
      LoadingDone(env, fr, loaded, at, n);
    } else {
      AccountRead(env, fr, loaded, at, n);
      assert rs[k..][1..] == rs[k + 1..] && rs[k..][0] == rs[k];
      assert at(n) == t;
      if Problem(t, fr.tenant, rs[k]) == None {
        var m := LoadOneAlone(env, fr, t, at, n + 1, loaded, rs[k]);
        assert loaded + [LoadedAt(t, fr.tenant, rs[k])] == LoadedAll(t, fr.tenant, rs[..k + 1]);
        LoadingAlone(env, fr, t, at, m, k + 1);
      }
    }
  }

  lemma {:induction false} LoadOneAlone(env: Env, fr: FlowReq, t: Table, at: nat -> Table, n: nat,
      loaded: seq<Loaded>, r: BalRef) returns (m: nat)
    requires Constant(at, t) && Sound(t) && |loaded| < |RefsOf(fr)| && r == RefsOf(fr)[|loaded|]
    requires Problem(t, fr.tenant, r) == None
    ensures LoadedAt(t, fr.tenant, r).account == Lookup(t, AccK(fr.tenant, r.account)).value.account
    ensures FlowDrive(env, fr, WantBalance(loaded, LoadedAt(t, fr.tenant, r).account), at, n)
         == FlowDrive(env, fr, Loading(env, fr, loaded + [LoadedAt(t, fr.tenant, r)]), at, m)
  {
    hide RefsOf, Post, FlowDrive, Loading;
    var l := LoadedAt(t, fr.tenant, r);
    BalanceReads(env, fr, loaded, l.account, at, n);
    assert at(n) == t && at(n + 1) == t;
    m := if l.version != 0 || l.debits != 0 || l.credits != 0 then n + 1 else n + 2;
  }

  lemma {:induction false} FlowAlone(env: Env, raw: FlowReq, t: Table, at: nat -> Table, n: nat)
    requires Constant(at, t) && Sound(t)
    ensures FlowDrive(env, Parsed(raw), FlowStart(raw), at, n).0 == FlowEnd(FlowSpec(env, raw, t))
  {
    hide RefsOf, Post, FlowDrive, Loading, AmountsOk, ParseSteps, LoadedAll;
    var fr := Parsed(raw);
    if !AmountsOk(raw.steps) {
      EndDrive(env, fr, FlowFail(UnbalancedJournal), at, n);
    } else {
      FlowMarkerReads(env, fr, at, n);
      NothingLoaded(t, fr.tenant, RefsOf(fr));
      LoadingAlone(env, fr, t, at, n + 1, 0);
      LoadingAlone(env, fr, t, at, n + 2, 0);
      assert at(n) == t && at(n + 1) == t && at(n + 2) == t;
    }
  }

  lemma {:induction false} NothingLoaded(t: Table, tenant: string, rs: seq<BalRef>)
    ensures LoadedAll(t, tenant, rs[..0]) == [] && rs[0..] == rs
  {
  }

  // ------------------------------------------------------------------------------------------
  // Handlers
  // ------------------------------------------------------------------------------------------

  /** The reservation row a commit, release or expiry works on. */
  function RowOf(r: Request, t: Table): Option<HeldRow> {
    var v := Lookup(t, ResK(TenantOf(r), ReservationIdOf(r)));
    if v.Some? && v.value.ResItem? then Some(HeldRow(v.value.reservation, v.value.resVersion)) else None
  }

  /** Whether a handler gets as far as its inner flow, and with what; else how it ends. */
  datatype Way = Ends(out: Outcome) | Flows(raw: FlowReq, row: Option<HeldRow>)

  function WayOf(r: Request, t: Table): Way {
    match r
    case CreateAccount(_, _, _, _, _, _, _) => Ends(Done(AccountWrites(NewAccount(r)), AccountResponse(NewAccount(r))))
    case ExecuteFlow(raw) => Flows(raw, None)
    case CreateReservation(tenant, key, _, _, _, amount, _) =>
      if amount <= 0 then Ends(Fail(ReservationAmountExceeds))
      else
        var m := Lookup(t, RIdempK(tenant, key));
        if m.Some? && m.value.RIdempItem? then
          var v := Lookup(t, ResK(tenant, m.value.reservationId));
          Ends(if v.Some? && v.value.ResItem? then Done([], ReservationResponse(v.value.reservation))
            else Fail(ReservationNotFound))
        else Flows(CreateFlow(r), None)
    case CommitReservation(tenant, _, _, destination, amount) =>
      var row := RowOf(r, t);
      if amount <= 0 then Ends(Fail(ReservationAmountExceeds))
      else if row == None then Ends(Fail(ReservationNotFound))
      else if Closed(row.value.res.status) then Ends(Fail(ReservationClosed))
      else if amount > row.value.res.outstanding then Ends(Fail(ReservationAmountExceeds))
      else
        var d := Lookup(t, AccK(tenant, destination));
        if !(d.Some? && d.value.AccItem?) then Ends(Fail(AccountNotFound))
        else if d.value.account.currency != row.value.res.currency then Ends(Fail(ReservationCurrencyMismatch))
        else Flows(CommitFlow(r, row.value.res, d.value.account.id), row)
    case ReleaseReservation(_, _, _, amount) =>
      var row := RowOf(r, t);
      if amount <= 0 then Ends(Fail(ReservationAmountExceeds))
      else if row == None then Ends(Fail(ReservationNotFound))
      else if Closed(row.value.res.status) then Ends(Fail(ReservationClosed))
      else if amount > row.value.res.outstanding then Ends(Fail(ReservationAmountExceeds))
      else Flows(ReleaseFlow(r, row.value.res), row)
    case ExpireReservation(_, _) =>
      var row := RowOf(r, t);
      if row == None then Ends(Fail(ReservationNotFound))
      else if Closed(row.value.res.status) || row.value.res.outstanding == 0 then Ends(Done([], NoResponse))
      else Flows(ExpireFlow(r, row.value.res), row)
  }

  function Outcome1(r: Request, env: Env, t: Table): Outcome {
    match WayOf(r, t)
    case Ends(out) => out
    case Flows(raw, row) => After(r, env, row, FlowSpec(env, raw, t))
  }

  lemma {:induction false} BeginAlone(r: Request, env: Env, raw: FlowReq, row: Option<HeldRow>, t: Table,
      at: nat -> Table, n: nat)
    requires Constant(at, t) && Sound(t)
    ensures Drive(r, env, BeginFlow(r, env, raw, row), at, n).0 == Finished(After(r, env, row, FlowSpec(env, raw, t)))
  {
    hide Drive, FlowDrive, After, FlowSpec, AmountsOk, RefsOf;
    FlowAlone(env, raw, t, at, n);
    DriveLift(r, env, Parsed(raw), row, FlowStart(raw), at, n);
  }

  /** A handler whose reads all see the table `t` ends as the sequential meaning says. */
  lemma {:induction false} DriveAlone(r: Request, env: Env, t: Table, at: nat -> Table, n: nat)
    requires Constant(at, t) && Sound(t)
    ensures Drive(r, env, Start(r, env), at, n).0 == Finished(Outcome1(r, env, t))
  {
    hide Drive, After, FlowSpec, BeginFlow, CreateFlow, CommitFlow, ReleaseFlow, ExpireFlow, Closed, NewAccount,
      AccountWrites;
    assert at(n) == t && at(n + 1) == t;
    var way := WayOf(r, t);
    if r.CreateReservation? && r.amount > 0 {
      MarkerRead(r, env, at, n);
    } else if Updates(r) && (r.ExpireReservation? || r.amount > 0) {
      RowReadIs(r, env, at, n);
      if r.CommitReservation? && RowOf(r, t).Some? {
        DestinationRead(r, env, RowOf(r, t).value, at, n + 1);
      }
    } else if Start(r, env).Finished? {
      DriveFinished(r, env, Start(r, env).out, at, n);
    }
    if way.Flows? {
      BeginAlone(r, env, way.raw, way.row, t, at, n);
      BeginAlone(r, env, way.raw, way.row, t, at, n + 1);
      BeginAlone(r, env, way.raw, way.row, t, at, n + 2);
    }
  }

  /** Answer and table of a handler alone on `t`. */
  function Result1(r: Request, env: Env, t: Table): CallResult {
    match Outcome1(r, env, t)
    case Fail(code) => CallResult(Err(code), None)
    case Done(ws, resp) =>
      var b := AddAll(Empty, ws);
      if |b.puts| == 0 then CallResult(Ok(resp), None)
      else if |b.puts| > MAX_TX_ITEMS then CallResult(Err(FlowTooLarge), None)
      else if AllHold(t, b) then CallResult(Ok(resp), Some(Written(t, b)))
      else CallResult(Err(Classify(t, b)), Some(t))
  }

  lemma {:induction false} AloneIs(r: Request, env: Env, t: Table)
    requires Sound(t)
    ensures Alone(r, env, t) == Result1(r, env, t)
  {
    hide Drive, Start, Outcome1, AllHold, Written, Classify, AddAll;
    var at := (_: nat) => t;
    DriveAlone(r, env, t, at, 0);
  }
}
