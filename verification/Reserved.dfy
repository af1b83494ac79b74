/** Reservations and money: what a reserved account holds is what its reservations still have
    outstanding, so on an unchanging table a reservation in bounds can be committed, released or expired. */
module Reserved {
  import opened Ledger
  import opened Keys
  import opened Items
  import opened Ordering
  import opened Handlers
  import opened Writes
  import opened Protocol
  import opened Serializability
  import opened Atomic
  import opened Effects
  import opened Books
  import opened Reachable
  import opened Holds
  import opened Sums

  // ------------------------------------------------------------------------------------------
  // The two sides of a transfer
  // ------------------------------------------------------------------------------------------

  /** A flow whose one journal debits one pair and credits another. */
  ghost predicate Transfers(fr: FlowReq, debit: BalRef, credit: BalRef, amount: int) {
    && |fr.steps| == 1
    && fr.steps[0].entries == [Entry(debit.account, debit.currency, Debit, amount),
      Entry(credit.account, credit.currency, Credit, amount)]
  }

  lemma {:induction false} TransferParsed(raw: FlowReq, debit: BalRef, credit: BalRef, amount: int)
    requires Transfers(raw, debit, credit, amount)
    ensures Transfers(Parsed(raw), debit, credit, amount)
    ensures AmountsOk(raw.steps) <==> amount > 0
  {
    var es := raw.steps[0].entries;
    assert es[0].amount == amount && es[1].amount == amount;
    assert Parsed(raw).steps[0].entries == es;
  }

  lemma {:induction false} TransferSums(fr: FlowReq, debit: BalRef, credit: BalRef, amount: int, ref: BalRef)
    requires Transfers(fr, debit, credit, amount)
    ensures var es := AllEntries(fr.steps);
            && Sum(es, ref, true) == (if ref == debit then amount else 0)
            && Sum(es, ref, false) == (if ref == credit then amount else 0)
    ensures ref in RefsOf(fr) <==> ref == debit || ref == credit
  {
    var es := fr.steps[0].entries;
    assert fr.steps[..0] == [];
    assert AllEntries(fr.steps) == es;
    assert es[..1] == [es[0]] && [es[0]][..0] == [];
    assert Sum([es[0]], ref, true) == if ref == debit then amount else 0;
    assert Sum([es[0]], ref, false) == 0;
    RefsSorted(es);
    assert es[0] in es && es[1] in es;
  }

  /** Debits less credits of one balance. */
  function Position(t: Table, tenant: string, ref: BalRef): int {
    var (d, c, _) := BalanceRead(Lookup(t, BalKey(tenant, ref)));
    d - c
  }

  lemma {:induction false} StepPosition(r: Request, env: Env, t: Table, u: Table, tenant: string, ref: BalRef)
    requires Takes(r, env, t, u)
    ensures var p := PostedBy(r, env, t);
            Position(u, tenant, ref) == Position(t, tenant, ref)
              + if p.Some? && p.value.tenant == tenant
                then Sum(AllEntries(p.value.steps), ref, true) - Sum(AllEntries(p.value.steps), ref, false) else 0
  {
    hide Takes, PostedBy, Sum, AllEntries, RefsOf;
    var p := PostedBy(r, env, t);
    StepBalance(r, env, t, u, tenant, ref);
    if p.Some? && ref !in RefsOf(p.value) {
      SumUnlisted(p.value, ref, true);
      SumUnlisted(p.value, ref, false);
    }
  }

  // ------------------------------------------------------------------------------------------
  // Outstanding amounts
  // ------------------------------------------------------------------------------------------

  function ReservedRef(res: Reservation): BalRef {
    BalRef(res.reservedAccountId, res.currency)
  }

  function SourceRef(res: Reservation): BalRef {
    BalRef(res.sourceAccountId, res.currency)
  }

  function OutstandingAt(t: Table, k: Key, tenant: string, ref: BalRef): int {
    if k in t && k.ResK? && k.tenant == tenant && t[k].ResItem? && ReservedRef(t[k].reservation) == ref
    then t[k].reservation.outstanding else 0
  }

  /** What the reservations of one reserved account still hold, summed over every stored reservation. */
  ghost function Outstanding(t: Table, tenant: string, ref: BalRef): int {
    SumOver(t.Keys, (k: Key) => OutstandingAt(t, k, tenant, ref))
  }

  /** The change at one row is the change of the total. */
  lemma {:induction false} OutstandingChange(t: Table, u: Table, tenant: string, ref: BalRef, k: Key)
    requires t.Keys <= u.Keys && k in u
    requires forall l: Key | l.ResK? && l != k :: Lookup(u, l) == Lookup(t, l)
    ensures Outstanding(u, tenant, ref) - Outstanding(t, tenant, ref)
        == OutstandingAt(u, k, tenant, ref) - OutstandingAt(t, k, tenant, ref)
  {
    var f, h := (l: Key) => OutstandingAt(t, l, tenant, ref), (l: Key) => OutstandingAt(u, l, tenant, ref);
    var g := (l: Key) => if l == k then OutstandingAt(u, k, tenant, ref) - OutstandingAt(t, k, tenant, ref) else 0;
    forall l | l in u.Keys ensures h(l) == f(l) + g(l) {
      if l.ResK? && l != k {
        assert Lookup(u, l) == Lookup(t, l);
      }
    }
    SumSplit(u.Keys, f, g, h);
    SumPoint(u.Keys, g, k);
    SumWiden(t.Keys, u.Keys, f);
  }

  lemma {:induction false} OutstandingKept(t: Table, u: Table, tenant: string, ref: BalRef)
    requires t.Keys <= u.Keys
    requires forall l: Key | l.ResK? :: Lookup(u, l) == Lookup(t, l)
    ensures Outstanding(u, tenant, ref) == Outstanding(t, tenant, ref)
  {
    var f, h := (l: Key) => OutstandingAt(t, l, tenant, ref), (l: Key) => OutstandingAt(u, l, tenant, ref);
    forall l | l in u.Keys ensures h(l) == f(l) {
      if l.ResK? {
        assert Lookup(u, l) == Lookup(t, l);
      }
    }
    SumAgree(u.Keys, f, h);
    SumWiden(t.Keys, u.Keys, f);
  }

  /** The reservation a handler works on, as it is before (or, for a creation, after) the step. */
  function Subject(r: Request, env: Env, t: Table): Option<Reservation> {
    if r.CreateReservation? && WayOf(r, t).Flows? && !FlowSpec(env, WayOf(r, t).raw, t).FlowFail?
      then Some(Created(r, env, t))
    else if Updates(r) && RowOf(r, t).Some? then Some(RowOf(r, t).value.res)
    else None
  }

  /** How much a handler takes into (creation) or out of (the others) its reservation. */
  function Moved(r: Request, t: Table): int {
    if r.CreateReservation? then r.amount
    else if r.CommitReservation? || r.ReleaseReservation? then -r.amount
    else if r.ExpireReservation? && RowOf(r, t).Some? then -RowOf(r, t).value.res.outstanding
    else 0
  }

  lemma {:induction false} StepOutstanding(r: Request, env: Env, t: Table, u: Table, tenant: string, ref: BalRef)
    requires Takes(r, env, t, u)
    ensures var s := Subject(r, env, t);
            Outstanding(u, tenant, ref) == Outstanding(t, tenant, ref)
              + if s.Some? && TenantOf(r) == tenant && ReservedRef(s.value) == ref then Moved(r, t) else 0
  {
    hide Takes, FlowSpec, WayOf, Outstanding, OutstandingAt, Created, RowOf, ReservationToItem;
    KeysKept(r, env, t, u);
    if r.CreateReservation? {
      CreatedAt(r, env, t, u, tenant, ref);
      var k := ResK(r.tenant, Created(r, env, t).id);
      StepOnly(r, env, t, u, k);
      StepReservation(r, env, t, u, k);
      OutstandingChange(t, u, tenant, ref, k);
    } else if Updates(r) {
      var k := ResK(TenantOf(r), ReservationIdOf(r));
      StepOnly(r, env, t, u, k);
      StepReservation(r, env, t, u, k);
      OutstandingChange(t, u, tenant, ref, k);
      UpdatedAt(r, env, t, u, tenant, ref);
    } else {
      forall l: Key | l.ResK? ensures Lookup(u, l) == Lookup(t, l) {
        StepReservation(r, env, t, u, l);
      }
      OutstandingKept(t, u, tenant, ref);
    }
  }

  lemma {:induction false} StepOnly(r: Request, env: Env, t: Table, u: Table, k: Key)
    requires Takes(r, env, t, u)
    requires r.CreateReservation? && WayOf(r, t).Flows? && !FlowSpec(env, WayOf(r, t).raw, t).FlowFail? ==>
               k == ResK(r.tenant, Created(r, env, t).id)
    requires Updates(r) ==> k == ResK(TenantOf(r), ReservationIdOf(r))
    ensures forall l: Key | l.ResK? && l != k :: Lookup(u, l) == Lookup(t, l)
  {
    hide Takes, FlowSpec, WayOf, Created, RowOf, ReservationToItem;
    forall l: Key | l.ResK? && l != k ensures Lookup(u, l) == Lookup(t, l) {
      StepReservation(r, env, t, u, l);
    }
  }

  lemma {:induction false} CreatedAt(r: Request, env: Env, t: Table, u: Table, tenant: string, ref: BalRef)
    requires Takes(r, env, t, u) && r.CreateReservation?
    ensures WayOf(r, t).Flows? && !FlowSpec(env, WayOf(r, t).raw, t).FlowFail?
    ensures var rsv := Created(r, env, t); var k := ResK(r.tenant, rsv.id);
            && k in u
            && OutstandingAt(t, k, tenant, ref) == 0
            && OutstandingAt(u, k, tenant, ref) == if r.tenant == tenant && ReservedRef(rsv) == ref then r.amount else 0
  {
    hide Takes, FlowSpec, WayOf, RowOf, ParseAccountOwner;
    StepReservation(r, env, t, u, ResK("", ""));
    StepReservation(r, env, t, u, ResK(r.tenant, Created(r, env, t).id));
  }

  lemma {:induction false} UpdatedAt(r: Request, env: Env, t: Table, u: Table, tenant: string, ref: BalRef)
    requires Takes(r, env, t, u) && Updates(r)
    ensures RowOf(r, t).Some?
    ensures var res := RowOf(r, t).value.res; var k := ResK(TenantOf(r), ReservationIdOf(r));
            && k in u
            && OutstandingAt(u, k, tenant, ref) - OutstandingAt(t, k, tenant, ref)
               == if TenantOf(r) == tenant && ReservedRef(res) == ref then Moved(r, t) else 0
  {
    hide Takes, FlowSpec, WayOf, ParseAccountOwner;
    StepReservation(r, env, t, u, ResK(TenantOf(r), ReservationIdOf(r)));
  }

  // ------------------------------------------------------------------------------------------
  // Money follows the reservation
  // ------------------------------------------------------------------------------------------

  /** The account on the other side of the inner flow. */
  function OtherRef(r: Request, res: Reservation): BalRef {
    if r.CommitReservation? then BalRef(r.destination, res.currency) else SourceRef(res)
  }

  /** The inner flow of a reservation handler moves its amount between the reserved account and the
      other one. */
  lemma {:induction false} InnerFlow(r: Request, env: Env, t: Table)
    requires Sound(t) && WayOf(r, t).Flows? && !r.ExecuteFlow? && (r.CreateReservation? ==> Subject(r, env, t).Some?)
    ensures Subject(r, env, t).Some? && WayOf(r, t).raw.tenant == TenantOf(r)
    ensures var res := Subject(r, env, t).value;
            if r.CreateReservation? then
              Moved(r, t) > 0
              && Transfers(WayOf(r, t).raw, ReservedRef(res), OtherRef(r, res), Moved(r, t))
            else
              Moved(r, t) != 0 && (!r.ExpireReservation? ==> Moved(r, t) < 0)
              && Transfers(WayOf(r, t).raw, OtherRef(r, res), ReservedRef(res), -Moved(r, t))
  {
    hide FlowSpec, Closed;
    if r.CommitReservation? {
      var k := AccK(r.tenant, r.destination);
      assert Typed(k, t[k]);
    }
  }

  /** A flow that does not fail posts unless its key is already known. */
  lemma {:induction false} PostsIffNew(r: Request, env: Env, t: Table)
    requires WayOf(r, t).Flows? && !FlowSpec(env, WayOf(r, t).raw, t).FlowFail?
    ensures PostedBy(r, env, t).Some? <==> KnownFlow(t, WayOf(r, t).raw.tenant, WayOf(r, t).raw.key) == None
    ensures PostedBy(r, env, t).Some? ==> PostedBy(r, env, t).value == Parsed(WayOf(r, t).raw)
  {
    hide WayOf, RefsOf, FirstProblem, LoadedAll, AmountsOk, StepOk, Overdrawn, FlowWrites, StepRows, RunOf, StepBase,
      ParseSteps;
    var raw := WayOf(r, t).raw;
    KnownIsFlow(t, raw.tenant, raw.key);
  }

  lemma {:induction false} KnownIsFlow(t: Table, tenant: string, key: string)
    ensures KnownFlow(t, tenant, key).Some? ==> KnownFlow(t, tenant, key).value.FlowItem?
  {
  }

  lemma {:induction false} StepMoney(r: Request, env: Env, t: Table, u: Table, tenant: string, ref: BalRef)
    requires Takes(r, env, t, u) && !r.ExecuteFlow? && !r.CreateAccount?
    ensures Subject(r, env, t).Some?
    ensures var res := Subject(r, env, t).value;
            Position(u, tenant, ref) == Position(t, tenant, ref)
              + if PostedBy(r, env, t).Some? && TenantOf(r) == tenant
                then (if ref == ReservedRef(res) then Moved(r, t) else 0)
                     - (if ref == OtherRef(r, res) then Moved(r, t) else 0)
                else 0
  {
    hide Takes, FlowSpec, WayOf, Sum, AllEntries, Position, Moved, RefsOf, ParseSteps, Transfers, PostedBy, OtherRef;
    TakesIs(r, env, t, u);
    TakesSound(r, env, t, u);
    SubjectSome(r, env, t, u);
    InnerFlow(r, env, t);
    StepPosition(r, env, t, u, tenant, ref);
    var res := Subject(r, env, t).value;
    PostsIffNew(r, env, t);
    if PostedBy(r, env, t).Some? {
      var raw := WayOf(r, t).raw;
      if r.CreateReservation? {
        TransferParsed(raw, ReservedRef(res), OtherRef(r, res), Moved(r, t));
        TransferSums(Parsed(raw), ReservedRef(res), OtherRef(r, res), Moved(r, t), ref);
      } else {
        TransferParsed(raw, OtherRef(r, res), ReservedRef(res), -Moved(r, t));
        TransferSums(Parsed(raw), OtherRef(r, res), ReservedRef(res), -Moved(r, t), ref);
      }
    }
  }

  lemma {:induction false} SubjectSome(r: Request, env: Env, t: Table, u: Table)
    requires Takes(r, env, t, u) && !r.ExecuteFlow? && !r.CreateAccount?
    ensures Subject(r, env, t).Some? && WayOf(r, t).Flows?
  {
    hide Takes, FlowSpec, WayOf, RowOf, Created, ReservationToItem;
    StepReservation(r, env, t, u, ResK("", ""));
  }

  /** The money of a reserved account changes by what its reservations' outstanding amounts change by
      exactly when the inner flow's key was new and its other side is another account. A call repeated
      under a used key, a commit into the reserved account and a creation out of it still change the
      amounts, but move nothing. */
  lemma {:induction false} MoneyFollowsIff(r: Request, env: Env, t: Table, u: Table)
    requires Takes(r, env, t, u) && !r.ExecuteFlow? && !r.CreateAccount?
    ensures Subject(r, env, t).Some? && WayOf(r, t).Flows?
    ensures var res := Subject(r, env, t).value;
            var ref, tenant := ReservedRef(res), TenantOf(r);
            Position(u, tenant, ref) - Position(t, tenant, ref)
              == Outstanding(u, tenant, ref) - Outstanding(t, tenant, ref)
            <==> KnownFlow(t, tenant, WayOf(r, t).raw.key) == None && OtherRef(r, res) != ref
  {
    hide Takes, FlowSpec, WayOf, Position, Outstanding, Moved, Transfers, PostedBy, OtherRef, KnownFlow;
    SubjectSome(r, env, t, u);
    TakesIs(r, env, t, u);
    TakesSound(r, env, t, u);
    InnerFlow(r, env, t);
    PostsIffNew(r, env, t);
    var ref := ReservedRef(Subject(r, env, t).value);
    StepMoney(r, env, t, u, TenantOf(r), ref);
    StepOutstanding(r, env, t, u, TenantOf(r), ref);
  }

  // ------------------------------------------------------------------------------------------
  // Runs
  // ------------------------------------------------------------------------------------------

  /** The discipline for one reserved account: flows submitted by clients leave it alone, it is only
      ever the reserved side, and handlers that work on it use new inner keys. */
  ghost predicate Respects(r: Request, env: Env, t: Table, tenant: string, ref: BalRef) {
    TenantOf(r) == tenant ==>
      && (r.ExecuteFlow? ==> ref !in RefsOf(Parsed(r.flow)))
      && (Subject(r, env, t).Some? ==>
            && OtherRef(r, Subject(r, env, t).value) != ref
            && (ReservedRef(Subject(r, env, t).value) == ref && WayOf(r, t).Flows?
              ==> KnownFlow(t, tenant, WayOf(r, t).raw.key) == None))
  }

  ghost predicate ReservedLaw(t: Table, tenant: string, ref: BalRef) {
    Position(t, tenant, ref) == Outstanding(t, tenant, ref)
  }

  lemma {:induction false} StepReservedLaw(r: Request, env: Env, t: Table, u: Table, tenant: string, ref: BalRef)
    requires Takes(r, env, t, u) && Respects(r, env, t, tenant, ref) && ReservedLaw(t, tenant, ref)
    ensures ReservedLaw(u, tenant, ref)
  {
    hide Takes, FlowSpec, WayOf, Position, Outstanding, Moved, PostedBy, OtherRef, KnownFlow, RefsOf, Sum, AllEntries,
      ParseSteps, NewAccount, Created, RowOf;
    StepOutstanding(r, env, t, u, tenant, ref);
    if r.CreateAccount? || r.ExecuteFlow? {
      StepPosition(r, env, t, u, tenant, ref);
      PlainPosts(r, env, t);
      if r.ExecuteFlow? && TenantOf(r) == tenant {
        SumUnlisted(Parsed(r.flow), ref, true);
        SumUnlisted(Parsed(r.flow), ref, false);
      }
    } else {
      SubjectSome(r, env, t, u);
      TakesIs(r, env, t, u);
      TakesSound(r, env, t, u);
      InnerFlow(r, env, t);
      PostsIffNew(r, env, t);
      StepMoney(r, env, t, u, tenant, ref);
    }
  }

  lemma {:induction false} PlainPosts(r: Request, env: Env, t: Table)
    requires r.CreateAccount? || r.ExecuteFlow?
    ensures Subject(r, env, t) == None
    ensures PostedBy(r, env, t).Some? ==>
              r.ExecuteFlow? && PostedBy(r, env, t).value == Parsed(r.flow) && Parsed(r.flow).tenant == TenantOf(r)
  {
    hide FlowSpec, ParseSteps, NewAccount, AccountWrites;
  }

  /** Every successful commit of the run respects the account; calls that lose their commit, or never
      reach it, are free to do anything. */
  ghost predicate RunRespects(t0: Table, actions: seq<Action>, tenant: string, ref: BalRef) {
    forall i {:trigger actions[i]} | 0 <= i < |actions| && Run(t0, actions[..i]).Some?
      && Succeeds(Run(t0, actions[..i]).value, actions[i]) ::
      var s := Run(t0, actions[..i]).value;
      var x := s.live[actions[i].id];
      Respects(x.req, x.env, s.table, tenant, ref)
  }

  /** Through every disciplined run, however its handlers interleave, the reserved account holds exactly
      the sum of what its reservations have outstanding. */
  lemma {:induction false} ReservedHolds(t0: Table, actions: seq<Action>, tenant: string, ref: BalRef)
    requires Sound(t0) && ReservedLaw(t0, tenant, ref) && Run(t0, actions).Some?
    requires RunRespects(t0, actions, tenant, ref)
    ensures ReservedLaw(Run(t0, actions).value.table, tenant, ref)
  {
    hide Inv, Enabled, Do, Sound, Respects, ReservedLaw, Succeeds;
    if actions != [] {
      var n := |actions| - 1;
      RespectsPrefix(t0, actions, n, tenant, ref);
      ReservedHolds(t0, actions[..n], tenant, ref);
      RunKeepsInv(t0, actions[..n]);
      var s, a := Run(t0, actions[..n]).value, actions[n];
      DoTakes(t0, s, a);
      if Do(s, a).table != s.table {
        ChangeIsSuccess(t0, s, a);
        CommitIsLive(s, a);
        StepReservedLaw(s.live[a.id].req, s.live[a.id].env, s.table, Do(s, a).table, tenant, ref);
      }
    }
  }

  lemma {:induction false} RespectsPrefix(t0: Table, actions: seq<Action>, n: nat, tenant: string, ref: BalRef)
    requires RunRespects(t0, actions, tenant, ref) && n <= |actions|
    ensures RunRespects(t0, actions[..n], tenant, ref)
  {
    hide Run, Respects, Succeeds;
    var shorter := actions[..n];
    forall i {:trigger shorter[i]} | 0 <= i < |shorter| && Run(t0, shorter[..i]).Some?
      && Succeeds(Run(t0, shorter[..i]).value, shorter[i])
      ensures var s := Run(t0, shorter[..i]).value;
              shorter[i].CommitTx? && shorter[i].id in s.live
              && Respects(s.live[shorter[i].id].req, s.live[shorter[i].id].env, s.table, tenant, ref)
    {
      assert shorter[..i] == actions[..i] && shorter[i] == actions[i];
      SuccessIsLive(Run(t0, shorter[..i]).value, shorter[i]);
    }
  }

  // ------------------------------------------------------------------------------------------
  // In bounds never fails
  // ------------------------------------------------------------------------------------------

  lemma {:induction false} OneOfTotal(t: Table, tenant: string, k: Key)
    requires HoldsOk(t) && k.ResK? && k.tenant == tenant && k in t && t[k].ResItem?
    ensures t[k].reservation.outstanding <= Outstanding(t, tenant, ReservedRef(t[k].reservation))
  {
    hide Conserved;
    var ref := ReservedRef(t[k].reservation);
    var f := (l: Key) => OutstandingAt(t, l, tenant, ref);
    forall l | l in t.Keys ensures f(l) >= 0 {
      assert HoldOk(t, l);
      ConservedParts(t, l);
    }
    SumNonNegative(t.Keys, f);
    assert f(k) == t[k].reservation.outstanding;
  }

  lemma {:induction false} ConservedParts(t: Table, k: Key)
    requires HoldOk(t, k)
    ensures k.ResK? && k in t && t[k].ResItem? ==> t[k].reservation.outstanding >= 0
  {
    hide ReservationToItem;
  }

  /** The balanced journal of a transfer. */
  lemma {:induction false} TransferOk(fr: FlowReq, debit: BalRef, credit: BalRef, amount: int)
    requires Transfers(fr, debit, credit, amount) && amount > 0 && fr.steps[0].eventId != ""
    requires debit.account != "" && credit.account != "" && debit.currency == credit.currency != ""
    ensures StepOk(fr.steps[0])
  {
    var es := fr.steps[0].entries;
    assert es[..1] == [es[0]] && [es[0]][..0] == [];
    assert Net([es[0]], debit.currency) == amount;
  }

  predicate DebitNormal(t: Table, tenant: string, ref: BalRef) {
    var a := Lookup(t, AccK(tenant, ref.account));
    a.Some? && a.value.AccItem? && a.value.account.normalBalance == NormalDebit
  }

  /** A transfer overdraws nothing between debit-normal accounts when the credited one holds enough. */
  lemma {:induction false} TransferSolvent(t: Table, fr: FlowReq, debit: BalRef, credit: BalRef, amount: int,
      ref: BalRef)
    requires Transfers(fr, debit, credit, amount) && amount > 0 && Solvent(t) && (ref == debit || ref == credit)
    requires Problem(t, fr.tenant, ref) == None && DebitNormal(t, fr.tenant, ref)
    requires ref == credit ==> Position(t, fr.tenant, credit) >= amount
    ensures !Overdrawn(fr, LoadedAt(t, fr.tenant, ref), ref)
  {
    hide Sum, AllEntries, RefsOf, Transfers;
    TransferSums(fr, debit, credit, amount, ref);
    assert RowSolvent(t, fr.tenant, ref);
  }

  /** The debited side of a transfer is never overdrawn by it. */
  lemma {:induction false} DebitSolvent(t: Table, fr: FlowReq, debit: BalRef, credit: BalRef, amount: int)
    requires Transfers(fr, debit, credit, amount) && amount > 0 && Solvent(t) && debit != credit
    requires Problem(t, fr.tenant, debit) == None && DebitNormal(t, fr.tenant, debit)
    ensures !Overdrawn(fr, LoadedAt(t, fr.tenant, debit), debit)
  {
    TransferSolvent(t, fr, debit, credit, amount, debit);
  }

  /** A transfer under a new key between usable accounts posts unless it overdraws one of them. */
  lemma {:induction false} TransferPostsIf(env: Env, raw: FlowReq, t: Table, debit: BalRef, credit: BalRef, amount: int)
    requires Transfers(raw, debit, credit, amount) && amount > 0 && raw.steps[0].eventId != ""
    requires debit.account != "" && credit.account != "" && debit.currency == credit.currency != ""
    requires KnownFlow(t, raw.tenant, raw.key) == None
    requires Problem(t, raw.tenant, debit) == None && Problem(t, raw.tenant, credit) == None
    requires !Overdrawn(Parsed(raw), LoadedAt(t, raw.tenant, debit), debit)
    requires !Overdrawn(Parsed(raw), LoadedAt(t, raw.tenant, credit), credit)
    ensures FlowSpec(env, raw, t).FlowPosted?
  {
    hide Transfers, Problem, KnownFlow, Overdrawn, StepOk, LoadedAt, RefsOf, AmountsOk, FlowWrites, RunOf, StepRows,
      StepBase, ParseStep;
    var fr := Parsed(raw);
    TransferParsed(raw, debit, credit, amount);
    OneStep(fr, debit, credit, amount);
    OneStep(raw, debit, credit, amount);
    TransferOk(fr, debit, credit, amount);
    forall ref | ref in RefsOf(fr) ensures Problem(t, fr.tenant, ref) == None
        && !Overdrawn(fr, LoadedAt(t, fr.tenant, ref), ref) {
      TransferSums(fr, debit, credit, amount, ref);
    }
    NoProblem(t, fr.tenant, RefsOf(fr));
  }

  /** Between debit-normal accounts it posts when the credited one holds enough. */
  lemma {:induction false} TransferPosts(env: Env, raw: FlowReq, t: Table, debit: BalRef, credit: BalRef, amount: int)
    requires Transfers(raw, debit, credit, amount) && amount > 0 && raw.steps[0].eventId != "" && Solvent(t)
    requires debit.account != "" && credit.account != "" && debit.currency == credit.currency != ""
    requires KnownFlow(t, raw.tenant, raw.key) == None
    requires Problem(t, raw.tenant, debit) == None && DebitNormal(t, raw.tenant, debit)
    requires Problem(t, raw.tenant, credit) == None && DebitNormal(t, raw.tenant, credit)
    requires Position(t, raw.tenant, credit) >= amount
    ensures FlowSpec(env, raw, t).FlowPosted?
  {
    hide Transfers, Problem, DebitNormal, KnownFlow, Position, Overdrawn, LoadedAt, ParseSteps, Solvent, FlowSpec;
    TransferParsed(raw, debit, credit, amount);
    TransferSolvent(t, Parsed(raw), debit, credit, amount, debit);
    TransferSolvent(t, Parsed(raw), debit, credit, amount, credit);
    TransferPostsIf(env, raw, t, debit, credit, amount);
  }

  lemma {:induction false} OneStep(fr: FlowReq, debit: BalRef, credit: BalRef, amount: int)
    requires Transfers(fr, debit, credit, amount)
    ensures |fr.steps| == 1
    ensures Parsed(fr).steps[0].eventId == fr.steps[0].eventId
  {
  }

  predicate Usable(t: Table, tenant: string, ref: BalRef) {
    ref.account != "" && ref.currency != "" && Problem(t, tenant, ref) == None && DebitNormal(t, tenant, ref)
  }

  /** A commit, release or expiry that stays within the outstanding amount, between active debit-normal
      accounts of the reservation's currency and under a new inner key, goes through when all its reads see
      one table: its flow posts and the handler goes on to its commit. For changing tables see `Backing`. */
  lemma {:induction false} InBoundsPosts(r: Request, env: Env, t: Table)
    requires Sound(t) && Solvent(t) && HoldsOk(t) && Updates(r) && WayOf(r, t).Flows? && RowOf(r, t).Some?
    requires ReservedLaw(t, TenantOf(r), ReservedRef(RowOf(r, t).value.res))
    requires KnownFlow(t, TenantOf(r), WayOf(r, t).raw.key) == None
    requires Usable(t, TenantOf(r), ReservedRef(RowOf(r, t).value.res))
    requires Usable(t, TenantOf(r), OtherRef(r, RowOf(r, t).value.res))
    ensures FlowSpec(env, WayOf(r, t).raw, t).FlowPosted?
    ensures Outcome1(r, env, t).Done?
  {
    hide FlowSpec, Transfers, Problem, DebitNormal, KnownFlow, Solvent, Outstanding, Position, HoldsOk, Conserved,
      WayOf, Moved, Created, RowOf;
    var res := RowOf(r, t).value.res;
    var raw := WayOf(r, t).raw;
    InnerFlow(r, env, t);
    UpdateFound(r, t);
    RowIs(r, t);
    OneOfTotal(t, TenantOf(r), ResK(TenantOf(r), ReservationIdOf(r)));
    MovedIs(r, t);
    InnerEvent(r, t);
    OneStep(raw, OtherRef(r, res), ReservedRef(res), -Moved(r, t));
    TransferPosts(env, raw, t, OtherRef(r, res), ReservedRef(res), -Moved(r, t));
    AfterUpdates(r, env, RowOf(r, t).value, FlowSpec(env, raw, t));
  }

  lemma {:induction false} MovedIs(r: Request, t: Table)
    requires Updates(r) && WayOf(r, t).Flows? && RowOf(r, t).Some? && HoldsOk(t)
    ensures 0 < -Moved(r, t) <= RowOf(r, t).value.res.outstanding
  {
    hide CommitFlow, ReleaseFlow, ExpireFlow;
    RowIs(r, t);
    assert HoldOk(t, ResK(TenantOf(r), ReservationIdOf(r)));
    UpdateFound(r, t);
  }

  lemma {:induction false} InnerEvent(r: Request, t: Table)
    requires Updates(r) && WayOf(r, t).Flows?
    ensures |WayOf(r, t).raw.steps| == 1 && WayOf(r, t).raw.steps[0].eventId != ""
  {
    hide Closed, RowOf;
  }

  // ------------------------------------------------------------------------------------------
  // The repeated call
  // ------------------------------------------------------------------------------------------

  /** A repeated call: the inner key is known, so the call succeeds, books its amount a second time, and
      moves no money. */
  lemma {:induction false} RepeatBooksAgain(r: Request, env: Env, t: Table) returns (u: Table)
    requires Sound(t) && Updates(r) && WayOf(r, t).Flows? && RowOf(r, t).Some? && Moved(r, t) < 0
    requires var known := KnownFlow(t, TenantOf(r), WayOf(r, t).raw.key);
             known.Some? && known.value.FlowItem? && known.value.run.status == Completed
    requires ObxK(env.Id(0)) !in t
    ensures Takes(r, env, t, u)
    ensures Lookup(u, ResK(TenantOf(r), ReservationIdOf(r)))
         == Some(ReservationToItem(Updated(r, RowOf(r, t).value.res), RowOf(r, t).value.version + 1))
    ensures forall tenant, ref :: Position(u, tenant, ref) == Position(t, tenant, ref)
  {
    hide Alone, Written, FlowSpec, WayOf, Updated, UpdatedEvent, ReservationToItem, KnownFlow, Moved, RowOf,
      Transfers, AmountsOk, PostedBy, Position;
    var row := RowOf(r, t).value;
    var raw := WayOf(r, t).raw;
    InnerFlow(r, env, t);
    TransferParsed(raw, OtherRef(r, row.res), ReservedRef(row.res), -Moved(r, t));
    KnownReplays(env, raw, t);
    UpdateFound(r, t);
    AfterUpdates(r, env, row, FlowSpec(env, raw, t));
    var ws := UpdateWrites(r, row, Updated(r, row.res), UpdatedEvent(r, env.Id(0), row.res));
    assert Outcome1(r, env, t).writes == ws;
    UpdateBuffer(r, env, t);
    AloneIs(r, env, t);
    u := Written(t, AddAll(Empty, ws));
    StepReservation(r, env, t, u, ResK(TenantOf(r), ReservationIdOf(r)));
    PostsIffNew(r, env, t);
    forall tenant, ref ensures Position(u, tenant, ref) == Position(t, tenant, ref) {
      StepPosition(r, env, t, u, tenant, ref);
    }
  }

  lemma {:induction false} KnownReplays(env: Env, raw: FlowReq, t: Table)
    requires AmountsOk(raw.steps)
    requires var known := KnownFlow(t, raw.tenant, raw.key);
             known.Some? && known.value.FlowItem? && known.value.run.status == Completed
    ensures FlowSpec(env, raw, t).FlowReplay?
  {
    hide AmountsOk, KnownFlow, RefsOf, ParseSteps;
  }

  lemma {:induction false} UpdateBuffer(r: Request, env: Env, t: Table)
    requires Sound(t) && Updates(r) && RowOf(r, t).Some? && ObxK(env.Id(0)) !in t
    ensures var row := RowOf(r, t).value;
            var b := AddAll(Empty, UpdateWrites(r, row, Updated(r, row.res), UpdatedEvent(r, env.Id(0), row.res)));
            |b.puts| == 2 && AllHold(t, b)
  {
    hide Updated, ReservationToItem;
    var row := RowOf(r, t).value;
    var k := ResK(TenantOf(r), ReservationIdOf(r));
    RowIs(r, t);
    assert Typed(k, t[k]);
    var e := UpdatedEvent(r, env.Id(0), row.res);
    assert e.id == env.Id(0);
    TwoWrites(t, UpdateWrites(r, row, Updated(r, row.res), e)[0], OutboxWrite(e));
  }

  lemma {:induction false} TwoWrites(t: Table, v: Write, w: Write)
    requires v.key != w.key && CondHolds(t, v.key, v.cond) && CondHolds(t, w.key, w.cond)
    ensures |AddAll(Empty, [v, w]).puts| == 2 && AllHold(t, AddAll(Empty, [v, w]))
  {
    hide CondHolds;
    var one := Add(Empty, v);
    assert [v, w][..1] == [v] && [v][..0] == [];
    assert AddAll(Empty, [v]) == one && AddAll(Empty, [v, w]) == Add(one, w);
    assert Add(one, w).puts.Keys == {v.key, w.key};
    assert |Add(one, w).puts| == |Add(one, w).puts.Keys|;
  }
}
