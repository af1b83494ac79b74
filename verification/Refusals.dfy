/** The error a handler answers, alone on a table, and when: every refusal before the commit, by what is wrong with
    the request or with the rows it reads, in the order in which these are found. */
module Refusals {
  import opened Ledger
  import opened Keys
  import opened Items
  import opened Ordering
  import opened Handlers
  import opened Writes
  import opened Serializability
  import opened Atomic
  import opened Effects
  import opened Funds

  // ------------------------------------------------------------------------------------------
  // Flow submissions
  // ------------------------------------------------------------------------------------------

  lemma {:induction false} FlowRefused(raw: FlowReq, env: Env, t: Table, code: Code)
    requires Sound(t) && FlowSpec(env, raw, t) == FlowFail(code)
    ensures Alone(Request.ExecuteFlow(raw), env, t) == CallResult(Err(code), None)
  {
    hide FlowSpec, AllHold, Written, Classify, Alone;
    AloneIs(Request.ExecuteFlow(raw), env, t);
  }

  /** An amount that is not positive comes first, before anything is read. */
  lemma {:induction false} AmountRefused(raw: FlowReq, env: Env, t: Table, i: nat, j: nat)
    requires Sound(t) && i < |raw.steps| && j < |raw.steps[i].entries| && raw.steps[i].entries[j].amount <= 0
    ensures Alone(Request.ExecuteFlow(raw), env, t) == CallResult(Err(UnbalancedJournal), None)
  {
    hide RefsOf, Post, FirstProblem, KnownFlow, Alone;
    FlowRefused(raw, env, t, UnbalancedJournal);
  }

  /** An existing active account of the pair's currency. */
  predicate Fine(t: Table, tenant: string, ref: BalRef) {
    var v := Lookup(t, AccK(tenant, ref.account));
    v.Some? && v.value.AccItem? && v.value.account.status == AccountStatus.Active
      && v.value.account.currency == ref.currency
  }

  lemma {:induction false} FirstProblemAt(t: Table, tenant: string, rs: seq<BalRef>, i: nat)
    requires i < |rs| && Problem(t, tenant, rs[i]).Some? && forall j | 0 <= j < i :: Problem(t, tenant, rs[j]) == None
    ensures FirstProblem(t, tenant, rs) == Problem(t, tenant, rs[i])
  {
    hide Problem;
    if i > 0 {
      assert rs[1..][i - 1] == rs[i];
      FirstProblemAt(t, tenant, rs[1..], i - 1);
    }
  }

  /** Then, for a new key, the accounts in their fixed order: the first one that is missing, not active, or of
      another currency. */
  lemma {:induction false} AccountRefused(raw: FlowReq, env: Env, t: Table, i: nat)
    requires Sound(t) && AmountsOk(raw.steps) && KnownFlow(t, raw.tenant, raw.key) == None
    requires i < |RefsOf(Parsed(raw))| && !Fine(t, raw.tenant, RefsOf(Parsed(raw))[i])
    requires forall j | 0 <= j < i :: Fine(t, raw.tenant, RefsOf(Parsed(raw))[j])
    ensures var v := Lookup(t, AccK(raw.tenant, RefsOf(Parsed(raw))[i].account));
            Alone(Request.ExecuteFlow(raw), env, t) == CallResult(Err(
              if v == None then AccountNotFound
              else if v.value.AccItem? && v.value.account.status != AccountStatus.Active then InvalidAccountStatus
              else AccountCurrencyMismatch), None)
  {
    hide AmountsOk, KnownFlow, RefsOf, Post, Alone, FirstProblem, Sound, ParseSteps;
    var refs := RefsOf(Parsed(raw));
    FirstProblemAt(t, raw.tenant, refs, i);
    AccountTyped(t, raw.tenant, refs[i].account);
    FlowRefused(raw, env, t, Problem(t, raw.tenant, refs[i]).value);
  }

  lemma {:induction false} AccountTyped(t: Table, tenant: string, account: string)
    requires Sound(t)
    ensures AccK(tenant, account) in t ==> t[AccK(tenant, account)].AccItem?
  {
    assert AccK(tenant, account) in t ==> Typed(AccK(tenant, account), t[AccK(tenant, account)]);
  }

  /** Then the journals. */
  lemma {:induction false} JournalRefused(raw: FlowReq, env: Env, t: Table, i: nat)
    requires Sound(t) && AmountsOk(raw.steps) && KnownFlow(t, raw.tenant, raw.key) == None
    requires forall ref | ref in RefsOf(Parsed(raw)) :: Fine(t, raw.tenant, ref)
    requires i < |Parsed(raw).steps| && !JournalOk(Parsed(raw).steps[i].eventId, Parsed(raw).steps[i].entries)
    ensures Alone(Request.ExecuteFlow(raw), env, t) == CallResult(Err(UnbalancedJournal), None)
  {
    hide AmountsOk, KnownFlow, RefsOf, Alone, FirstProblem, Sound, ParseSteps, JournalOk, Overdrawn, FlowWrites,
      StepRows, RunOf, StepBase;
    NoProblem(t, raw.tenant, RefsOf(Parsed(raw)));
    assert !StepOk(Parsed(raw).steps[i]);
    FlowRefused(raw, env, t, UnbalancedJournal);
  }

  /** And last the funds. */
  lemma {:induction false} FundsRefused(raw: FlowReq, env: Env, t: Table, ref: BalRef)
    requires Sound(t) && AmountsOk(raw.steps) && KnownFlow(t, raw.tenant, raw.key) == None
    requires forall ref | ref in RefsOf(Parsed(raw)) :: Fine(t, raw.tenant, ref)
    requires forall i | 0 <= i < |Parsed(raw).steps| ::
               JournalOk(Parsed(raw).steps[i].eventId, Parsed(raw).steps[i].entries)
    requires ref in RefsOf(Parsed(raw)) && !Affords(t, Parsed(raw), ref)
    ensures Alone(Request.ExecuteFlow(raw), env, t) == CallResult(Err(InsufficientFunds), None)
  {
    hide AmountsOk, KnownFlow, RefsOf, Alone, FlowSpec, Sound, ParseSteps, JournalOk, Affords;
    FundsDecide(env, raw, t);
    FlowRefused(raw, env, t, InsufficientFunds);
  }

  // ------------------------------------------------------------------------------------------
  // Reservations
  // ------------------------------------------------------------------------------------------

  lemma {:induction false} EndsAnswer(r: Request, env: Env, t: Table)
    requires Sound(t) && WayOf(r, t).Ends? && !r.CreateAccount?
    ensures WayOf(r, t).out.Done? ==> WayOf(r, t).out.writes == []
    ensures Alone(r, env, t) == CallResult(
              if WayOf(r, t).out.Done? then Ok(WayOf(r, t).out.resp) else Err(WayOf(r, t).out.code), None)
  {
    hide WayOf, AllHold, Written, Classify, Alone;
    EndsEarly(r, t);
    AloneIs(r, env, t);
    assert |AddAll(Empty, []).puts| == 0;
  }

  /** A commit or release: a positive amount, then the reservation, that it is open, that it holds the amount, and
      for a commit that the destination exists with its currency. */
  lemma {:induction false} UpdateRefused(r: Request, env: Env, t: Table)
    requires Sound(t) && (r.CommitReservation? || r.ReleaseReservation?)
    ensures var v := Lookup(t, ResK(r.tenant, r.reservation));
            var refused := (code: Code) => CallResult(Err(code), None);
            && (r.amount <= 0 ==> Alone(r, env, t) == refused(ReservationAmountExceeds))
            && (r.amount > 0 ==>
                  && (v == None ==> Alone(r, env, t) == refused(ReservationNotFound))
                  && (v.Some? && v.value.ResItem? ==>
                        var res := v.value.reservation;
                        if res.status in {Committed, Released, Expired}
                          then Alone(r, env, t) == refused(ReservationClosed)
                        else if r.amount > res.outstanding then Alone(r, env, t) == refused(ReservationAmountExceeds)
                        else r.CommitReservation? ==>
                          var d := Lookup(t, AccK(r.tenant, r.destination));
                          && (d == None ==> Alone(r, env, t) == refused(AccountNotFound))
                          && (d.Some? && d.value.AccItem? && d.value.account.currency != res.currency ==>
                                Alone(r, env, t) == refused(ReservationCurrencyMismatch))))
  {
    hide Alone, CommitFlow, ReleaseFlow, ExpireFlow;
    if WayOf(r, t).Ends? {
      EndsAnswer(r, env, t);
    }
  }

  /** An expiry of a missing reservation is refused, one of a closed one answered without writing. */
  lemma {:induction false} ExpiryRefused(r: Request, env: Env, t: Table)
    requires Sound(t) && r.ExpireReservation?
    ensures var v := Lookup(t, ResK(r.tenant, r.reservation));
            && (v == None ==> Alone(r, env, t) == CallResult(Err(ReservationNotFound), None))
            && (v.Some? && v.value.ResItem? && v.value.reservation.status in {Committed, Released, Expired} ==>
                  Alone(r, env, t) == CallResult(Ok(NoResponse), None))
  {
    hide Alone, CommitFlow, ReleaseFlow, ExpireFlow;
    if WayOf(r, t).Ends? {
      EndsAnswer(r, env, t);
    }
  }

  /** A creation of no positive amount, or whose key leads to a reservation that is not there. */
  lemma {:induction false} CreationRefused(r: Request, env: Env, t: Table)
    requires Sound(t) && r.CreateReservation?
    ensures r.amount <= 0 ==> Alone(r, env, t) == CallResult(Err(ReservationAmountExceeds), None)
    ensures var m := Lookup(t, RIdempK(r.tenant, r.key));
            r.amount > 0 && m.Some? && m.value.RIdempItem? && ResK(r.tenant, m.value.reservationId) !in t ==>
              Alone(r, env, t) == CallResult(Err(ReservationNotFound), None)
  {
    hide Alone, CreateFlow;
    if WayOf(r, t).Ends? {
      EndsAnswer(r, env, t);
    }
  }

  /** A reservation handler whose inner flow is refused answers that flow's error and writes nothing. */
  lemma {:induction false} InnerRefused(r: Request, env: Env, t: Table, code: Code)
    requires Sound(t) && WayOf(r, t).Flows? && FlowSpec(env, WayOf(r, t).raw, t) == FlowFail(code)
    ensures Alone(r, env, t) == CallResult(Err(code), None)
  {
    hide WayOf, FlowSpec, AllHold, Written, Classify, Alone;
    AloneIs(r, env, t);
  }

  /** An account whose id, or whose owner, type and currency, are in use. */
  lemma {:induction false} AccountTaken(r: Request, env: Env, t: Table)
    requires Sound(t) && r.CreateAccount?
    requires AccK(r.tenant, AccountId(r.ownerType, r.ownerId, r.accountType, r.currency)) in t
             || AccUK(r.tenant, r.ownerType, r.ownerId, r.accountType, r.currency) in t
    ensures Alone(r, env, t).answer == Err(FlowConflict)
  {
    hide Alone, AccountId;
    AloneIs(r, env, t);
    var ws := AccountWrites(NewAccount(r));
    assert ws == [ws[0], ws[1]] && ws[..1] == [ws[0]] && ws[..1][..0] == [];
    var b := AddAll(Empty, ws);
    assert AddAll(Empty, [ws[0]]) == Add(Empty, ws[0]);
    assert ws[..|ws| - 1] == [ws[0]];
    assert b == Add(Add(Empty, ws[0]), ws[1]);
    assert b.puts.Keys == {ws[0].key, ws[1].key} && b.order == [ws[0].key, ws[1].key];
    assert |b.puts| == |b.puts.Keys|;
    assert !CondHolds(t, ws[0].key, b.puts[ws[0].key].cond) || !CondHolds(t, ws[1].key, b.puts[ws[1].key].cond);
    assert !AllHold(t, b);
    var n := FirstFailure(t, b, 0);
    assert b.order[0] == ws[0].key && b.order[1] == ws[1].key;
  }
}
