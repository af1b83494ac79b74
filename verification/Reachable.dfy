/** The ledger invariants and idempotency over whole runs of the interleaved protocol. */
module Reachable {
  import opened Ledger
  import opened Keys
  import opened Items
  import opened Ordering
  import opened Handlers
  import opened Writes
  import opened Protocol
  import opened Serializability
  import opened Journals
  import opened Effects
  import opened Books
  import opened Idempotency

  // ------------------------------------------------------------------------------------------
  // From runs to atomic steps
  // ------------------------------------------------------------------------------------------

  /** Each protocol action either leaves the table alone or is one handler's atomic step. */
  lemma {:induction false} DoTakes(t0: Table, s: State, a: Action)
    requires Inv(t0, s) && Enabled(s, a)
    ensures Do(s, a).table == s.table
            || (a.CommitTx? && Takes(s.live[a.id].req, s.live[a.id].env, s.table, Do(s, a).table))
    ensures a.CommitTx? && s.live[a.id].local.out.writes != [] &&
            CommitOn(s.table, AddAll(Empty, s.live[a.id].local.out.writes)).0 == None ==>
              Takes(s.live[a.id].req, s.live[a.id].env, s.table, Do(s, a).table)
              && Alone(s.live[a.id].req, s.live[a.id].env, s.table).answer == Ok(s.live[a.id].local.out.resp)
  {
    hide TxOk, Sound, Alone, Serial, SerialAnswers, AllHold, Written, Classify, AddAll, Start, Feed, Want;
    if a.CommitTx? {
      var x := s.live[a.id];
      var ws := x.local.out.writes;
      if ws == [] || CommitOn(s.table, AddAll(Empty, ws)).0 != None {
        IdleCommitKeepsInv(t0, s, a.id);
      } else {
        CommitIsAtomic(s.table, x);
      }
    }
  }

  /** A commit that writes. */
  predicate Succeeds(s: State, a: Action) {
    && a.CommitTx? && Enabled(s, a)
    && s.live[a.id].local.out.writes != []
    && CommitOn(s.table, AddAll(Empty, s.live[a.id].local.out.writes)).0 == None
  }

  lemma {:induction false} SuccessIsLive(s: State, a: Action)
    requires Succeeds(s, a)
    ensures a.CommitTx? && a.id in s.live && Enabled(s, a)
  {
    hide CommitOn, AddAll;
  }

  /** Only such a commit changes the table. */
  lemma {:induction false} ChangeIsSuccess(t0: Table, s: State, a: Action)
    requires Inv(t0, s) && Enabled(s, a) && Do(s, a).table != s.table
    ensures Succeeds(s, a)
  {
    hide Inv, AllHold, Written, Classify, AddAll, Start, Feed, Want;
    if a.CommitTx? {
      if !Succeeds(s, a) {
        IdleCommitKeepsInv(t0, s, a.id);
      }
    }
  }

  ghost predicate LiveDistinct(s: State) {
    forall id | id in s.live :: DistinctIds(s.live[id].env)
  }

  /** Every handler call of the run draws distinct ids. */
  ghost predicate DrawsDistinct(actions: seq<Action>) {
    forall i | 0 <= i < |actions| && actions[i].BeginTx? :: DistinctIds(actions[i].env)
  }

  lemma {:induction false} DoLiveDistinct(s: State, a: Action)
    requires LiveDistinct(s) && Enabled(s, a) && (a.BeginTx? ==> DistinctIds(a.env))
    ensures LiveDistinct(Do(s, a))
  {
    hide DistinctIds, Start, Feed, Want, CommitOn;
  }

  // ------------------------------------------------------------------------------------------
  // The invariants
  // ------------------------------------------------------------------------------------------

  ghost predicate LedgerInv(t: Table) {
    Sound(t) && BalancesAddUp(t) && BooksBalance(t) && Solvent(t) && Tidy(t)
  }

  lemma {:induction false} EmptyLedger()
    ensures LedgerInv(map[])
  {
    var t: Table := map[];
    forall tenant, ref {:trigger BalKey(tenant, ref)}
      ensures var (d, c, _) := BalanceRead(Lookup(t, BalKey(tenant, ref)));
              d == PostedTotal(t, tenant, ref, true) && c == PostedTotal(t, tenant, ref, false)
    {
    }
  }

  lemma {:induction false} StepLedger(r: Request, env: Env, t: Table, u: Table)
    requires Takes(r, env, t, u) && DistinctIds(env) && LedgerInv(t) && Sound(u)
    ensures LedgerInv(u)
  {
    hide Takes, DistinctIds, Tidy, BalancesAddUp, RowSolvent, BooksNet, Sound;
    StepAddsUp(r, env, t, u);
    StepTidy(r, env, t, u);
    forall tenant, currency ensures BooksNet(u, tenant, currency) == 0 {
      StepBooks(r, env, t, u, tenant, currency);
    }
    forall tenant, ref ensures RowSolvent(u, tenant, ref) {
      StepSolvent(r, env, t, u, tenant, ref);
    }
  }

  /** In every state of every run, however the handlers interleave, the ledger invariants hold. */
  lemma {:induction false} LedgerHolds(t0: Table, actions: seq<Action>)
    requires LedgerInv(t0) && Run(t0, actions).Some? && DrawsDistinct(actions)
    ensures LedgerInv(Run(t0, actions).value.table)
    ensures LiveDistinct(Run(t0, actions).value)
  {
    hide LedgerInv, DistinctIds, Enabled, Do, Inv, LiveDistinct;
    LedgerIsSound(t0);
    RunKeepsInv(t0, actions);
    if actions != [] {
      var n := |actions| - 1;
      var s, a := Run(t0, actions[..n]).value, actions[n];
      LedgerHolds(t0, actions[..n]);
      RunKeepsInv(t0, actions[..n]);
      DoLiveDistinct(s, a);
      DoTakes(t0, s, a);
      InvIsSound(t0, Do(s, a));
      if Do(s, a).table != s.table {
        CommitterDistinct(s, a);
        StepLedger(s.live[a.id].req, s.live[a.id].env, s.table, Do(s, a).table);
      }
    } else {
      NobodyLive(t0);
    }
  }

  lemma {:induction false} LedgerIsSound(t: Table)
    requires LedgerInv(t)
    ensures Sound(t)
  {
    hide Sound, BalancesAddUp, BooksBalance, Solvent, Tidy;
  }

  lemma {:induction false} InvIsSound(t0: Table, s: State)
    requires Inv(t0, s)
    ensures Sound(s.table)
  {
    hide Sound, TxOk, Serial, SerialAnswers;
  }

  lemma {:induction false} CommitterDistinct(s: State, a: Action)
    requires LiveDistinct(s) && Enabled(s, a) && a.CommitTx?
    ensures a.id in s.live && DistinctIds(s.live[a.id].env)
  {
    hide DistinctIds;
  }

  lemma {:induction false} NobodyLive(t0: Table)
    ensures LiveDistinct(Initial(t0))
  {
  }

  /** Starting from an empty table, every balance row is the sum of the entries posted to it, debit side
      and credit side; a balance without a row has none. */
  lemma {:induction false} BalanceIsSumOfEntries(actions: seq<Action>, tenant: string, ref: BalRef)
    requires Run(map[], actions).Some? && DrawsDistinct(actions)
    ensures var t := Run(map[], actions).value.table;
            var (d, c, _) := BalanceRead(Lookup(t, BalKey(tenant, ref)));
            d == PostedTotal(t, tenant, ref, true) && c == PostedTotal(t, tenant, ref, false)
  {
    EmptyLedger();
    LedgerHolds(map[], actions);
  }

  /** Each tenant's posted debits equal its posted credits in each currency. */
  lemma {:induction false} DebitsEqualCredits(actions: seq<Action>, tenant: string, currency: string)
    requires Run(map[], actions).Some? && DrawsDistinct(actions)
    ensures BooksNet(Run(map[], actions).value.table, tenant, currency) == 0
  {
    EmptyLedger();
    LedgerHolds(map[], actions);
  }

  /** No account that disallows negatives is ever on the wrong side: a debit-normal one has at least as much
      debited as credited, a credit-normal one at least as much credited as debited. */
  lemma {:induction false} NeverOverdrawn(actions: seq<Action>, tenant: string, ref: BalRef)
    requires Run(map[], actions).Some? && DrawsDistinct(actions)
    requires var t := Run(map[], actions).value.table;
             BalKey(tenant, ref) in t && AccK(tenant, ref.account) in t
             && t[AccK(tenant, ref.account)].AccItem? && !t[AccK(tenant, ref.account)].account.allowNegative
    ensures var t := Run(map[], actions).value.table;
            var b := t[BalKey(tenant, ref)];
            && b.BalItem? && b.debits >= 0 && b.credits >= 0
            && match t[AccK(tenant, ref.account)].account.normalBalance
               case NormalDebit => b.debits >= b.credits
               case NormalCredit => b.credits >= b.debits
  {
    EmptyLedger();
    LedgerHolds(map[], actions);
    assert RowSolvent(Run(map[], actions).value.table, tenant, ref);
  }
}
