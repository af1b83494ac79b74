/** The flow orchestrator and the reservation handlers in their own imperative form (internal/service),
    proved against the step machines of `Handlers`. */
module Service {
  import opened Ledger
  import opened Keys
  import opened Items
  import opened Ordering
  import opened Handlers
  import opened Writes
  import opened Reads
  import opened Dynamo

  /** Per-balance accumulator of a flow. */
  datatype BalState = BalState(account: Account, debits: int, credits: int)

  datatype FlowOut = FlowOut(run: FlowRun, steps: seq<FlowStep>)

  // ------------------------------------------------------------------------------------------
  // Facts the loops need
  // ------------------------------------------------------------------------------------------

  /** Entries posted before entry `m` of step `i`. */
  function PostedBefore(steps: seq<StepInput>, i: nat, m: nat): seq<Entry>
    requires i <= |steps| && (i < |steps| ==> m <= |steps[i].entries|)
  {
    AllEntries(steps[..i]) + if i < |steps| then steps[i].entries[..m] else []
  }

  lemma {:induction false} PostedStep(steps: seq<StepInput>, i: nat)
    requires i < |steps|
    ensures PostedBefore(steps, i, |steps[i].entries|) == AllEntries(steps[..i + 1])
  {
    assert steps[..i + 1][..i] == steps[..i];
    assert steps[i].entries[..|steps[i].entries|] == steps[i].entries;
  }

  lemma {:induction false} PostedEntry(steps: seq<StepInput>, i: nat, m: nat)
    requires i < |steps| && m < |steps[i].entries|
    ensures PostedBefore(steps, i, m) + [steps[i].entries[m]] == PostedBefore(steps, i, m + 1)
  {
    assert steps[i].entries[..m] + [steps[i].entries[m]] == steps[i].entries[..m + 1];
  }

  lemma {:induction false} EntryInAll(steps: seq<StepInput>, i: nat, m: nat)
    requires i < |steps| && m < |steps[i].entries|
    ensures steps[i].entries[m] in AllEntries(steps)
    decreases |steps|
  {
    var n := |steps| - 1;
    if i < n {
      EntryInAll(steps[..n], i, m);
    }
  }

  lemma {:induction false} RefListed(steps: seq<StepInput>, i: nat, m: nat)
    requires i < |steps| && m < |steps[i].entries|
    ensures RefOf(steps[i].entries[m]) in Refs(AllEntries(steps))
  {
    EntryInAll(steps, i, m);
    RefsSorted(AllEntries(steps));
  }

  predicate Cached(b: TxBalance, l: Loaded) {
    b == TxBalance(l.debits, l.credits, l.version, l.existed)
  }

  /** From position `from` on, the overlay still holds the balances as loaded. */
  ghost predicate AllCached(balances: map<Key, TxBalance>, tenant: string, refs: seq<BalRef>, loaded: seq<Loaded>,
      from: nat)
    requires |loaded| <= |refs|
  {
    forall j | from <= j < |loaded| ::
      BalKey(tenant, refs[j]) in balances && Cached(balances[BalKey(tenant, refs[j])], loaded[j])
  }

  /** The accumulators of a flow are the loaded balances plus what `es` posts. */
  ghost predicate Accumulated(state: map<BalRef, BalState>, refs: seq<BalRef>, loaded: seq<Loaded>, es: seq<Entry>)
    requires |loaded| <= |refs|
  {
    forall j | 0 <= j < |loaded| ::
      refs[j] in state && state[refs[j]] == BalState(loaded[j].account,
        loaded[j].debits + Sum(es, refs[j], true), loaded[j].credits + Sum(es, refs[j], false))
  }

  /** Adding one entry to the accumulators. */
  function Accumulate(state: map<BalRef, BalState>, e: Entry): map<BalRef, BalState>
    requires RefOf(e) in state
  {
    var k := RefOf(e);
    var b := state[k];
    state[k := if e.direction == Debit then b.(debits := b.debits + e.amount) else b.(credits := b.credits + e.amount)]
  }

  lemma {:induction false} AccumulateSnoc(state: map<BalRef, BalState>, refs: seq<BalRef>, loaded: seq<Loaded>,
      es: seq<Entry>, e: Entry)
    requires |loaded| == |refs| && Accumulated(state, refs, loaded, es) && RefOf(e) in refs && RefOf(e) in state
    ensures Accumulated(Accumulate(state, e), refs, loaded, es + [e])
  {
    hide Sum;
    forall j | 0 <= j < |loaded|
      ensures refs[j] in Accumulate(state, e)
      ensures Accumulate(state, e)[refs[j]] == BalState(loaded[j].account,
          loaded[j].debits + Sum(es + [e], refs[j], true), loaded[j].credits + Sum(es + [e], refs[j], false))
    {
      SumSnoc(es, e, refs[j], true);
      SumSnoc(es, e, refs[j], false);
    }
  }

  // ------------------------------------------------------------------------------------------
  // The server
  // ------------------------------------------------------------------------------------------

  class Server {
    const store: Store
    const gen: nat -> string
    const now: int
    var issued: nat

    constructor (store: Store, gen: nat -> string, now: int)
      ensures this.store == store && this.gen == gen && this.now == now && issued == 0
    {
      this.store, this.gen, this.now := store, gen, now;
      issued := 0;
    }

    function EnvNow(): Env
      reads this`issued
    {
      Env(gen, issued, now)
    }

    method NewID() returns (id: string)
      modifies this`issued
      ensures id == gen(old(issued)) && issued == old(issued) + 1
    {
      id := gen(issued);
      issued := issued + 1;
    }

    /** stepsFromProto: fails on the first amount that is not positive. */
    method StepsFromProto(raw: seq<StepInput>) returns (steps: Option<seq<StepInput>>)
      ensures steps == if AmountsOk(raw) then Some(ParseSteps(raw)) else None
    {
      var out: seq<StepInput> := [];
      for i := 0 to |raw|
        invariant |out| == i && (forall n | 0 <= n < i :: out[n] == ParseStep(raw[n]))
        invariant forall n, m | 0 <= n < i && 0 <= m < |raw[n].entries| :: raw[n].entries[m].amount > 0
      {
        var s := raw[i];
        var entries: seq<Entry> := [];
        for j := 0 to |s.entries|
          invariant |entries| == j && (forall m | 0 <= m < j :: entries[m] == ParseEntry(s.entries[m]))
          invariant forall m | 0 <= m < j :: s.entries[m].amount > 0
        {
          if s.entries[j].amount <= 0 {
            return None;
          }
          var dir := Debit;
          if s.entries[j].direction == Credit {
            dir := Credit;
          }
          entries := entries + [s.entries[j].(direction := dir)];
        }
        assert entries == ParseStep(s).entries;
        out := out + [s.(entries := entries)];
      }
      assert out == ParseSteps(raw);
      return Some(out);
    }

    /** Loads account and balance of one pair. */
    method LoadOne(tx: Tx, fr: FlowReq, k: BalRef, ghost env: Env, ghost loaded: seq<Loaded>)
      returns (err: Option<Code>, b: BalState, ghost l: Loaded)
      requires tx.Valid() && tx.store == store && |loaded| < |RefsOf(fr)| && k == RefsOf(fr)[|loaded|]
      requires BalKey(fr.tenant, k) !in tx.balances && forall k | k in tx.puts :: !k.AccK?
      modifies tx`balances, store`requests
      ensures tx.Valid()
      ensures FlowDrive(env, fr, Loading(env, fr, loaded), store.at, old(store.requests))
           == if err.Some? then (FlowEnd(FlowFail(err.value)), store.requests)
              else FlowDrive(env, fr, Loading(env, fr, loaded + [l]), store.at, store.requests)
      ensures err == None ==>
                BalKey(fr.tenant, k) in tx.balances
                && tx.balances == old(tx.balances)[BalKey(fr.tenant, k) := tx.balances[BalKey(fr.tenant, k)]]
                && Cached(tx.balances[BalKey(fr.tenant, k)], l) && b == BalState(l.account, l.debits, l.credits)
    {
      hide Post, RefsOf, FlowFeed, FlowRank, Loading, Tx.Valid, FlowDrive;
      ghost var n := store.requests;
      AccountRead(env, fr, loaded, store.at, n);
      var acc := tx.GetAccount(fr.tenant, k.account);
      b := BalState(Nobody, 0, 0);
      l := Loaded(Nobody, 0, 0, 0, false);
      if acc == None {
        return Some(AccountNotFound), b, l;
      }
      if acc.value.status != AccountStatus.Active {
        return Some(InvalidAccountStatus), b, l;
      }
      if acc.value.currency != k.currency {
        return Some(AccountCurrencyMismatch), b, l;
      }
      BalanceReads(env, fr, loaded, acc.value, store.at, n + 1);
      var d, c, _ := tx.LockBalance(fr.tenant, k.account, k.currency);
      ghost var tb := tx.balances[BalKey(fr.tenant, k)];
      return None, BalState(acc.value, d, c), Loaded(acc.value, tb.debits, tb.credits, tb.readVersion, tb.existed);
    }

    /** Loads every pair, in order. */
    method LoadAll(tx: Tx, fr: FlowReq, ordered: seq<BalRef>, ghost env: Env)
      returns (err: Option<Code>, state: map<BalRef, BalState>, ghost loaded: seq<Loaded>)
      requires tx.Valid() && tx.store == store && ordered == RefsOf(fr)
      requires tx.balances == map[] && forall k | k in tx.puts :: !k.AccK?
      modifies tx`balances, store`requests
      ensures tx.Valid()
      ensures |loaded| <= |ordered|
      ensures err == None ==> |loaded| == |ordered|
      ensures FlowDrive(env, fr, Loading(env, fr, []), store.at, old(store.requests))
           == if err.Some? then (FlowEnd(FlowFail(err.value)), store.requests)
              else (FlowEnd(Post(env, fr, loaded)), store.requests)
      ensures err == None ==>
                Accumulated(state, ordered, loaded, []) && AllCached(tx.balances, fr.tenant, ordered, loaded, 0)
    {
      RefsIncreasing(fr);
      hide Post, RefsOf, FlowFeed, FlowRank, Loading, Tx.Valid, Increasing, FlowDrive, Accumulated, AllCached;
      state, loaded := map[], [];
      NothingLoaded(tx.balances, fr.tenant, ordered);
      for i := 0 to |ordered|
        invariant tx.Valid() && |loaded| == i
        invariant FlowDrive(env, fr, Loading(env, fr, []), store.at, old(store.requests))
               == FlowDrive(env, fr, Loading(env, fr, loaded), store.at, store.requests)
        invariant Accumulated(state, ordered, loaded, [])
        invariant forall k | k in tx.balances :: exists j :: 0 <= j < i && k == BalKey(fr.tenant, ordered[j])
        invariant AllCached(tx.balances, fr.tenant, ordered, loaded, 0)
      {
        var k := ordered[i];
        FreshKey(fr, ordered, i, tx.balances);
        ghost var before := tx.balances;
        var e, b, l := LoadOne(tx, fr, k, env, loaded);
        if e.Some? {
          return e, state, loaded;
        }
        OneMoreLoaded(state, before, fr.tenant, ordered, loaded, b, l, tx.balances[BalKey(fr.tenant, k)]);
        state := state[k := b];
        loaded := loaded + [l];
      }
      LoadingDone(env, fr, loaded, store.at, store.requests);
      return None, state, loaded;
    }

    /** Posts one entry: the entry is buffered with its journal and the accumulator moves. */
    method ApplyEntry(tx: Tx, fr: FlowReq, journalId: string, e: Entry, state: map<BalRef, BalState>)
      returns (err: Option<Code>, state': map<BalRef, BalState>)
      requires tx.Valid() && RefOf(e) in state && JrnK(fr.tenant, journalId) in tx.journals
      modifies tx`puts, tx`order, tx`writes, tx`journals, this`issued
      ensures tx.Valid() && err == None && issued == old(issued) + 1
      ensures state' == Accumulate(state, e)
      ensures var k := JrnK(fr.tenant, journalId);
              var j := old(tx.journals)[k];
              tx.journals == old(tx.journals)[k := j.(entries := j.entries + [e])]
              && tx.writes == old(tx.writes) + [Fresh(k, JrnItem(j.(entries := j.entries + [e])))]
    {
      hide Tx.Valid;
      var entryId := NewID();
      var ok := tx.InsertEntry(fr.tenant, journalId, e);
      if !ok {
        return Some(Internal), state;
      }
      var k := RefOf(e);
      var bs := state[k];
      if e.direction == Debit {
        bs := bs.(debits := bs.debits + e.amount);
      } else {
        bs := bs.(credits := bs.credits + e.amount);
      }
      return None, state[k := bs];
    }

    /** The entry loop of one step. */
    method ApplyEntries(tx: Tx, fr: FlowReq, i: nat, journalId: string, state: map<BalRef, BalState>, ghost env: Env,
        ghost loaded: seq<Loaded>)
      returns (err: Option<Code>, state': map<BalRef, BalState>)
      requires tx.Valid() && i < |fr.steps| && journalId == JournalId(env, fr, i)
      requires JrnK(fr.tenant, journalId) in tx.journals
          && tx.journals[JrnK(fr.tenant, journalId)] == JournalOf(env, fr, i, 0)
      requires |loaded| == |RefsOf(fr)| && Accumulated(state, RefsOf(fr), loaded, PostedBefore(fr.steps, i, 0))
      modifies tx`puts, tx`order, tx`writes, tx`journals, this`issued
      ensures tx.Valid() && err == None
      ensures issued == old(issued) + |fr.steps[i].entries|
      ensures tx.writes == old(tx.writes) + EntryWrites(env, fr, i, |fr.steps[i].entries|)
      ensures Accumulated(state', RefsOf(fr), loaded, PostedBefore(fr.steps, i, |fr.steps[i].entries|))
    {
      hide Tx.Valid, RefsOf, Accumulated, Accumulate, Sum, Refs, AllEntries, StepBase, PostedBefore, JournalId,
        StepRows;
      var es := fr.steps[i].entries;
      state' := state;
      for m := 0 to |es|
        invariant tx.Valid() && issued == old(issued) + m
        invariant JrnK(fr.tenant, journalId) in tx.journals
        invariant tx.journals[JrnK(fr.tenant, journalId)] == JournalOf(env, fr, i, m)
        invariant tx.writes == old(tx.writes) + EntryWrites(env, fr, i, m)
        invariant Accumulated(state', RefsOf(fr), loaded, PostedBefore(fr.steps, i, m))
      {
        var e := es[m];
        EntryRefKnown(fr, i, m, state', loaded);
        AccumulateSnoc(state', RefsOf(fr), loaded, PostedBefore(fr.steps, i, m), e);
        PostedEntry(fr.steps, i, m);
        assert es[..m] + [e] == es[..m + 1];
        err, state' := ApplyEntry(tx, fr, journalId, e, state');
        if err.Some? {
          return err, state';
        }
      }
      return None, state';
    }

    /** The flow-step row and the outbox event that close a step. */
    method CloseStep(tx: Tx, fr: FlowReq, i: nat, flowRunId: string, journalId: string, ghost env: Env)
      returns (err: Option<Code>, row: FlowStep)
      requires tx.Valid() && i < |fr.steps| && flowRunId == FlowId(env) && journalId == JournalId(env, fr, i)
      requires env.gen == gen && issued == env.base + StepBase(fr.steps, i) + |fr.steps[i].entries| + 1
      requires FlowK(fr.tenant, flowRunId) in tx.flows
      requires tx.flows[FlowK(fr.tenant, flowRunId)] == FlowState(RunOf(env, fr, Running), StepRows(env, fr, i))
      modifies tx`puts, tx`order, tx`writes, tx`flows, this`issued
      ensures tx.Valid() && err == None
      ensures issued == old(issued) + 2
      ensures tx.writes == old(tx.writes) + [FlowWrite(env, fr, Running, i + 1), OutboxWrite(EventOf(env, fr, i))]
      ensures tx.flows == old(tx.flows)[FlowK(fr.tenant, flowRunId) :=
          FlowState(RunOf(env, fr, Running), StepRows(env, fr, i + 1))]
      ensures row == StepRow(env, fr, i)
    {
      hide Tx.Valid, StepBase, JournalId;
      var s := fr.steps[i];
      var stepRowId := NewID();
      row := FlowStep(stepRowId, s.stepId, journalId);
      var ok := tx.InsertFlowStep(fr.tenant, flowRunId, row);
      if !ok {
        return Some(Internal), row;
      }
      var outboxId := NewID();
      tx.InsertOutbox(Event(outboxId, fr.tenant, flowRunId, fr.flowType + "." + s.stepId, flowRunId + ":" + s.stepId));
      return None, row;
    }

    /** Applies one validated step: journal, entries, flow step, outbox event. */
    method ApplyStep(tx: Tx, fr: FlowReq, i: nat, flowRunId: string, state: map<BalRef, BalState>, ghost env: Env,
        ghost loaded: seq<Loaded>)
      returns (err: Option<Code>, state': map<BalRef, BalState>, row: FlowStep)
      requires tx.Valid() && i < |fr.steps| && flowRunId == FlowId(env)
      requires env.gen == gen && env.now == now && issued == env.base + StepBase(fr.steps, i)
      requires FlowK(fr.tenant, flowRunId) in tx.flows
      requires tx.flows[FlowK(fr.tenant, flowRunId)] == FlowState(RunOf(env, fr, Running), StepRows(env, fr, i))
      requires |loaded| == |RefsOf(fr)| && Accumulated(state, RefsOf(fr), loaded, AllEntries(fr.steps[..i]))
      modifies tx`puts, tx`order, tx`writes, tx`journals, tx`flows, this`issued
      ensures tx.Valid() && err == None
      ensures issued == env.base + StepBase(fr.steps, i + 1)
      ensures tx.writes == old(tx.writes) + StepWrites(env, fr, i)
      ensures tx.flows == old(tx.flows)[FlowK(fr.tenant, flowRunId) :=
          FlowState(RunOf(env, fr, Running), StepRows(env, fr, i + 1))]
      ensures Accumulated(state', RefsOf(fr), loaded, AllEntries(fr.steps[..i + 1]))
      ensures row == StepRow(env, fr, i)
    {
      hide Tx.Valid, RefsOf, Accumulated, EntryWrites, FlowWrite, EventOf, StepRows, RunOf, FlowId;
      var s := fr.steps[i];
      row := FlowStep("", "", "");
      var journalId := NewID();
      tx.InsertJournal(Journal(journalId, fr.tenant, flowRunId, s.eventId, s.entries));
      assert PostedBefore(fr.steps, i, 0) == AllEntries(fr.steps[..i]);
      err, state' := ApplyEntries(tx, fr, i, journalId, state, env, loaded);
      if err.Some? {
        return err, state', row;
      }
      PostedStep(fr.steps, i);
      err, row := CloseStep(tx, fr, i, flowRunId, journalId, env);
    }

    /** The step loop: each journal is validated before it is applied. */
    method ApplySteps(tx: Tx, fr: FlowReq, flowRunId: string, state: map<BalRef, BalState>, ghost env: Env,
        ghost loaded: seq<Loaded>)
      returns (err: Option<Code>, state': map<BalRef, BalState>, rows: seq<FlowStep>)
      requires tx.Valid() && flowRunId == FlowId(env)
      requires env.gen == gen && env.now == now && issued == env.base + 1
      requires FlowK(fr.tenant, flowRunId) in tx.flows
      requires tx.flows[FlowK(fr.tenant, flowRunId)] == FlowState(RunOf(env, fr, Running), [])
      requires |loaded| == |RefsOf(fr)| && Accumulated(state, RefsOf(fr), loaded, [])
      modifies tx`puts, tx`order, tx`writes, tx`journals, tx`flows, this`issued
      ensures tx.Valid() && issued >= old(issued)
      ensures err == if exists i | 0 <= i < |fr.steps| :: !StepOk(fr.steps[i]) then Some(UnbalancedJournal) else None
      ensures err == None ==>
                issued == env.base + StepBase(fr.steps, |fr.steps|)
                && tx.writes == old(tx.writes) + StepsWrites(env, fr, |fr.steps|)
                && tx.flows == old(tx.flows)[FlowK(fr.tenant, flowRunId) := FlowState(RunOf(env, fr, Running), rows)]
                && Accumulated(state', RefsOf(fr), loaded, AllEntries(fr.steps))
                && rows == StepRows(env, fr, |fr.steps|)
    {
      hide Tx.Valid, RefsOf, Accumulated, StepWrites, StepOk, RunOf, FlowId, JournalOk, AllEntries, StepRow;
      state', rows := state, [];
      NoSteps(fr.steps);
      for i := 0 to |fr.steps|
        invariant tx.Valid() && forall n | 0 <= n < i :: StepOk(fr.steps[n])
        invariant issued == env.base + StepBase(fr.steps, i) && issued >= old(issued)
        invariant tx.writes == old(tx.writes) + StepsWrites(env, fr, i)
        invariant rows == StepRows(env, fr, i)
        invariant FlowK(fr.tenant, flowRunId) in tx.flows
        invariant tx.flows == old(tx.flows)[FlowK(fr.tenant, flowRunId) := FlowState(RunOf(env, fr, Running), rows)]
        invariant Accumulated(state', RefsOf(fr), loaded, AllEntries(fr.steps[..i]))
      {
        var s := fr.steps[i];
        var valid := Validate(Journal("", fr.tenant, flowRunId, s.eventId, s.entries));
        StepOkIs(s);
        if !valid {
          return Some(UnbalancedJournal), state', rows;
        }
        var row: FlowStep;
        err, state', row := ApplyStep(tx, fr, i, flowRunId, state', env, loaded);
        rows := rows + [row];
      }
      assert fr.steps[..|fr.steps|] == fr.steps;
      return None, state', rows;
    }

    /** Overdraft check on the final amounts, then the balance write, for one pair. */
    method PersistOne(tx: Tx, fr: FlowReq, k: BalRef, bs: BalState, ghost l: Loaded) returns (err: Option<Code>)
      requires tx.Valid() && tx.store == store
      requires bs == BalState(l.account, FinalDebits(fr, l, k), FinalCredits(fr, l, k))
      requires BalKey(fr.tenant, k) in tx.balances && Cached(tx.balances[BalKey(fr.tenant, k)], l)
      modifies tx`balances, tx`puts, tx`order, tx`writes, store`requests
      ensures tx.Valid() && store.requests == old(store.requests)
      ensures err == if Overdrawn(fr, l, k) then Some(InsufficientFunds) else None
      ensures err == None ==> tx.writes == old(tx.writes) + [BalWrite(fr, l, k)]
      ensures forall x | x != BalKey(fr.tenant, k) ::
                (x in tx.balances <==> x in old(tx.balances))
                  && (x in tx.balances ==> tx.balances[x] == old(tx.balances)[x])
    {
      hide Tx.Valid, FinalDebits, FinalCredits;
      if !bs.account.allowNegative {
        var nb := NormalizedBalance(bs.account.normalBalance, bs.debits, bs.credits);
        if nb < 0 {
          return Some(InsufficientFunds);
        }
      }
      tx.UpdateBalance(fr.tenant, k.account, k.currency, bs.debits, bs.credits);
      return None;
    }

    /** The closing loop over the pairs. */
    method PersistBalances(tx: Tx, fr: FlowReq, ordered: seq<BalRef>, state: map<BalRef, BalState>,
        ghost loaded: seq<Loaded>)
      returns (err: Option<Code>)
      requires tx.Valid() && tx.store == store && ordered == RefsOf(fr) && |loaded| == |ordered|
      requires Accumulated(state, ordered, loaded, AllEntries(fr.steps))
      requires AllCached(tx.balances, fr.tenant, ordered, loaded, 0)
      modifies tx`balances, tx`puts, tx`order, tx`writes, store`requests
      ensures tx.Valid()
      ensures store.requests == old(store.requests)
      ensures err == if exists i | 0 <= i < |loaded| :: Overdrawn(fr, loaded[i], ordered[i])
          then Some(InsufficientFunds) else None
      ensures err == None ==> tx.writes == old(tx.writes) + BalWrites(fr, loaded, |loaded|)
    {
      RefsIncreasing(fr);
      hide Tx.Valid, RefsOf, Increasing, Sum, AllEntries, Refs, Overdrawn, BalWrite, BalWrites, FinalDebits,
        FinalCredits, Accumulated, AllCached, BalKey;
      for i := 0 to |ordered|
        invariant tx.Valid() && store.requests == old(store.requests)
        invariant forall n | 0 <= n < i :: !Overdrawn(fr, loaded[n], ordered[n])
        invariant tx.writes == old(tx.writes) + BalWrites(fr, loaded, i)
        invariant AllCached(tx.balances, fr.tenant, ordered, loaded, i)
      {
        DistinctAfter(ordered, i);
        ghost var before := tx.balances;
        FinalState(state, fr, loaded, i);
        CachedAt(before, fr.tenant, ordered, loaded, i);
        BalWritesNext(fr, loaded, i);
        err := PersistOne(tx, fr, ordered[i], state[ordered[i]], loaded[i]);
        if err.Some? {
          return err;
        }
        StillCached(before, tx.balances, fr.tenant, ordered, loaded, i);
      }
      return None;
    }

    /** executeFlowInTx: replays a flow with the same key, else posts the steps into `tx`. Neither
        commits nor rolls back. */
    method ExecuteFlowInTx(tx: Tx, raw: FlowReq) returns (res: Result<FlowOut>)
      requires tx.Valid() && tx.store == store && tx.puts == map[] && tx.writes == []
      requires tx.balances == map[] && tx.flows == map[] && tx.flowIdemp == map[]
      modifies this`issued, tx`balances, tx`puts, tx`order, tx`writes, tx`journals, tx`flows, tx`flowIdemp,
        store`requests
      ensures tx.Valid() && issued >= old(issued)
      ensures FlowDone(Env(gen, old(issued), now), raw, store.at, old(store.requests), store.requests, res, tx.writes,
          issued - old(issued))
    {
      hide Tx.Valid, Post, RefsOf, FlowFeed, FlowWant, FlowDrive, FlowDone, AmountsOk, ParseSteps;
      ghost var env := EnvNow();
      ghost var n := store.requests;
      var parsed := StepsFromProto(raw.steps);
      if parsed == None {
        DoneUnparsed(env, raw, store.at, n);
        return Err(UnbalancedJournal);
      }
      var fr := FlowReq(raw.tenant, raw.flowType, raw.key, parsed.value);
      var existing := tx.GetFlowByIdempotency(fr.tenant, fr.key);
      MarkerReads(env, raw, fr, store.at, n);
      if existing.Some? {
        var run := existing.value.run;
        if run.status != Completed {
          return Err(FlowConflict);
        }
        var steps := tx.GetFlowSteps(fr.tenant, run.id);
        return Ok(FlowOut(run, steps));
      }
      res := PostFlow(tx, raw, fr, env, n);
    }

    /** The part of executeFlowInTx after the idempotency check. */
    method PostFlow(tx: Tx, ghost raw: FlowReq, fr: FlowReq, ghost env: Env, ghost n: nat)
        returns (res: Result<FlowOut>)
      requires tx.Valid() && tx.store == store && tx.puts == map[] && tx.writes == []
      requires tx.balances == map[] && tx.flows == map[] && tx.flowIdemp == map[]
      requires env == EnvNow() && AmountsOk(raw.steps) && fr == Parsed(raw)
      requires FlowDrive(env, fr, WantMarker, store.at, n)
          == FlowDrive(env, fr, Loading(env, fr, []), store.at, store.requests)
      modifies this`issued, tx`balances, tx`puts, tx`order, tx`writes, tx`journals, tx`flows, tx`flowIdemp,
        store`requests
      ensures tx.Valid() && issued >= old(issued)
      ensures FlowDone(env, raw, store.at, n, store.requests, res, tx.writes, issued - old(issued))
    {
      hide Tx.Valid, RefsOf, FlowFeed, FlowWant, FlowDrive, Accumulated, AllCached, AmountsOk, ParseSteps, FlowDone,
        StepOk, Overdrawn;
      var flowRunId := NewID();
      tx.InsertFlowRun(FlowRun(flowRunId, fr.tenant, fr.flowType, fr.key, Running));
      assert tx.writes == OpenWrites(env, fr);
      var ordered := CollectRefs(fr.steps);
      RefsOfIs(fr);
      OnlyOpened(tx, env, fr);
      var err, state, loaded := LoadAll(tx, fr, ordered, env);
      if err.Some? {
        DoneFailed(env, raw, store.at, n, store.requests, err.value, tx.writes, issued - old(issued));
        return Err(err.value);
      }
      res := PostLoaded(tx, fr, ordered, flowRunId, state, env, loaded);
      if res.Err? {
        DoneFailed(env, raw, store.at, n, store.requests, res.code, tx.writes, issued - old(issued));
      } else {
        DonePosted(env, raw, store.at, n, store.requests, loaded, issued - old(issued));
      }
    }

    /** Steps, balances and completion, once all balances are loaded. */
    method PostLoaded(tx: Tx, fr: FlowReq, ordered: seq<BalRef>, flowRunId: string, state: map<BalRef, BalState>,
        ghost env: Env, ghost loaded: seq<Loaded>)
      returns (res: Result<FlowOut>)
      requires tx.Valid() && tx.store == store && ordered == RefsOf(fr) && flowRunId == FlowId(env)
      requires env.gen == gen && env.now == now && issued == env.base + 1
      requires FlowK(fr.tenant, flowRunId) in tx.flows
          && tx.flows[FlowK(fr.tenant, flowRunId)] == FlowState(RunOf(env, fr, Running), [])
      requires tx.writes == OpenWrites(env, fr)
      requires |loaded| == |ordered| && Accumulated(state, ordered, loaded, [])
          && AllCached(tx.balances, fr.tenant, ordered, loaded, 0)
      modifies this`issued, tx`balances, tx`puts, tx`order, tx`writes, tx`journals, tx`flows, store`requests
      ensures tx.Valid() && store.requests == old(store.requests) && issued >= old(issued)
      ensures match Post(env, fr, loaded)
              case FlowFail(code) => res == Err(code)
              case FlowPosted(ws, run, steps, used) =>
                res == Ok(FlowOut(run, steps)) && tx.writes == ws && issued == env.base + used
              case FlowReplay(_, _) => false
    {
      hide Tx.Valid, RefsOf, Accumulated, AllCached, StepOk, Overdrawn, StepsWrites, BalWrites, StepBase, StepRows;
      var err, state', rows := ApplySteps(tx, fr, flowRunId, state, env, loaded);
      if err.Some? {
        return Err(err.value);
      }
      err := PersistBalances(tx, fr, ordered, state', loaded);
      if err.Some? {
        return Err(err.value);
      }
      var ok := tx.CompleteFlowRun(fr.tenant, flowRunId);
      if !ok {
        return Err(Internal);
      }
      return Ok(FlowOut(FlowRun(flowRunId, fr.tenant, fr.flowType, fr.key, Completed), rows));
    }

    // ----------------------------------------------------------------------------------------
    // The handlers: begin, body, commit, and a rollback on every other way out
    // ----------------------------------------------------------------------------------------

    method CreateAccount(req: Request) returns (res: Result<Response>)
      requires req.CreateAccount?
      modifies store
      ensures Answered(req, EnvNow(), store.at, old(store.requests), res, old(store.wrote), store.wrote)
    {
      hide Tx.Valid, Buffer.Valid, AddAll, Answered, CommitOn, NewAccount, AccountWrites;
      ghost var env, n, was := EnvNow(), store.requests, store.wrote;
      var a := NewAccount(req);
      var tx := new Tx(store);
      var committed := false;
      label body: {
        tx.InsertAccount(a);
        BufferIs(tx, AccountWrites(a));
        var err := tx.Commit();
        AccountAnswered(req, env, store.at, n, err, was, store.wrote);
        if err.Some? {
          res := Err(err.value);
          break body;
        }
        committed := true;
        res := Ok(AccountResponse(a));
      }
      if !committed {
        tx.Rollback();
      }
    }

    method ExecuteFlow(raw: FlowReq) returns (res: Result<Response>)
      modifies this`issued, store
      ensures Answered(Request.ExecuteFlow(raw), Env(gen, old(issued), now), store.at, old(store.requests), res,
          old(store.wrote), store.wrote)
    {
      hide Tx.Valid, Buffer.Valid, AddAll, Answered, FlowDone, CommitOn, Start, Drive;
      ghost var req := Request.ExecuteFlow(raw);
      ghost var env, n, was := EnvNow(), store.requests, store.wrote;
      var tx := new Tx(store);
      var committed := false;
      label body: {
        var out := ExecuteFlowInTx(tx, raw);
        ghost var m, ws := store.requests, tx.writes;
        ExecuteEnds(raw, env, store.at, n, m, out, ws, issued - env.base);
        if out.Err? {
          res := Err(out.code);
          FailedBefore(req, env, store.at, n, m, out.code, was);
          break body;
        }
        var resp := FlowResponse(out.value.run.id, out.value.run.status, Results(out.value.steps));
        BufferIs(tx, ws);
        var err := tx.Commit();
        Concluded(req, env, store.at, n, m, ws, resp, err, was, store.wrote);
        if err.Some? {
          res := Err(err.value);
          break body;
        }
        committed := true;
        res := Ok(resp);
      }
      if !committed {
        tx.Rollback();
      }
    }

    /** The new row and its outbox event. */
    method StoreReservation(tx: Tx, ghost req: Request, rsv: Reservation, ghost env: Env, ghost used: nat,
        ghost flowRunId: string)
      requires tx.Valid() && req.CreateReservation? && rsv == NewReservation(req, env.Id(used), flowRunId, env.now)
      requires env.gen == gen && issued == env.base + used + 1
      modifies tx`puts, tx`order, tx`writes, tx`reservations, this`issued
      ensures tx.Valid()
      ensures tx.writes == old(tx.writes) + CreateWrites(req, env, used, flowRunId)
    {
      hide Tx.Valid, ReservationToItem;
      tx.InsertReservation(rsv);
      var eventId := NewID();
      tx.InsertOutbox(CreatedEvent(eventId, rsv));
    }

    /** Whether the creation is a replay. */
    method FindReplay(tx: Tx, req: Request, ghost env: Env) returns (existing: Option<Reservation>, missing: bool)
      requires tx.Valid() && tx.store == store && tx.reservations == map[]
      requires req.CreateReservation? && req.amount > 0
      modifies tx`reservations, store`requests
      ensures tx.Valid()
      ensures var n := old(store.requests); var k := Lookup(store.at(n), RIdempK(req.tenant, req.key));
              if missing then
                Drive(req, env, Start(req, env), store.at, n) == (Finished(Fail(ReservationNotFound)), store.requests)
              else if existing.Some? then
                Drive(req, env, Start(req, env), store.at, n)
                  == (Finished(Done([], ReservationResponse(existing.value))), store.requests)
              else store.requests == n + 1 && !(k.Some? && k.value.RIdempItem?) && tx.reservations == map[]
    {
      hide Tx.Valid, Start, Drive, BeginFlow, CreateFlow, Matches;
      ghost var n := store.requests;
      existing, missing := tx.GetReservationByIdempotency(req.tenant, req.key);
      MarkerRead(req, env, store.at, n);
    }

    /** A commit without writes. */
    method CommitNothing(tx: Tx, ghost req: Request, ghost resp: Response, ghost env: Env, ghost n: nat)
        returns (err: Option<Code>)
      requires tx.Valid() && !tx.done && tx.store == store && tx.writes == []
      requires Drive(req, env, Start(req, env), store.at, n) == (Finished(Done([], resp)), store.requests)
      modifies tx, store
      ensures Answered(req, env, store.at, n, if err == None then Ok(resp) else Err(err.value),
          old(store.wrote), store.wrote)
    {
      hide Tx.Valid, AddAll, Answered, CommitOn, Start, Drive;
      ghost var m, was := store.requests, store.wrote;
      BufferIs(tx, []);
      err := tx.Commit();
      Concluded(req, env, store.at, n, m, [], resp, err, was, store.wrote);
    }

    /** What a creation does once its inner flow has ended. */
    method FinishCreation(tx: Tx, req: Request, flowRunId: string, ghost env: Env, ghost n: nat)
        returns (err: Option<Code>, rsv: Reservation)
      requires tx.Valid() && !tx.done && tx.store == store && req.CreateReservation?
      requires env.gen == gen && env.now == now && env.base <= issued
      requires var used := issued - env.base;
               Drive(req, env, Start(req, env), store.at, n) == (Finished(Done(
                 tx.writes + CreateWrites(req, env, used, flowRunId),
                 ReservationResponse(NewReservation(req, env.Id(used), flowRunId, env.now)))), store.requests)
      modifies tx, this`issued, store
      ensures Answered(req, env, store.at, n, if err == None then Ok(ReservationResponse(rsv)) else Err(err.value),
          old(store.wrote), store.wrote)
    {
      hide Tx.Valid, AddAll, Answered, CommitOn, Start, Drive, Consistent, CreateWrites;
      ghost var m, ws, used := store.requests, tx.writes, issued - env.base;
      var id := NewID();
      rsv := NewReservation(req, id, flowRunId, now);
      StoreReservation(tx, req, rsv, env, used, flowRunId);
      BufferIs(tx, ws + CreateWrites(req, env, used, flowRunId));
      err := tx.Commit();
      Concluded(req, env, store.at, n, m, ws + CreateWrites(req, env, used, flowRunId),
        ReservationResponse(rsv), err, old(store.wrote), store.wrote);
    }

    method CreateReservation(req: Request) returns (res: Result<Response>)
      requires req.CreateReservation?
      modifies this`issued, store
      ensures Answered(req, Env(gen, old(issued), now), store.at, old(store.requests), res, old(store.wrote),
          store.wrote)
    {
      hide Tx.Valid, Buffer.Valid, AddAll, Answered, FlowDone, CommitOn, Start, Drive, Consistent, ReservationToItem,
        CreateWrites, CreateFlow, BeginFlow, NewReservation, Matches;
      ghost var env, n, was := EnvNow(), store.requests, store.wrote;
      if req.amount <= 0 {
        NonPositive(req, env, store.at, n, was);
        return Err(ReservationAmountExceeds);
      }
      var tx := new Tx(store);
      var committed := false;
      label body: {
        var existing, missing := FindReplay(tx, req, env);
        if missing {
          FailedBefore(req, env, store.at, n, store.requests, ReservationNotFound, was);
          res := Err(ReservationNotFound);
          break body;
        }
        if existing.Some? {
          var err := CommitNothing(tx, req, ReservationResponse(existing.value), env, n);
          match err {
            case Some(code) => res := Err(code);
            case None =>
              committed := true;
              res := Ok(ReservationResponse(existing.value));
          }
          break body;
        }
        var out := ExecuteFlowInTx(tx, CreateFlow(req));
        ghost var m, ws, used := store.requests, tx.writes, issued - env.base;
        CreateEnds(req, env, store.at, n, m, out, ws, used);
        if out.Err? {
          FailedBefore(req, env, store.at, n, m, out.code, was);
          res := Err(out.code);
          break body;
        }
        var err, rsv := FinishCreation(tx, req, out.value.run.id, env, n);
        if err.Some? {
          res := Err(err.value);
          break body;
        }
        committed := true;
        res := Ok(ReservationResponse(rsv));
      }
      if !committed {
        tx.Rollback();
      }
    }

    /** The row update and outbox event with which commit, release and expiry end. */
    method StoreUpdate(tx: Tx, req: Request, after: Reservation, kind: string, key: string, ghost row: HeldRow)
      requires tx.Valid()
      requires var k := ResK(TenantOf(req), after.id);
               k in tx.reservations && tx.reservations[k] == ResState(row.res, row.version, true)
      requires after == row.res.(outstanding := after.outstanding, committed := after.committed,
          released := after.released, status := after.status)
      modifies tx`puts, tx`order, tx`writes, tx`reservations, this`issued
      ensures tx.Valid() && issued == old(issued) + 1
      ensures tx.writes == old(tx.writes) + UpdateWrites(req, row, after,
          Event(gen(old(issued)), after.tenantId, after.id, kind, key))
    {
      hide Tx.Valid, ReservationToItem;
      var ok := tx.UpdateReservationAmounts(TenantOf(req), after.id, after.outstanding, after.committed,
        after.released, after.status);
      var eventId := NewID();
      tx.InsertOutbox(Event(eventId, after.tenantId, after.id, kind, key));
    }

    /** The destination account of a commit, which must hold the reservation's currency. */
    method Destination(tx: Tx, req: Request, row: HeldRow, ghost env: Env) returns (dst: Result<string>)
      requires tx.Valid() && tx.store == store && tx.puts == map[] && req.CommitReservation?
      modifies store`requests
      ensures store.requests == old(store.requests) + 1
      ensures Drive(req, env, WantDestination(row), store.at, old(store.requests)) ==
              if dst.Err? then (Finished(Fail(dst.code)), store.requests)
              else Drive(req, env, BeginFlow(req, env, CommitFlow(req, row.res, dst.value), Some(row)), store.at,
                store.requests)
    {
      hide Tx.Valid, Drive, BeginFlow, CommitFlow;
      DestinationRead(req, env, row, store.at, store.requests);
      var account := tx.GetAccount(req.tenant, req.destination);
      if account == None {
        return Err(AccountNotFound);
      }
      if account.value.currency != row.res.currency {
        return Err(ReservationCurrencyMismatch);
      }
      return Ok(account.value.id);
    }

    method CommitReservation(req: Request) returns (res: Result<Response>)
      requires req.CommitReservation? && forall i :: Sound(store.at(i))
      modifies this`issued, store
      ensures Answered(req, Env(gen, old(issued), now), store.at, old(store.requests), res, old(store.wrote),
          store.wrote)
    {
      hide Tx.Valid, Buffer.Valid, AddAll, Answered, FlowDone, CommitOn, Start, Drive, Consistent, ReservationToItem,
        Sound, UpdateWrites, BeginFlow, CommitFlow, ReleaseFlow, ExpireFlow, Closed;
      ghost var env, n, was := EnvNow(), store.requests, store.wrote;
      if req.amount <= 0 {
        NonPositive(req, env, store.at, n, was);
        return Err(ReservationAmountExceeds);
      }
      var tx := new Tx(store);
      var committed := false;
      label body: {
        var locked := tx.LockReservation(req.tenant, req.reservation);
        RowReadIs(req, env, store.at, n);
        if locked == None {
          FailedBefore(req, env, store.at, n, n + 1, ReservationNotFound, was);
          res := Err(ReservationNotFound);
          break body;
        }
        var rsv := locked.value;
        var row := HeldRow(rsv, tx.reservations[ResK(req.tenant, req.reservation)].readVersion);
        if Closed(rsv.status) {
          FailedBefore(req, env, store.at, n, n + 1, ReservationClosed, was);
          res := Err(ReservationClosed);
          break body;
        }
        if req.amount > rsv.outstanding {
          FailedBefore(req, env, store.at, n, n + 1, ReservationAmountExceeds, was);
          res := Err(ReservationAmountExceeds);
          break body;
        }
        var dst := Destination(tx, req, row, env);
        if dst.Err? {
          FailedBefore(req, env, store.at, n, n + 2, dst.code, was);
          res := Err(dst.code);
          break body;
        }
        var out := ExecuteFlowInTx(tx, CommitFlow(req, rsv, dst.value));
        ghost var m, ws, used := store.requests, tx.writes, issued - env.base;
        UpdateEnds(req, env, CommitFlow(req, rsv, dst.value), row, store.at, n, n + 2, m, out, ws, used);
        if out.Err? {
          FailedBefore(req, env, store.at, n, m, out.code, was);
          res := Err(out.code);
          break body;
        }
        var outstanding, moved := rsv.outstanding - req.amount, rsv.committed + req.amount;
        var status := Partial;
        if outstanding == 0 {
          status := Committed;
        }
        var after := rsv.(outstanding := outstanding, committed := moved, status := status);
        StoreUpdate(tx, req, after, "RESERVATION_COMMITTED", rsv.id + ":committed:" + req.key, row);
        ghost var all := ws + UpdateWrites(req, row, Updated(req, rsv), UpdatedEvent(req, env.Id(used), rsv));
        BufferIs(tx, all);
        var err := tx.Commit();
        Concluded(req, env, store.at, n, m, all, ReservationResponse(after), err, was, store.wrote);
        if err.Some? {
          res := Err(err.value);
          break body;
        }
        committed := true;
        res := Ok(ReservationResponse(after));
      }
      if !committed {
        tx.Rollback();
      }
    }

    method ReleaseReservation(req: Request) returns (res: Result<Response>)
      requires req.ReleaseReservation? && forall i :: Sound(store.at(i))
      modifies this`issued, store
      ensures Answered(req, Env(gen, old(issued), now), store.at, old(store.requests), res, old(store.wrote),
          store.wrote)
    {
      hide Tx.Valid, Buffer.Valid, AddAll, Answered, FlowDone, CommitOn, Start, Drive, Consistent, ReservationToItem,
        Sound, UpdateWrites, BeginFlow, CommitFlow, ReleaseFlow, ExpireFlow, Closed;
      ghost var env, n, was := EnvNow(), store.requests, store.wrote;
      if req.amount <= 0 {
        NonPositive(req, env, store.at, n, was);
        return Err(ReservationAmountExceeds);
      }
      var tx := new Tx(store);
      var committed := false;
      label body: {
        var locked := tx.LockReservation(req.tenant, req.reservation);
        RowReadIs(req, env, store.at, n);
        if locked == None {
          FailedBefore(req, env, store.at, n, n + 1, ReservationNotFound, was);
          res := Err(ReservationNotFound);
          break body;
        }
        var rsv := locked.value;
        ghost var row := HeldRow(rsv, tx.reservations[ResK(req.tenant, req.reservation)].readVersion);
        if Closed(rsv.status) {
          FailedBefore(req, env, store.at, n, n + 1, ReservationClosed, was);
          res := Err(ReservationClosed);
          break body;
        }
        if req.amount > rsv.outstanding {
          FailedBefore(req, env, store.at, n, n + 1, ReservationAmountExceeds, was);
          res := Err(ReservationAmountExceeds);
          break body;
        }
        var out := ExecuteFlowInTx(tx, ReleaseFlow(req, rsv));
        ghost var m, ws, used := store.requests, tx.writes, issued - env.base;
        UpdateEnds(req, env, ReleaseFlow(req, rsv), row, store.at, n, n + 1, m, out, ws, used);
        if out.Err? {
          FailedBefore(req, env, store.at, n, m, out.code, was);
          res := Err(out.code);
          break body;
        }
        var outstanding, moved := rsv.outstanding - req.amount, rsv.released + req.amount;
        var status := Partial;
        if outstanding == 0 {
          status := Released;
        }
        var after := rsv.(outstanding := outstanding, released := moved, status := status);
        StoreUpdate(tx, req, after, "RESERVATION_RELEASED", rsv.id + ":released:" + req.key, row);
        ghost var all := ws + UpdateWrites(req, row, Updated(req, rsv), UpdatedEvent(req, env.Id(used), rsv));
        BufferIs(tx, all);
        var err := tx.Commit();
        Concluded(req, env, store.at, n, m, all, ReservationResponse(after), err, was, store.wrote);
        if err.Some? {
          res := Err(err.value);
          break body;
        }
        committed := true;
        res := Ok(ReservationResponse(after));
      }
      if !committed {
        tx.Rollback();
      }
    }

    method ExpireReservation(req: Request) returns (res: Result<Response>)
      requires req.ExpireReservation? && forall i :: Sound(store.at(i))
      modifies this`issued, store
      ensures Answered(req, Env(gen, old(issued), now), store.at, old(store.requests), res, old(store.wrote),
          store.wrote)
    {
      hide Tx.Valid, Buffer.Valid, AddAll, Answered, FlowDone, CommitOn, Start, Drive, Consistent, ReservationToItem,
        Sound, UpdateWrites, BeginFlow, CommitFlow, ReleaseFlow, ExpireFlow, Closed;
      ghost var env, n, was := EnvNow(), store.requests, store.wrote;
      var tx := new Tx(store);
      var committed := false;
      label body: {
        var locked := tx.LockReservation(req.tenant, req.reservation);
        RowReadIs(req, env, store.at, n);
        if locked == None {
          FailedBefore(req, env, store.at, n, n + 1, ReservationNotFound, was);
          res := Err(ReservationNotFound);
          break body;
        }
        var rsv := locked.value;
        ghost var row := HeldRow(rsv, tx.reservations[ResK(req.tenant, req.reservation)].readVersion);
        if Closed(rsv.status) {
          BufferIs(tx, []);
          var err := tx.Commit();
          Concluded(req, env, store.at, n, n + 1, [], NoResponse, err, was, store.wrote);
          match err {
            case Some(code) => res := Err(code);
            case None =>
              committed := true;
              res := Ok(NoResponse);
          }
          break body;
        }
        var amount := rsv.outstanding;
        if amount == 0 {
          BufferIs(tx, []);
          var err := tx.Commit();
          Concluded(req, env, store.at, n, n + 1, [], NoResponse, err, was, store.wrote);
          match err {
            case Some(code) => res := Err(code);
            case None =>
              committed := true;
              res := Ok(NoResponse);
          }
          break body;
        }
        var out := ExecuteFlowInTx(tx, ExpireFlow(req, rsv));
        ghost var m, ws, used := store.requests, tx.writes, issued - env.base;
        UpdateEnds(req, env, ExpireFlow(req, rsv), row, store.at, n, n + 1, m, out, ws, used);
        if out.Err? {
          FailedBefore(req, env, store.at, n, m, out.code, was);
          res := Err(out.code);
          break body;
        }
        var moved := rsv.released + amount;
        var outstanding := rsv.outstanding - amount;
        var after := rsv.(outstanding := outstanding, released := moved, status := Expired);
        StoreUpdate(tx, req, after, "RESERVATION_EXPIRED", rsv.id + ":expired", row);
        ghost var all := ws + UpdateWrites(req, row, Updated(req, rsv), UpdatedEvent(req, env.Id(used), rsv));
        BufferIs(tx, all);
        var err := tx.Commit();
        Concluded(req, env, store.at, n, m, all, NoResponse, err, was, store.wrote);
        if err.Some? {
          res := Err(err.value);
          break body;
        }
        committed := true;
        res := Ok(NoResponse);
      }
      if !committed {
        tx.Rollback();
      }
    }
  }

  // ------------------------------------------------------------------------------------------
  // From the handlers to the step machines
  // ------------------------------------------------------------------------------------------

  /** What one handler call, given its environment and the tables its requests find, must answer and
      write. */
  ghost predicate Answered(r: Request, env: Env, at: nat -> Table, n: nat, res: Result<Response>, was: Option<Table>,
      wrote: Option<Table>) {
    var c := Call(r, env, at, n);
    res == c.answer && wrote == if c.wrote.Some? then c.wrote else was
  }

  /** What `Tx.Commit` promises for a transaction with the writes `ws`. */
  ghost predicate CommitDone(ws: seq<Write>, at: nat -> Table, m: nat, err: Option<Code>, was: Option<Table>,
      wrote: Option<Table>) {
    var b := AddAll(Empty, ws);
    if |b.puts| == 0 then err == None && wrote == was
    else if |b.puts| > MAX_TX_ITEMS then err == Some(FlowTooLarge) && wrote == was
    else (err, wrote) == (CommitOn(at(m), b).0, Some(CommitOn(at(m), b).1))
  }

  lemma {:induction false} BufferIs(tx: Tx, ws: seq<Write>)
    requires tx.Valid() && tx.writes == ws
    ensures tx.Buf() == AddAll(Empty, ws)
  {
    hide Consistent;
  }

  lemma {:induction false} Concluded(r: Request, env: Env, at: nat -> Table, n: nat, m: nat, ws: seq<Write>,
      resp: Response, err: Option<Code>, was: Option<Table>, wrote: Option<Table>)
    requires Drive(r, env, Start(r, env), at, n) == (Finished(Done(ws, resp)), m)
    requires CommitDone(ws, at, m, err, was, wrote)
    ensures Answered(r, env, at, n, if err == None then Ok(resp) else Err(err.value), was, wrote)
  {
    hide Drive, Start, AddAll, CommitOn;
  }

  lemma {:induction false} AccountAnswered(r: Request, env: Env, at: nat -> Table, n: nat, err: Option<Code>,
      was: Option<Table>, wrote: Option<Table>)
    requires r.CreateAccount? && CommitDone(AccountWrites(NewAccount(r)), at, n, err, was, wrote)
    ensures Answered(r, env, at, n, if err == None then Ok(AccountResponse(NewAccount(r)))
        else Err(err.value), was, wrote)
  {
    hide AccountWrites, NewAccount, AddAll, CommitOn;
    Concluded(r, env, at, n, n, AccountWrites(NewAccount(r)), AccountResponse(NewAccount(r)), err, was, wrote);
  }

  /** A handler that fails before its commit writes nothing. */
  lemma {:induction false} FailedBefore(r: Request, env: Env, at: nat -> Table, n: nat, m: nat, code: Code,
      was: Option<Table>)
    requires Drive(r, env, Start(r, env), at, n) == (Finished(Fail(code)), m)
    ensures Answered(r, env, at, n, Err(code), was, was)
  {
    hide Drive, Start;
  }

  lemma {:induction false} NonPositive(r: Request, env: Env, at: nat -> Table, n: nat, was: Option<Table>)
    requires r.CreateReservation? || r.CommitReservation? || r.ReleaseReservation?
    requires r.amount <= 0
    ensures Answered(r, env, at, n, Err(ReservationAmountExceeds), was, was)
  {
    FailedBefore(r, env, at, n, n, ReservationAmountExceeds, was);
  }

  /** The end of the inner flow, as the machine sees it. */
  lemma {:induction false} FlowEnds(r: Request, env: Env, raw: FlowReq, row: Option<HeldRow>, at: nat -> Table,
      n: nat, m: nat, out: Result<FlowOut>, ws: seq<Write>, used: nat) returns (fres: FlowResult)
    requires FlowDone(env, raw, at, n, m, out, ws, used)
    ensures Drive(r, env, BeginFlow(r, env, raw, row), at, n) == (Finished(After(r, env, row, fres)), m)
    ensures out.Err? ==> fres == FlowFail(out.code)
    ensures out.Ok? ==> !fres.FlowFail? && fres.run == out.value.run && fres.steps == out.value.steps
                        && WritesOf(fres) == ws && UsedOf(fres) == used
  {
    hide Drive, FlowDrive, After, Parsed, Lift, AmountsOk;
    fres := FlowDrive(env, Parsed(raw), FlowStart(raw), at, n).0.res;
    DriveLift(r, env, Parsed(raw), row, FlowStart(raw), at, n);
  }

  lemma {:induction false} ExecuteEnds(raw: FlowReq, env: Env, at: nat -> Table, n: nat, m: nat, out: Result<FlowOut>,
      ws: seq<Write>, used: nat)
    requires FlowDone(env, raw, at, n, m, out, ws, used)
    ensures var r := Request.ExecuteFlow(raw);
            Drive(r, env, Start(r, env), at, n) == (Finished(
              if out.Err? then Fail(out.code)
              else Done(ws, FlowResponse(out.value.run.id, out.value.run.status, Results(out.value.steps)))), m)
  {
    hide Drive, FlowDone, BeginFlow, Results;
    var _ := FlowEnds(Request.ExecuteFlow(raw), env, raw, None, at, n, m, out, ws, used);
  }

  lemma {:induction false} CreateEnds(r: Request, env: Env, at: nat -> Table, n: nat, m: nat, out: Result<FlowOut>,
      ws: seq<Write>, used: nat)
    requires r.CreateReservation? && r.amount > 0
    requires var k := Lookup(at(n), RIdempK(r.tenant, r.key)); !(k.Some? && k.value.RIdempItem?)
    requires FlowDone(env, CreateFlow(r), at, n + 1, m, out, ws, used)
    ensures Drive(r, env, Start(r, env), at, n) == (Finished(
              if out.Err? then Fail(out.code)
              else Done(ws + CreateWrites(r, env, used, out.value.run.id),
                ReservationResponse(NewReservation(r, env.Id(used), out.value.run.id, env.now)))), m)
  {
    hide Drive, FlowDone, BeginFlow, CreateFlow, CreateWrites, NewReservation, Start, After;
    MarkerRead(r, env, at, n);
    var fres := FlowEnds(r, env, CreateFlow(r), None, at, n + 1, m, out, ws, used);
    CreateAnswer(r, env, fres);
  }

  lemma {:induction false} UpdateEnds(r: Request, env: Env, raw: FlowReq, row: HeldRow, at: nat -> Table, n: nat,
      n': nat, m: nat, out: Result<FlowOut>, ws: seq<Write>, used: nat)
    requires Updates(r)
    requires Drive(r, env, Start(r, env), at, n) == Drive(r, env, BeginFlow(r, env, raw, Some(row)), at, n')
    requires FlowDone(env, raw, at, n', m, out, ws, used)
    ensures Drive(r, env, Start(r, env), at, n) == (Finished(
              if out.Err? then Fail(out.code)
              else Done(ws + UpdateWrites(r, row, Updated(r, row.res), UpdatedEvent(r, env.Id(used), row.res)),
                UpdateAnswer(r, row.res))), m)
  {
    hide Drive, FlowDone, BeginFlow, UpdateWrites, Updated, UpdatedEvent, UpdateAnswer, Start, After;
    var fres := FlowEnds(r, env, raw, Some(row), at, n', m, out, ws, used);
    UpdateDone(r, env, row, fres);
  }

  lemma {:induction false} RefsIncreasing(fr: FlowReq)
    ensures Increasing(RefsOf(fr))
  {
    RefsSorted(AllEntries(fr.steps));
  }

  lemma {:induction false} RefsOfIs(fr: FlowReq)
    ensures RefsOf(fr) == Refs(AllEntries(fr.steps))
  {
  }

  /** What executeFlowInTx leaves behind, told by the flow machine: the same reads, the same result, the
      same writes and the same number of ids drawn. */
  ghost predicate FlowDone(env: Env, raw: FlowReq, at: nat -> Table, n: nat, m: nat, res: Result<FlowOut>,
      writes: seq<Write>, used: int) {
    var (end, last) := FlowDrive(env, Parsed(raw), FlowStart(raw), at, n);
    && end.FlowEnd? && last == m
    && match end.res
       case FlowFail(code) => res == Err(code)
       case FlowReplay(run, steps) => res == Ok(FlowOut(run, steps)) && writes == [] && used == 0
       case FlowPosted(ws, run, steps, k) => res == Ok(FlowOut(run, steps)) && writes == ws && used == k
  }

  lemma {:induction false} DoneUnparsed(env: Env, raw: FlowReq, at: nat -> Table, n: nat)
    requires !AmountsOk(raw.steps)
    ensures FlowDone(env, raw, at, n, n, Err(UnbalancedJournal), [], 0)
  {
    hide AmountsOk, ParseSteps, RefsOf;
  }

  lemma {:induction false} DoneFailed(env: Env, raw: FlowReq, at: nat -> Table, n: nat, m: nat, code: Code,
      writes: seq<Write>, used: int)
    requires AmountsOk(raw.steps)
    requires FlowDrive(env, Parsed(raw), WantMarker, at, n) == (FlowEnd(FlowFail(code)), m)
    ensures FlowDone(env, raw, at, n, m, Err(code), writes, used)
  {
    hide AmountsOk, ParseSteps, RefsOf, FlowDrive;
  }

  lemma {:induction false} DonePosted(env: Env, raw: FlowReq, at: nat -> Table, n: nat, m: nat, loaded: seq<Loaded>,
      used: int)
    requires var fr := Parsed(raw);
             && AmountsOk(raw.steps) && |loaded| == |RefsOf(fr)|
             && FlowDrive(env, fr, WantMarker, at, n) == (FlowEnd(Post(env, fr, loaded)), m)
             && Post(env, fr, loaded).FlowPosted? && used == StepBase(fr.steps, |fr.steps|)
    ensures var fr := Parsed(raw);
            FlowDone(env, raw, at, n, m, Ok(FlowOut(RunOf(env, fr, Completed), StepRows(env, fr, |fr.steps|))),
              FlowWrites(env, fr, loaded), used)
  {
    hide AmountsOk, ParseSteps, RefsOf, FlowDrive, StepBase, RunOf, StepRows, FlowWrites, StepOk, Overdrawn;
  }

  /** The idempotency reads of a flow. */
  lemma {:induction false} MarkerReads(env: Env, raw: FlowReq, fr: FlowReq, at: nat -> Table, n: nat)
    requires AmountsOk(raw.steps) && fr == Parsed(raw)
    ensures var k := FIdempK(fr.tenant, fr.key);
            var m := Lookup(at(n), k);
            if m.Some? && m.value.FIdempItem? then
              var v := Lookup(at(n + 1), FlowK(fr.tenant, m.value.flowRunId));
              if v.Some? && v.value.FlowItem? then
                if v.value.run.status != Completed then FlowDone(env, raw, at, n, n + 2, Err(FlowConflict), [], 0)
                else
                  var w := Lookup(at(n + 2), FlowK(fr.tenant, v.value.run.id));
                  FlowDone(env, raw, at, n, n + 3,
                    Ok(FlowOut(v.value.run, if w.Some? && w.value.FlowItem? then w.value.steps else [])), [], 0)
              else FlowDrive(env, fr, WantMarker, at, n) == FlowDrive(env, fr, Loading(env, fr, []), at, n + 2)
            else FlowDrive(env, fr, WantMarker, at, n) == FlowDrive(env, fr, Loading(env, fr, []), at, n + 1)
  {
    hide AmountsOk, ParseSteps, RefsOf, Loading, FlowDrive;
    FlowMarkerReads(env, fr, at, n);
  }

  lemma {:induction false} OnlyOpened(tx: Tx, env: Env, fr: FlowReq)
    requires tx.Valid() && tx.writes == OpenWrites(env, fr)
    ensures forall k | k in tx.puts :: !k.AccK?
  {
    hide Consistent;
    EmptyValid();
    AddAllValid(Empty, tx.writes);
  }

  lemma {:induction false} FinalState(state: map<BalRef, BalState>, fr: FlowReq, loaded: seq<Loaded>, j: nat)
    requires |loaded| == |RefsOf(fr)| && j < |loaded| && Accumulated(state, RefsOf(fr), loaded, AllEntries(fr.steps))
    ensures RefsOf(fr)[j] in state
    ensures state[RefsOf(fr)[j]] == BalState(loaded[j].account, FinalDebits(fr, loaded[j], RefsOf(fr)[j]),
        FinalCredits(fr, loaded[j], RefsOf(fr)[j]))
  {
    hide Sum, AllEntries, Refs;
  }

  lemma {:induction false} CachedAt(balances: map<Key, TxBalance>, tenant: string, refs: seq<BalRef>,
      loaded: seq<Loaded>, j: nat)
    requires j < |loaded| == |refs| && AllCached(balances, tenant, refs, loaded, j)
    ensures BalKey(tenant, refs[j]) in balances && Cached(balances[BalKey(tenant, refs[j])], loaded[j])
  {
  }

  lemma {:induction false} BalWritesNext(fr: FlowReq, loaded: seq<Loaded>, i: nat)
    requires i < |loaded| == |RefsOf(fr)|
    ensures BalWrites(fr, loaded, 0) == []
    ensures BalWrites(fr, loaded, i + 1) == BalWrites(fr, loaded, i) + [BalWrite(fr, loaded[i], RefsOf(fr)[i])]
  {
    hide RefsOf, BalWrite;
  }

  lemma {:induction false} NoSteps(steps: seq<StepInput>)
    ensures AllEntries(steps[..0]) == []
  {
  }

  lemma {:induction false} StepOkIs(s: StepInput)
    ensures StepOk(s) == JournalOk(s.eventId, s.entries)
  {
  }

  lemma {:induction false} EntryRefKnown(fr: FlowReq, i: nat, m: nat, state: map<BalRef, BalState>, loaded: seq<Loaded>)
    requires i < |fr.steps| && m < |fr.steps[i].entries|
    requires |loaded| == |RefsOf(fr)| && Accumulated(state, RefsOf(fr), loaded, PostedBefore(fr.steps, i, m))
    ensures RefOf(fr.steps[i].entries[m]) in RefsOf(fr) && RefOf(fr.steps[i].entries[m]) in state
  {
    hide Sum, Refs, AllEntries;
    RefListed(fr.steps, i, m);
    var j :| 0 <= j < |RefsOf(fr)| && RefsOf(fr)[j] == RefOf(fr.steps[i].entries[m]);
  }

  lemma {:induction false} DistinctAfter(ordered: seq<BalRef>, i: nat)
    requires i < |ordered| && Increasing(ordered)
    ensures forall j | i < j < |ordered| :: ordered[j] != ordered[i]
  {
    hide RefLess, Increasing;
    forall j | i < j < |ordered| ensures ordered[j] != ordered[i] {
      if ordered[j] == ordered[i] {
        IncreasingDistinct(ordered, i, j);
      }
    }
  }

  lemma {:induction false} StillCached(before: map<Key, TxBalance>, balances: map<Key, TxBalance>, tenant: string,
      refs: seq<BalRef>, loaded: seq<Loaded>, i: nat)
    requires i < |refs| && |loaded| == |refs| && AllCached(before, tenant, refs, loaded, i)
    requires forall j | i < j < |refs| :: refs[j] != refs[i]
    requires forall l | l != BalKey(tenant, refs[i]) ::
        (l in balances <==> l in before) && (l in balances ==> balances[l] == before[l])
    ensures AllCached(balances, tenant, refs, loaded, i + 1)
  {
  }

  const Nobody := Account("", "", "", "", "", "", NormalDebit, false, AccountStatus.Active)

  lemma {:induction false} NothingLoaded(balances: map<Key, TxBalance>, tenant: string, refs: seq<BalRef>)
    ensures Accumulated(map[], refs, [], []) && AllCached(balances, tenant, refs, [], 0)
  {
  }

  lemma {:induction false} OneMoreLoaded(state: map<BalRef, BalState>, balances: map<Key, TxBalance>, tenant: string,
      refs: seq<BalRef>, loaded: seq<Loaded>, b: BalState, l: Loaded, tb: TxBalance)
    requires Increasing(refs) && |loaded| < |refs|
    requires Accumulated(state, refs, loaded, []) && AllCached(balances, tenant, refs, loaded, 0)
    requires b == BalState(l.account, l.debits, l.credits) && Cached(tb, l)
    ensures Accumulated(state[refs[|loaded|] := b], refs, loaded + [l], [])
    ensures AllCached(balances[BalKey(tenant, refs[|loaded|]) := tb], tenant, refs, loaded + [l], 0)
  {
    DistinctFrom(refs, |loaded|);
  }

  lemma {:induction false} FreshKey(fr: FlowReq, ordered: seq<BalRef>, i: nat, balances: map<Key, TxBalance>)
    requires i < |ordered| && Increasing(ordered)
    requires forall k | k in balances :: exists j :: 0 <= j < i && k == BalKey(fr.tenant, ordered[j])
    ensures BalKey(fr.tenant, ordered[i]) !in balances
  {
    hide RefLess, Increasing;
    if BalKey(fr.tenant, ordered[i]) in balances {
      var j :| 0 <= j < i && BalKey(fr.tenant, ordered[i]) == BalKey(fr.tenant, ordered[j]);
      IncreasingDistinct(ordered, i, j);
    }
  }

  lemma {:induction false} DistinctFrom(ordered: seq<BalRef>, i: nat)
    requires i < |ordered| && Increasing(ordered)
    ensures forall j | 0 <= j < i :: ordered[j] != ordered[i]
  {
    hide RefLess, Increasing;
    forall j | 0 <= j < i ensures ordered[j] != ordered[i] {
      if ordered[j] == ordered[i] {
        IncreasingDistinct(ordered, i, j);
      }
    }
  }
}
