/** Answers to repeated submissions of one idempotency key, over whole runs. */
module Replay {
  import opened Ledger
  import opened Keys
  import opened Items
  import opened Handlers
  import opened Writes
  import opened Protocol
  import opened Serializability
  import opened Atomic
  import opened Journals
  import opened Effects
  import opened Idempotency
  import opened Reachable

  /** The answer a key has once its flow is stored. */
  function KnownAnswer(t: Table, tenant: string, key: string): Option<Response> {
    var known := KnownFlow(t, tenant, key);
    if known.Some? && known.value.FlowItem?
    then Some(FlowResponse(known.value.run.id, known.value.run.status, Results(known.value.steps))) else None
  }

  lemma {:induction false} AnswerStays(t: Table, u: Table, tenant: string, key: string)
    requires Sound(t) && Sound(u) && Evolves(t, u) && KnownAnswer(t, tenant, key).Some?
    ensures KnownAnswer(u, tenant, key) == KnownAnswer(t, tenant, key)
  {
    hide Results;
    var m := FIdempK(tenant, key);
    assert Newer(u, m, t[m]);
    var f := FlowK(tenant, t[m].flowRunId);
    assert Newer(u, f, t[f]);
  }

  // ------------------------------------------------------------------------------------------
  // Handlers in flight
  // ------------------------------------------------------------------------------------------

  /** What the reads of a handler so far say about the table as it is now: flow rows and markers it saw
      are still there. */
  predicate Sane(r: Request, t: Table, l: Local) {
    match l
    case InFlow(fr, _, fl) =>
      && (r.ExecuteFlow? ==> fr == Parsed(r.flow))
      && (match fl
          case WantFlow(id) => Lookup(t, FIdempK(fr.tenant, fr.key)) == Some(FIdempItem(id))
          case WantSteps(run) =>
            && Lookup(t, FIdempK(fr.tenant, fr.key)) == Some(FIdempItem(run.id))
            && var f := Lookup(t, FlowK(fr.tenant, run.id)); f.Some? && f.value.FlowItem? && f.value.run == run
          case _ => true)
    case Finished(out) =>
      && out != Fail(FlowConflict)
      && (r.ExecuteFlow? && out.Done? && out.writes == []
        ==> KnownAnswer(t, r.flow.tenant, r.flow.key) == Some(out.resp))
    case _ => true
  }

  ghost predicate AllCompleted(t: Table) {
    forall k :: FlowTidy(t, k)
  }

  lemma {:induction false} PostNoConflict(env: Env, fr: FlowReq, loaded: seq<Loaded>)
    requires |loaded| == |RefsOf(fr)|
    ensures Post(env, fr, loaded) != FlowFail(FlowConflict) && !Post(env, fr, loaded).FlowReplay?
    ensures Post(env, fr, loaded).FlowPosted? ==> Post(env, fr, loaded).writes != []
  {
    hide RefsOf, StepOk, Overdrawn, StepsWrites, BalWrites, StepRows, RunOf, StepBase;
  }

  lemma {:induction false} AfterSane(r: Request, env: Env, row: Option<HeldRow>, res: FlowResult, t: Table)
    requires res != FlowFail(FlowConflict)
    requires res.FlowPosted? ==> res.writes != []
    requires r.ExecuteFlow? && res.FlowReplay? ==>
               KnownAnswer(t, r.flow.tenant, r.flow.key)
                 == Some(FlowResponse(res.run.id, res.run.status, Results(res.steps)))
    ensures Sane(r, t, Finished(After(r, env, row, res)))
  {
    hide KnownAnswer, Results;
  }

  lemma {:induction false} LoadingSane(r: Request, env: Env, fr: FlowReq, row: Option<HeldRow>, loaded: seq<Loaded>,
      t: Table)
    requires |loaded| <= |RefsOf(fr)| && (r.ExecuteFlow? ==> fr == Parsed(r.flow))
    ensures Sane(r, t, Lift(r, env, fr, row, Loading(env, fr, loaded)))
  {
    hide RefsOf, Post, After, KnownAnswer, Parsed;
    if |loaded| == |RefsOf(fr)| {
      PostNoConflict(env, fr, loaded);
      AfterSane(r, env, row, Post(env, fr, loaded), t);
    }
  }

  lemma {:induction false} FailSane(r: Request, env: Env, row: Option<HeldRow>, code: Code, t: Table)
    requires code != FlowConflict
    ensures Sane(r, t, Finished(After(r, env, row, FlowFail(code))))
  {
    hide KnownAnswer;
  }

  /** One read of a flow: what it answered holds in the table now. */
  lemma {:induction false} FlowFeedSane(r: Request, env: Env, fr: FlowReq, row: Option<HeldRow>, fl: FlowLocal,
      v: Option<Item>, t: Table)
    requires FlowWf(fr, fl) && !fl.FlowEnd? && Sane(r, t, InFlow(fr, row, fl))
    requires Sound(t) && FlowReadHolds(t, FlowWant(fr, fl), v) && (fl.WantSteps? ==> v.Some?)
    ensures Sane(r, t, Lift(r, env, fr, row, FlowFeed(env, fr, fl, v)))
  {
    hide RefsOf, Post, After, KnownAnswer, Parsed, Loading, Sound;
    match fl
    case WantMarker => LoadingSane(r, env, fr, row, [], t);
    case WantFlow(id) =>
      if v.Some? && v.value.FlowItem? {
        SoundFlow(t, FlowK(fr.tenant, id));
      } else {
        LoadingSane(r, env, fr, row, [], t);
      }
    case WantSteps(run) => StepsSane(r, env, fr, row, run, v, t);
    case WantAccount(loaded) =>
      FailSane(r, env, row, AccountNotFound, t);
      FailSane(r, env, row, InvalidAccountStatus, t);
      FailSane(r, env, row, AccountCurrencyMismatch, t);
    case WantBalance(loaded, a) =>
      var (d, c, ver) := BalanceRead(v);
      if ver != 0 || d != 0 || c != 0 {
        LoadingSane(r, env, fr, row, loaded + [Loaded(a, d, c, ver, true)], t);
      }
    case WantProbe(loaded, a) => LoadingSane(r, env, fr, row, loaded + [Loaded(a, 0, 0, 0, v.Some?)], t);
  }

  /** Flow rows and markers, once read, are still what the table holds, and flows are completed. */
  predicate FlowReadHolds(t: Table, k: Key, v: Option<Item>) {
    (k.FlowK? || k.FIdempK?) && v.Some? ==>
      Lookup(t, k) == v && (v.value.FlowItem? ==> v.value.run.status == Completed)
  }

  lemma {:induction false} SoundFlow(t: Table, k: Key)
    requires Sound(t) && k.FlowK? && k in t
    ensures t[k].FlowItem? && t[k].run.id == k.flow
  {
    assert Typed(k, t[k]);
  }

  lemma {:induction false} StepsSane(r: Request, env: Env, fr: FlowReq, row: Option<HeldRow>, run: FlowRun,
      v: Option<Item>, t: Table)
    requires Sane(r, t, InFlow(fr, row, WantSteps(run))) && Sound(t) && FlowReadHolds(t, FlowK(fr.tenant, run.id), v)
    requires v.Some?
    ensures Sane(r, t, Lift(r, env, fr, row, FlowFeed(env, fr, WantSteps(run), v)))
  {
    hide RefsOf, Sound, ParseSteps;
    AfterSane(r, env, row, FlowReplay(run, v.value.steps), t);
  }

  lemma {:induction false} BeginSane(r: Request, env: Env, raw: FlowReq, row: Option<HeldRow>, t: Table)
    requires r.ExecuteFlow? ==> raw == r.flow
    ensures Sane(r, t, BeginFlow(r, env, raw, row))
  {
    hide After, KnownAnswer, AmountsOk, ParseSteps;
    FailSane(r, env, row, UnbalancedJournal, t);
  }

  lemma {:induction false} StartSane(r: Request, env: Env, t: Table)
    ensures Sane(r, t, Start(r, env))
  {
    hide BeginFlow, KnownAnswer;
    if r.ExecuteFlow? {
      BeginSane(r, env, r.flow, None, t);
    }
  }

  lemma {:induction false} FeedSane(r: Request, env: Env, l: Local, v: Option<Item>, t: Table)
    requires Wf(l) && !l.Finished? && Sane(r, t, l)
    requires Sound(t) && FlowReadHolds(t, Want(r, l), v)
    requires l.InFlow? && l.fl.WantSteps? ==> v.Some?
    requires r.ExecuteFlow? ==> l.InFlow?
    ensures Sane(r, t, Feed(r, env, l, v))
  {
    hide BeginFlow, KnownAnswer, Sound, FlowFeed, FlowWant, CreateFlow, CommitFlow, ReleaseFlow, ExpireFlow, Closed,
      Parsed;
    match l
    case InFlow(fr, row, fl) => FlowFeedSane(r, env, fr, row, fl, v, t);
    case WantReservationMarker =>
      if r.CreateReservation? {
        BeginSane(r, env, CreateFlow(r), None, t);
      }
    case WantReplayed(_) =>
    case WantReservation =>
      if v.Some? && v.value.ResItem? {
        var row := HeldRow(v.value.reservation, v.value.resVersion);
        if r.ReleaseReservation? {
          BeginSane(r, env, ReleaseFlow(r, row.res), Some(row), t);
        } else if r.ExpireReservation? {
          BeginSane(r, env, ExpireFlow(r, row.res), Some(row), t);
        }
      }
    case WantDestination(row) =>
      if v.Some? && v.value.AccItem? && r.CommitReservation? {
        BeginSane(r, env, CommitFlow(r, row.res, v.value.account.id), Some(row), t);
      }
  }

  /** A flow handler is inside its flow until it is finished. */
  lemma {:induction false} OnlyInFlow(r: Request, env: Env, log: seq<Answer>, n: nat)
    requires r.ExecuteFlow? && n <= |log| && Plays(r, env, log)
    ensures StateAt(r, env, log, n).InFlow? || StateAt(r, env, log, n).Finished?
  {
    hide Start, Feed, Want;
    if n > 0 {
      OnlyInFlow(r, env, log, n - 1);
      StateAtNext(r, env, log, n - 1);
      FeedInFlow(r, env, StateAt(r, env, log, n - 1), log[n - 1].1);
    } else {
      StartInFlow(r, env);
    }
  }

  lemma {:induction false} FeedInFlow(r: Request, env: Env, l: Local, v: Option<Item>)
    requires Wf(l) && l.InFlow?
    ensures Feed(r, env, l, v).InFlow? || Feed(r, env, l, v).Finished?
  {
    hide FlowFeed, After;
  }

  lemma {:induction false} StartInFlow(r: Request, env: Env)
    requires r.ExecuteFlow?
    ensures Start(r, env).InFlow? || Start(r, env).Finished?
  {
    hide After, AmountsOk, ParseSteps;
  }

  /** The whole log of a handler in flight, judged against the table as it is now. */
  lemma {:induction false} StateAtSane(t: Table, x: TxRec, n: nat)
    requires Sound(t) && AllCompleted(t) && TxOk(t, x) && n <= |x.log|
    ensures Sane(x.req, t, StateAt(x.req, x.env, x.log, n))
  {
    hide Start, Feed, Want, Sane, Sound, AllCompleted, StateAt, TypedLog;
    var r, env, log := x.req, x.env, x.log;
    if n == 0 {
      StartSane(r, env, t);
      StateAtZero(r, env, log);
    } else {
      var l := StateAt(r, env, log, n - 1);
      StateAtSane(t, x, n - 1);
      StateAtNext(r, env, log, n - 1);
      ReadHoldsNow(t, log, n - 1);
      if l.InFlow? && l.fl.WantSteps? {
        StepsAfterFlow(r, env, log, n - 1);
      }
      if r.ExecuteFlow? {
        OnlyInFlow(r, env, log, n - 1);
      }
      FeedSane(r, env, l, log[n - 1].1, t);
    }
  }

  lemma {:induction false} StateAtZero(r: Request, env: Env, log: seq<Answer>)
    ensures StateAt(r, env, log, 0) == Start(r, env)
  {
    hide Start;
  }

  lemma {:induction false} ReadHoldsNow(t: Table, log: seq<Answer>, i: nat)
    requires AllCompleted(t) && LogHolds(t, log) && TypedLog(log) && i < |log|
    ensures FlowReadHolds(t, log[i].0, log[i].1)
  {
    var k, v := log[i].0, log[i].1;
    if (k.FlowK? || k.FIdempK?) && v.Some? {
      assert Typed(k, v.value) && Newer(t, k, v.value);
      assert FlowTidy(t, k);
    }
  }

  // ------------------------------------------------------------------------------------------
  // Runs
  // ------------------------------------------------------------------------------------------

  /** Action `i` of a run is the successful commit of a flow submission, answered with `resp`. */
  ghost predicate Delivers(t0: Table, actions: seq<Action>, i: nat, raw: FlowReq, resp: Response) {
    && i < |actions| && Run(t0, actions[..i]).Some?
    && var s := Run(t0, actions[..i]).value;
       && Enabled(s, actions[i]) && actions[i].CommitTx?
       && var x := s.live[actions[i].id];
          && x.req == Request.ExecuteFlow(raw) && x.local.out.resp == resp
          && CommitOn(s.table, AddAll(Empty, x.local.out.writes)).0 == None
  }

  lemma {:induction false} LedgerParts(t: Table)
    requires LedgerInv(t)
    ensures Sound(t) && AllCompleted(t)
  {
  }

  lemma {:induction false} RunSane(t0: Table, actions: seq<Action>, id: nat)
    requires LedgerInv(t0) && Run(t0, actions).Some? && DrawsDistinct(actions)
    requires id in Run(t0, actions).value.live
    ensures var s := Run(t0, actions).value; Sane(s.live[id].req, s.table, s.live[id].local)
  {
    hide LedgerInv, Sane, DistinctIds, LiveDistinct, Sound, AllCompleted, Serial, SerialAnswers;
    LedgerParts(t0);
    RunKeepsInv(t0, actions);
    LedgerHolds(t0, actions);
    var s := Run(t0, actions).value;
    LedgerParts(s.table);
    StateAtSane(s.table, s.live[id], |s.live[id].log|);
  }

  /** The branch "flow not completed" is never taken: no handler in any reachable state has failed with
      that conflict before its commit. */
  lemma {:induction false} NeverIncomplete(t0: Table, actions: seq<Action>, id: nat)
    requires LedgerInv(t0) && Run(t0, actions).Some? && DrawsDistinct(actions)
    requires id in Run(t0, actions).value.live
    ensures Run(t0, actions).value.live[id].local != Finished(Fail(FlowConflict))
  {
    hide LedgerInv, DistinctIds, LiveDistinct, KnownAnswer;
    RunSane(t0, actions, id);
  }

  // ------------------------------------------------------------------------------------------
  // One answer, one posting
  // ------------------------------------------------------------------------------------------

  lemma {:induction false} DoEvolves(t0: Table, s: State, a: Action)
    requires Inv(t0, s) && Enabled(s, a)
    ensures Evolves(s.table, Do(s, a).table)
  {
    hide TxOk, Sound, Serial, SerialAnswers, AllHold, Written, Classify, AddAll, Start, Feed, Want, GoodWrites;
    if a.CommitTx? && CommitOn(s.table, AddAll(Empty, s.live[a.id].local.out.writes)).0 == None
      && s.live[a.id].local.out.writes != [] {
      var ws := s.live[a.id].local.out.writes;
      NonEmptyBuffer(ws);
      WritesAreGood(s.table, s.live[a.id]);
      CommitEvolves(s.table, ws);
    } else if a.CommitTx? {
      IdleCommitKeepsInv(t0, s, a.id);
    }
  }

  lemma {:induction false} LastStep(t0: Table, actions: seq<Action>)
    requires Run(t0, actions).Some? && actions != []
    ensures var n := |actions| - 1;
            && Run(t0, actions[..n]).Some? && Enabled(Run(t0, actions[..n]).value, actions[n])
            && Run(t0, actions).value == Do(Run(t0, actions[..n]).value, actions[n])
  {
  }

  /** A known answer stays known, unchanged. */
  lemma {:induction false} AnswerPersists(t0: Table, actions: seq<Action>, i: nat, tenant: string, key: string)
    requires Sound(t0) && Run(t0, actions).Some? && i <= |actions| && Run(t0, actions[..i]).Some?
    requires KnownAnswer(Run(t0, actions[..i]).value.table, tenant, key).Some?
    ensures KnownAnswer(Run(t0, actions).value.table, tenant, key)
        == KnownAnswer(Run(t0, actions[..i]).value.table, tenant, key)
  {
    hide KnownAnswer, Run, Enabled, Do, Inv, Evolves, Sound;
    if i == |actions| {
      assert actions[..i] == actions;
    } else {
      var n := |actions| - 1;
      LastStep(t0, actions);
      assert actions[..n][..i] == actions[..i];
      AnswerPersists(t0, actions[..n], i, tenant, key);
      RunKeepsInv(t0, actions[..n]);
      RunKeepsInv(t0, actions);
      var s := Run(t0, actions[..n]).value;
      DoEvolves(t0, s, actions[n]);
      InvIsSound(t0, s);
      InvIsSound(t0, Do(s, actions[n]));
      AnswerStays(s.table, Do(s, actions[n]).table, tenant, key);
    }
  }

  /** A flow that posts leaves its own answer behind. */
  lemma {:induction false} PostedAnswer(raw: FlowReq, env: Env, t: Table, u: Table)
    requires Takes(Request.ExecuteFlow(raw), env, t, u)
    ensures KnownAnswer(u, raw.tenant, raw.key) == Some(Alone(Request.ExecuteFlow(raw), env, t).answer.value)
  {
    hide Takes, FlowSpec, AmountsOk, ParseSteps, RefsOf, FlowWrites, StepRows, RunOf, Results, Alone, AllHold,
      Written, Classify, StepOk, Overdrawn;
    var r := Request.ExecuteFlow(raw);
    TakesParts(r, env, t, u);
    AloneIs(r, env, t);
    var res := FlowSpec(env, raw, t);
    assert res.FlowPosted?;
    PostedIs(env, raw, t);
    StepMarker(r, env, t, u, raw.tenant, raw.key);
    StepFlowRow(r, env, t, u, FlowK(raw.tenant, FlowId(env)));
    PostedRun(env, raw, t);
  }

  lemma {:induction false} PostedRun(env: Env, raw: FlowReq, t: Table)
    requires FlowSpec(env, raw, t).FlowPosted?
    ensures var res := FlowSpec(env, raw, t); var fr := Parsed(raw);
            res.run == RunOf(env, fr, Completed) && res.steps == StepRows(env, fr, |fr.steps|)
              && res.run.id == FlowId(env)
  {
    hide AmountsOk, ParseSteps, RefsOf, FlowWrites, StepRows, StepOk, Overdrawn, StepBase;
  }

  /** The client's answer is what the table knows right after the commit. */
  lemma {:induction false} Delivered(t0: Table, actions: seq<Action>, i: nat, raw: FlowReq, resp: Response)
    requires LedgerInv(t0) && DrawsDistinct(actions) && Delivers(t0, actions, i, raw, resp)
    ensures Run(t0, actions[..i + 1]).Some?
    ensures KnownAnswer(Run(t0, actions[..i + 1]).value.table, raw.tenant, raw.key) == Some(resp)
  {
    hide LedgerInv, KnownAnswer, Inv, DistinctIds, CommitOn, AddAll, Do;
    assert actions[..i + 1][..i] == actions[..i];
    var s, a := Run(t0, actions[..i]).value, actions[i];
    assert Run(t0, actions[..i + 1]) == Some(Do(s, a));
    LedgerIsSound(t0);
    RunKeepsInv(t0, actions[..i]);
    DoTakes(t0, s, a);
    if s.live[a.id].local.out.writes == [] {
      assert DrawsDistinct(actions[..i]);
      RunSane(t0, actions[..i], a.id);
      EmptyCommit(t0, s, a);
    } else {
      PostedAnswer(raw, s.live[a.id].env, s.table, Do(s, a).table);
    }
  }

  lemma {:induction false} EmptyCommit(t0: Table, s: State, a: Action)
    requires Inv(t0, s) && Enabled(s, a) && a.CommitTx? && s.live[a.id].local.out.writes == []
    ensures Do(s, a).table == s.table
    ensures s.live[a.id].local == Finished(Done([], s.live[a.id].local.out.resp))
  {
    hide Inv, AllHold, Written, Classify;
    IdleCommitKeepsInv(t0, s, a.id);
  }

  /** Whoever submits a key, whenever, and however the calls interleave: all successful answers for one
      tenant and key are identical, step for step. */
  lemma {:induction false} OneAnswer(t0: Table, actions: seq<Action>, i: nat, raw: FlowReq, resp: Response, j: nat,
      raw': FlowReq, resp': Response)
    requires LedgerInv(t0) && Run(t0, actions).Some? && DrawsDistinct(actions)
    requires Delivers(t0, actions, i, raw, resp) && Delivers(t0, actions, j, raw', resp')
    requires raw.tenant == raw'.tenant && raw.key == raw'.key
    ensures resp == resp'
  {
    hide LedgerInv, KnownAnswer, Run, Delivers, DistinctIds;
    LedgerIsSound(t0);
    Delivered(t0, actions, i, raw, resp);
    Delivered(t0, actions, j, raw', resp');
    IndexOf(t0, actions, i, raw, resp);
    IndexOf(t0, actions, j, raw', resp');
    AnswerPersists(t0, actions, i + 1, raw.tenant, raw.key);
    AnswerPersists(t0, actions, j + 1, raw.tenant, raw.key);
  }

  lemma {:induction false} IndexOf(t0: Table, actions: seq<Action>, i: nat, raw: FlowReq, resp: Response)
    requires Delivers(t0, actions, i, raw, resp)
    ensures i < |actions|
  {
  }

  /** Action `i` of a run commits a handler that posts a flow with this tenant and key, directly or
      inside a reservation call. */
  ghost predicate PostsAt(t0: Table, actions: seq<Action>, i: nat, tenant: string, key: string) {
    && i < |actions| && Run(t0, actions[..i]).Some?
    && var s := Run(t0, actions[..i]).value;
       && Enabled(s, actions[i]) && actions[i].CommitTx?
       && var x := s.live[actions[i].id];
          && x.local.out.writes != [] && CommitOn(s.table, AddAll(Empty, x.local.out.writes)).0 == None
          && var p := PostedBy(x.req, x.env, s.table); p.Some? && p.value.tenant == tenant && p.value.key == key
  }

  lemma {:induction false} PostMarks(t0: Table, actions: seq<Action>, i: nat, tenant: string, key: string)
    requires Sound(t0) && PostsAt(t0, actions, i, tenant, key)
    ensures FIdempK(tenant, key) !in Run(t0, actions[..i]).value.table
    ensures Run(t0, actions[..i + 1]).Some? && FIdempK(tenant, key) in Run(t0, actions[..i + 1]).value.table
  {
    hide Inv, PostedBy, CommitOn, AddAll, Do;
    assert actions[..i + 1][..i] == actions[..i];
    var s, a := Run(t0, actions[..i]).value, actions[i];
    RunKeepsInv(t0, actions[..i]);
    DoTakes(t0, s, a);
    StepMarker(s.live[a.id].req, s.live[a.id].env, s.table, Do(s, a).table, tenant, key);
  }

  lemma {:induction false} RowsStay(t0: Table, actions: seq<Action>, i: nat, k: Key)
    requires Sound(t0) && Run(t0, actions).Some? && i <= |actions| && Run(t0, actions[..i]).Some?
    requires k in Run(t0, actions[..i]).value.table
    ensures k in Run(t0, actions).value.table
  {
    hide Run, Enabled, Do, Inv;
    if i == |actions| {
      assert actions[..i] == actions;
    } else {
      var n := |actions| - 1;
      LastStep(t0, actions);
      assert actions[..n][..i] == actions[..i];
      RowsStay(t0, actions[..n], i, k);
      RunKeepsInv(t0, actions[..n]);
      DoEvolves(t0, Run(t0, actions[..n]).value, actions[n]);
    }
  }

  /** Under any interleaving a tenant's key posts entries at most once. */
  lemma {:induction false} PostsOnce(t0: Table, actions: seq<Action>, i: nat, j: nat, tenant: string, key: string)
    requires Sound(t0) && PostsAt(t0, actions, i, tenant, key) && PostsAt(t0, actions, j, tenant, key)
    ensures i == j
    decreases i
  {
    hide Run, Enabled, CommitOn, AddAll, PostedBy, Sound;
    if i < j {
      PostMarks(t0, actions, i, tenant, key);
      PostMarks(t0, actions, j, tenant, key);
      assert actions[..j][..i + 1] == actions[..i + 1];
      RowsStay(t0, actions[..j], i + 1, FIdempK(tenant, key));
    } else if j < i {
      PostsOnce(t0, actions, j, i, tenant, key);
    }
  }
}
