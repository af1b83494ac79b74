/** Interleaved handlers over one table. Any number of handler calls are in flight; each reads one item
    at a time from whatever the table then is, buffers privately, and commits once, atomically. The
    main result is that the table is always the one obtained by running the committed handlers one at a
    time, each atomically, in commit order. */
module Protocol {
  import opened Ledger
  import opened Keys
  import opened Items
  import opened Handlers
  import opened FlowFacts
  import opened Writes

  type Answer = (Key, Option<Item>)

  /** A handler call in flight: where it stands and what its reads answered. */
  datatype TxRec = TxRec(req: Request, env: Env, local: Local, log: seq<Answer>)

  /** A committed handler and the answer its client got. */
  datatype Applied = Applied(req: Request, env: Env, resp: Response)

  datatype State = State(table: Table, live: map<nat, TxRec>, history: seq<Applied>)

  datatype Action = BeginTx(id: nat, req: Request, env: Env) | ReadItem(id: nat) | CommitTx(id: nat)
      | RollbackTx(id: nat)

  predicate Enabled(s: State, a: Action) {
    match a
    case BeginTx(id, _, _) => id !in s.live
    case ReadItem(id) => id in s.live && Wf(s.live[id].local) && !s.live[id].local.Finished?
    case CommitTx(id) => id in s.live && s.live[id].local.Finished? && s.live[id].local.out.Done?
    case RollbackTx(id) => id in s.live
  }

  /** Buffered writes and overlays live inside `local`; only a commit touches the table. */
  function Do(s: State, a: Action): State
    requires Enabled(s, a)
  {
    match a
    case BeginTx(id, req, env) => s.(live := s.live[id := TxRec(req, env, Start(req, env), [])])
    case ReadItem(id) =>
      var x := s.live[id];
      var k := Want(x.req, x.local);
      var v := Lookup(s.table, k);
      s.(live := s.live[id := x.(local := Feed(x.req, x.env, x.local, v), log := x.log + [(k, v)])])
    case CommitTx(id) =>
      var x := s.live[id];
      var (err, t) := CommitOn(s.table, AddAll(Empty, x.local.out.writes));
      State(t, s.live - {id},
        if err == None && x.local.out.writes != [] then s.history + [Applied(x.req, x.env, x.local.out.resp)]
          else s.history)
    case RollbackTx(id) => s.(live := s.live - {id})
  }

  // ------------------------------------------------------------------------------------------
  // Replaying a log
  // ------------------------------------------------------------------------------------------

  function StateAt(r: Request, env: Env, log: seq<Answer>, n: nat): (l: Local)
    requires n <= |log|
    ensures Wf(l)
  {
    if n == 0 then Start(r, env)
    else
      var l := StateAt(r, env, log, n - 1);
      if l.Finished? then l else Feed(r, env, l, log[n - 1].1)
  }

  /** The log answers exactly the reads the handler asks for. */
  ghost predicate Plays(r: Request, env: Env, log: seq<Answer>) {
    forall n | 0 <= n < |log| ::
      !StateAt(r, env, log, n).Finished? && Want(r, StateAt(r, env, log, n)) == log[n].0
  }

  ghost predicate TypedLog(log: seq<Answer>) {
    forall i | 0 <= i < |log| :: log[i].1.Some? ==> Typed(log[i].0, log[i].1.value)
  }

  /** An item without a version, once read, reads the same ever after. */
  ghost predicate Coherent(log: seq<Answer>) {
    forall i, j | 0 <= i < j < |log| && log[i].0 == log[j].0 && Immutable(log[i].1) :: log[j].1 == log[i].1
  }

  predicate Immutable(v: Option<Item>) {
    v.Some? && VersionOf(v.value) == None
  }

  lemma {:induction false} StateAtExtends(r: Request, env: Env, log: seq<Answer>, a: Answer, n: nat)
    requires n <= |log|
    ensures StateAt(r, env, log + [a], n) == StateAt(r, env, log, n)
  {
    hide Feed, Start;
    if n > 0 {
      StateAtExtends(r, env, log, a, n - 1);
    }
  }

  lemma {:induction false} PlaysExtends(r: Request, env: Env, log: seq<Answer>, v: Option<Item>)
    requires Plays(r, env, log) && !StateAt(r, env, log, |log|).Finished?
    ensures var l := StateAt(r, env, log, |log|);
            var log' := log + [(Want(r, l), v)];
            Plays(r, env, log') && StateAt(r, env, log', |log'|) == Feed(r, env, l, v)
  {
    hide Feed, Want, Start, StateAt;
    var l := StateAt(r, env, log, |log|);
    var log' := log + [(Want(r, l), v)];
    forall n | 0 <= n < |log'|
      ensures !StateAt(r, env, log', n).Finished? && Want(r, StateAt(r, env, log', n)) == log'[n].0
    {
      StateAtExtends(r, env, log, (Want(r, l), v), n);
    }
    StateAtExtends(r, env, log, (Want(r, l), v), |log|);
    StateAtNext(r, env, log', |log|);
  }

  lemma {:induction false} StateAtNext(r: Request, env: Env, log: seq<Answer>, n: nat)
    requires n < |log| && !StateAt(r, env, log, n).Finished?
    ensures StateAt(r, env, log, n + 1) == Feed(r, env, StateAt(r, env, log, n), log[n].1)
  {
    hide Feed, Want, Start;
  }

  /** The i-th read found its answer in `at(i)`. */
  ghost predicate FoundIn(at: nat -> Table, log: seq<Answer>) {
    forall i | 0 <= i < |log| :: log[i].1 == Lookup(at(i), log[i].0)
  }

  ghost predicate Agrees(t: Table, log: seq<Answer>) {
    forall i | 0 <= i < |log| :: log[i].1 == Lookup(t, log[i].0)
  }

  /** A finished run is the one the handler performs on the tables its reads found, whichever they were. */
  lemma {:induction false} LoggedRunIsDrive(r: Request, env: Env, log: seq<Answer>, at: nat -> Table, n: nat)
    requires Plays(r, env, log) && n <= |log| && StateAt(r, env, log, |log|).Finished?
    requires FoundIn(at, log)
    ensures Drive(r, env, StateAt(r, env, log, n), at, n) == (StateAt(r, env, log, |log|), |log|)
    decreases |log| - n
  {
    hide Feed, Want, StateAt, Phase, Rank;
    if n < |log| {
      StateAtNext(r, env, log, n);
      LoggedRunIsDrive(r, env, log, at, n + 1);
    }
  }

  /** In particular, if every answer is what the one table `t` holds, the run is the one a handler alone on
      `t` performs. */
  lemma {:induction false} AgreeingRunIsAtomic(r: Request, env: Env, log: seq<Answer>, t: Table, n: nat)
    requires Plays(r, env, log) && n <= |log| && StateAt(r, env, log, |log|).Finished?
    requires Agrees(t, log)
    ensures Drive(r, env, StateAt(r, env, log, n), (_: nat) => t, n) == (StateAt(r, env, log, |log|), |log|)
  {
    hide Drive, Feed, Want, StateAt, Plays;
    LoggedRunIsDrive(r, env, log, (_: nat) => t, n);
  }

  // ------------------------------------------------------------------------------------------
  // What a handler promises about the conditions of its final writes
  // ------------------------------------------------------------------------------------------

  /** Facts about the state a handler is in that hold whatever its typed reads answered. */
  predicate LocalOk(r: Request, l: Local) {
    match l
    case InFlow(fr, row, fl) =>
      fr.tenant == TenantOf(r) && RowOk(r, row) && LoadedOk(LoadedOf(fl))
    case WantDestination(row) => RowOk(r, Some(row))
    case _ => true
  }

  function LoadedOf(fl: FlowLocal): seq<Loaded> {
    match fl
    case WantAccount(loaded) => loaded
    case WantBalance(loaded, _) => loaded
    case WantProbe(loaded, _) => loaded
    case _ => []
  }

  /** Where the handler finishes with writes, they are good. */
  ghost predicate OutcomeOk(l: Local) {
    l.Finished? && l.out.Done? ==> GoodWrites(l.out.writes)
  }

  lemma {:induction false} LiftOk(r: Request, env: Env, fr: FlowReq, row: Option<HeldRow>, fl: FlowLocal)
    requires FlowWf(fr, fl) && fr.tenant == TenantOf(r) && RowOk(r, row)
    requires LoadedOk(LoadedOf(fl))
    requires fl.FlowEnd? ==> FlowGood(WritesOf(fl.res))
    ensures LocalOk(r, Lift(r, env, fr, row, fl)) && OutcomeOk(Lift(r, env, fr, row, fl))
  {
    if fl.FlowEnd? && After(r, env, row, fl.res).Done? {
      AfterGood(r, env, row, fl.res);
    }
  }

  lemma {:induction false} LoadingOk(env: Env, fr: FlowReq, loaded: seq<Loaded>)
    requires |loaded| <= |RefsOf(fr)| && LoadedOk(loaded)
    ensures LoadedOk(LoadedOf(Loading(env, fr, loaded)))
    ensures Loading(env, fr, loaded).FlowEnd? ==> FlowGood(WritesOf(Loading(env, fr, loaded).res))
  {
    hide FlowWrites, RunOf, StepRows, StepBase, RefsOf, Overdrawn, StepOk, FlowGood;
    NoWritesGood();
    if |loaded| == |RefsOf(fr)| {
      FlowWritesGood(env, fr, loaded);
    }
  }

  lemma {:induction false} FlowFeedOk(env: Env, fr: FlowReq, fl: FlowLocal, v: Option<Item>)
    requires FlowWf(fr, fl) && !fl.FlowEnd? && LoadedOk(LoadedOf(fl))
    requires v.Some? ==> Typed(FlowWant(fr, fl), v.value)
    ensures LoadedOk(LoadedOf(FlowFeed(env, fr, fl, v)))
    ensures FlowFeed(env, fr, fl, v).FlowEnd? ==> FlowGood(WritesOf(FlowFeed(env, fr, fl, v).res))
  {
    match fl
    case WantMarker => LoadingOk(env, fr, []);
    case WantFlow(_) => LoadingOk(env, fr, []);
    case WantSteps(_) =>
    case WantAccount(loaded) =>
    case WantBalance(loaded, a) =>
      var (d, c, ver) := BalanceRead(v);
      if ver != 0 || d != 0 || c != 0 {
        LoadingOk(env, fr, loaded + [Loaded(a, d, c, ver, true)]);
      }
    case WantProbe(loaded, a) => LoadingOk(env, fr, loaded + [Loaded(a, 0, 0, 0, v.Some?)]);
  }

  lemma {:induction false} BeginOk(r: Request, env: Env, raw: FlowReq, row: Option<HeldRow>)
    requires raw.tenant == TenantOf(r) && RowOk(r, row)
    ensures LocalOk(r, BeginFlow(r, env, raw, row)) && OutcomeOk(BeginFlow(r, env, raw, row))
  {
    LiftOk(r, env, Parsed(raw), row, FlowStart(raw));
  }

  lemma {:induction false} StartOk(r: Request, env: Env)
    ensures LocalOk(r, Start(r, env)) && OutcomeOk(Start(r, env))
  {
    if r.ExecuteFlow? {
      BeginOk(r, env, r.flow, None);
    }
  }

  lemma {:induction false} FeedOk(r: Request, env: Env, l: Local, v: Option<Item>)
    requires Wf(l) && !l.Finished? && LocalOk(r, l)
    requires v.Some? ==> Typed(Want(r, l), v.value)
    ensures LocalOk(r, Feed(r, env, l, v)) && OutcomeOk(Feed(r, env, l, v))
  {
    hide BeginFlow, Lift, RefsOf, LoadedOk;
    match l
    case WantReservationMarker =>
      if r.CreateReservation? {
        BeginOk(r, env, CreateFlow(r), None);
      }
    case WantReplayed(_) =>
    case WantReservation =>
      if v.Some? && v.value.ResItem? {
        var row := HeldRow(v.value.reservation, v.value.resVersion);
        if r.ReleaseReservation? {
          BeginOk(r, env, ReleaseFlow(r, row.res), Some(row));
        } else if r.ExpireReservation? {
          BeginOk(r, env, ExpireFlow(r, row.res), Some(row));
        }
      }
    case WantDestination(row) =>
      if v.Some? && v.value.AccItem? && r.CommitReservation? {
        BeginOk(r, env, CommitFlow(r, row.res, v.value.account.id), Some(row));
      }
    case InFlow(fr, row, fl) =>
      FlowFeedOk(env, fr, fl, v);
      LiftOk(r, env, fr, row, FlowFeed(env, fr, fl, v));
  }

  lemma {:induction false} StateAtOk(r: Request, env: Env, log: seq<Answer>, n: nat)
    requires n <= |log| && TypedLog(log) && Plays(r, env, log)
    ensures LocalOk(r, StateAt(r, env, log, n)) && OutcomeOk(StateAt(r, env, log, n))
  {
    hide Feed, Start, Want, LocalOk, OutcomeOk, Typed;
    if n == 0 {
      StartOk(r, env);
    } else {
      StateAtOk(r, env, log, n - 1);
      FeedOk(r, env, StateAt(r, env, log, n - 1), log[n - 1].1);
    }
  }

  ghost predicate CondIs(ws: seq<Write>, k: Key, c: Cond) {
    FirstCond(ws, k) == Some(c)
  }

  /** The flow's marker and all balances loaded so far will be written under matching conditions. */
  ghost predicate FlowPromise(fr: FlowReq, fl: FlowLocal, ws: seq<Write>) {
    match fl
    case WantMarker => true
    case WantFlow(_) => true
    case WantSteps(_) => true
    case FlowEnd(res) => true
    case _ =>
      && CondIs(ws, FIdempK(fr.tenant, fr.key), NotExists)
      && |LoadedOf(fl)| <= |RefsOf(fr)|
      && (forall j | 0 <= j < |LoadedOf(fl)| :: CondIs(ws, BalKey(fr.tenant, RefsOf(fr)[j]), CondOf(LoadedOf(fl)[j])))
      && (fl.WantProbe? ==>
            |fl.loaded| < |RefsOf(fr)| && AbsentOrZero(ws, BalKey(fr.tenant, RefsOf(fr)[|fl.loaded|])))
  }

  /** The condition of a balance whose first read found no row: still absent, or (when the probe found
      one after all) version zero, which no stored row has. */
  ghost predicate AbsentOrZero(ws: seq<Write>, k: Key) {
    CondIs(ws, k, NotExists) || CondIs(ws, k, VersionEquals(0))
  }

  /** A reservation row that was read is written back under its version; a creation writes its marker
      as new. */
  ghost predicate RowPromise(r: Request, row: Option<HeldRow>, ws: seq<Write>) {
    && (Updates(r) && row.Some? ==> CondIs(ws, ResK(TenantOf(r), row.value.res.id), VersionEquals(row.value.version)))
    && (r.CreateReservation? ==> CondIs(ws, RIdempK(r.tenant, r.key), NotExists))
  }

  ghost predicate Promise(r: Request, l: Local, ws: seq<Write>) {
    match l
    case InFlow(fr, row, fl) => FlowPromise(fr, fl, ws) && RowPromise(r, row, ws)
    case WantDestination(row) => RowPromise(r, Some(row), ws)
    case Finished(out) => out.Done? && out.writes == ws
    case _ => true
  }

  lemma {:induction false} AfterKeepsFlowConds(r: Request, env: Env, row: Option<HeldRow>, res: FlowResult, k: Key)
    requires After(r, env, row, res).Done? && res.FlowPosted?
    requires FirstCond(res.writes, k).Some?
    ensures FirstCond(After(r, env, row, res).writes, k) == FirstCond(res.writes, k)
  {
    if r.CreateReservation? {
      AfterCreates(r, env, row, res);
      FirstCondConcat(WritesOf(res), CreateWrites(r, env, UsedOf(res), res.run.id), k);
    } else if Updates(r) {
      AfterUpdates(r, env, row.value, res);
      FirstCondConcat(WritesOf(res), UpdateWrites(r, row.value, Updated(r, row.value.res),
        UpdatedEvent(r, env.Id(UsedOf(res)), row.value.res)), k);
    }
  }

  lemma {:induction false} PairConds(v: Write, w: Write, k: Key)
    requires v.key != w.key
    ensures FirstCond([v, w], k) == if k == v.key then Some(v.cond) else if k == w.key then Some(w.cond) else None
  {
    assert [v, w][..1] == [v];
    assert FirstCond([v], k) == if k == v.key then Some(v.cond) else None;
  }

  lemma {:induction false} TripleConds(u: Write, v: Write, w: Write, k: Key)
    requires u.key != v.key && u.key != w.key && v.key != w.key
    ensures FirstCond([u, v, w], k)
         == if k == u.key then Some(u.cond) else if k == v.key then Some(v.cond) else if k == w.key then Some(w.cond)
           else None
  {
    assert [u, v, w][..2] == [u, v];
    PairConds(u, v, k);
  }

  lemma {:induction false} AfterKeepsRowPromise(r: Request, env: Env, row: Option<HeldRow>, res: FlowResult)
    requires After(r, env, row, res).Done? && FlowGood(WritesOf(res))
    ensures RowPromise(r, row, After(r, env, row, res).writes)
  {
    if r.CreateReservation? {
      AfterCreates(r, env, row, res);
      var k := RIdempK(r.tenant, r.key);
      var ws := CreateWrites(r, env, UsedOf(res), res.run.id);
      NotWritten(WritesOf(res), k);
      FirstCondConcat(WritesOf(res), ws, k);
      TripleConds(ws[0], ws[1], ws[2], k);
      assert ws == [ws[0], ws[1], ws[2]];
    } else if Updates(r) {
      AfterUpdates(r, env, row.value, res);
      var k := ResK(TenantOf(r), row.value.res.id);
      var ws := UpdateWrites(r, row.value, Updated(r, row.value.res),
        UpdatedEvent(r, env.Id(UsedOf(res)), row.value.res));
      NotWritten(WritesOf(res), k);
      FirstCondConcat(WritesOf(res), ws, k);
      PairConds(ws[0], ws[1], k);
    }
  }

  /** Once everything is loaded, the final writes keep the flow's promises. */
  lemma {:induction false} PostKeepsPromise(r: Request, env: Env, fr: FlowReq, row: Option<HeldRow>,
      loaded: seq<Loaded>)
    requires |loaded| == |RefsOf(fr)| && LoadedOk(loaded)
    requires After(r, env, row, Post(env, fr, loaded)).Done?
    ensures var ws := After(r, env, row, Post(env, fr, loaded)).writes;
            && RowPromise(r, row, ws)
            && CondIs(ws, FIdempK(fr.tenant, fr.key), NotExists)
            && forall j | 0 <= j < |loaded| :: CondIs(ws, BalKey(fr.tenant, RefsOf(fr)[j]), CondOf(loaded[j]))
  {
    hide After, FlowGood, RowPromise, FlowWrites;
    var res := Post(env, fr, loaded);
    NoFailAfter(r, env, row, res);
    FlowWritesGood(env, fr, loaded);
    AfterKeepsRowPromise(r, env, row, res);
    FlowWritesMarker(env, fr, loaded, FIdempK(fr.tenant, fr.key));
    AfterKeepsFlowConds(r, env, row, res, FIdempK(fr.tenant, fr.key));
    forall j | 0 <= j < |loaded|
      ensures CondIs(After(r, env, row, res).writes, BalKey(fr.tenant, RefsOf(fr)[j]), CondOf(loaded[j]))
    {
      FlowWritesBalance(env, fr, loaded, j);
      AfterKeepsFlowConds(r, env, row, res, BalKey(fr.tenant, RefsOf(fr)[j]));
    }
  }

  lemma {:induction false} NoFailAfter(r: Request, env: Env, row: Option<HeldRow>, res: FlowResult)
    requires After(r, env, row, res).Done?
    ensures !res.FlowFail?
  {
  }

  /** A read is guarded: its answer cannot change any more, or the final writes check it. */
  ghost predicate Guarded(ws: seq<Write>, k: Key, v: Option<Item>) {
    || Immutable(v)
    || (v == None && AbsentOrZero(ws, k))
    || (v.Some? && VersionOf(v.value).Some? && CondIs(ws, k, VersionEquals(VersionOf(v.value).value)))
    || CondIs(ws, k, VersionEquals(0))
  }

  ghost predicate LoadedPromise(fr: FlowReq, loaded: seq<Loaded>, ws: seq<Write>) {
    && |loaded| <= |RefsOf(fr)|
    && CondIs(ws, FIdempK(fr.tenant, fr.key), NotExists)
    && forall j | 0 <= j < |loaded| :: CondIs(ws, BalKey(fr.tenant, RefsOf(fr)[j]), CondOf(loaded[j]))
  }

  lemma {:induction false} LoadingPromise(r: Request, env: Env, fr: FlowReq, row: Option<HeldRow>,
      loaded: seq<Loaded>, ws: seq<Write>)
    requires |loaded| <= |RefsOf(fr)| && LoadedOk(loaded)
    requires Promise(r, Lift(r, env, fr, row, Loading(env, fr, loaded)), ws)
    ensures RowPromise(r, row, ws) && LoadedPromise(fr, loaded, ws)
  {
    hide After, Post, RefsOf, CondIs, RowPromise, LoadedOk;
    if |loaded| == |RefsOf(fr)| {
      PostKeepsPromise(r, env, fr, row, loaded);
    }
  }

  /** One read of a flow, seen from the end: what the state after it promises, the state before it
      promises too, and the read itself is guarded. */
  lemma {:induction false} FlowBackStep(r: Request, env: Env, fr: FlowReq, row: Option<HeldRow>, fl: FlowLocal,
      v: Option<Item>, ws: seq<Write>)
    requires FlowWf(fr, fl) && !fl.FlowEnd? && LoadedOk(LoadedOf(fl))
    requires v.Some? ==> Typed(FlowWant(fr, fl), v.value)
    requires Promise(r, Lift(r, env, fr, row, FlowFeed(env, fr, fl, v)), ws)
    ensures FlowPromise(fr, fl, ws) && RowPromise(r, row, ws)
    ensures !fl.WantFlow? && !fl.WantSteps? ==> Guarded(ws, FlowWant(fr, fl), v)
    ensures fl.WantFlow? ==> Immutable(v) || CondIs(ws, FIdempK(fr.tenant, fr.key), NotExists)
  {
    hide After, Post, RefsOf, CondIs, RowPromise, LoadedOk;
    match fl
    case WantMarker =>
      if !(v.Some? && v.value.FIdempItem?) {
        NothingLoadedOk();
        LoadingPromise(r, env, fr, row, [], ws);
      }
    case WantFlow(_) =>
      if !(v.Some? && v.value.FlowItem?) {
        NothingLoadedOk();
        LoadingPromise(r, env, fr, row, [], ws);
      } else {
        NoFailAfterAll(r, env, row, FlowConflict);
      }
    case WantSteps(run) =>
      NoWritesGood();
      AfterKeepsRowPromise(r, env, row, FlowFeed(env, fr, fl, v).res);
    case WantAccount(loaded) =>
      NoFailAfterAll(r, env, row, InvalidAccountStatus);
      NoFailAfterAll(r, env, row, AccountCurrencyMismatch);
      NoFailAfterAll(r, env, row, AccountNotFound);
    case WantBalance(loaded, a) =>
      var (d, c, ver) := BalanceRead(v);
      if ver != 0 || d != 0 || c != 0 {
        var more := loaded + [Loaded(a, d, c, ver, true)];
        SnocLoadedOk(loaded, Loaded(a, d, c, ver, true));
        LoadingPromise(r, env, fr, row, more, ws);
        SnocLoadedPromise(fr, loaded, Loaded(a, d, c, ver, true), ws);
      }
    case WantProbe(loaded, a) =>
      var last := Loaded(a, 0, 0, 0, v.Some?);
      SnocLoadedOk(loaded, last);
      LoadingPromise(r, env, fr, row, loaded + [last], ws);
      SnocLoadedPromise(fr, loaded, last, ws);
  }

  lemma {:induction false} NothingLoadedOk()
    ensures LoadedOk([])
  {
  }

  lemma {:induction false} SnocLoadedOk(loaded: seq<Loaded>, last: Loaded)
    requires LoadedOk(loaded) && last.version >= 0 && (!last.existed ==> last.version == 0)
    ensures LoadedOk(loaded + [last])
  {
  }

  lemma {:induction false} SnocLoadedPromise(fr: FlowReq, loaded: seq<Loaded>, last: Loaded, ws: seq<Write>)
    requires LoadedPromise(fr, loaded + [last], ws)
    ensures LoadedPromise(fr, loaded, ws)
    ensures |loaded| < |RefsOf(fr)| && CondIs(ws, BalKey(fr.tenant, RefsOf(fr)[|loaded|]), CondOf(last))
  {
    var more := loaded + [last];
    assert more[|loaded|] == last;
    forall j | 0 <= j < |loaded| ensures CondIs(ws, BalKey(fr.tenant, RefsOf(fr)[j]), CondOf(loaded[j])) {
      assert more[j] == loaded[j];
    }
  }

  lemma {:induction false} NoFailAfterAll(r: Request, env: Env, row: Option<HeldRow>, code: Code)
    ensures After(r, env, row, FlowFail(code)) == Fail(code)
  {
  }

  /** The same for any read of a handler that ends with writes. */
  lemma {:induction false} BackStep(r: Request, env: Env, l: Local, v: Option<Item>, ws: seq<Write>)
    requires Wf(l) && !l.Finished? && LocalOk(r, l) && ws != []
    requires v.Some? ==> Typed(Want(r, l), v.value)
    requires Promise(r, Feed(r, env, l, v), ws)
    ensures Promise(r, l, ws)
    ensures !(l.InFlow? && (l.fl.WantFlow? || l.fl.WantSteps?)) ==> Guarded(ws, Want(r, l), v)
    ensures l.InFlow? && l.fl.WantFlow? ==> Immutable(v) || CondIs(ws, FIdempK(l.fr.tenant, l.fr.key), NotExists)
  {
    hide After, FlowFeed, FlowWant, FlowWf, CondIs, LoadedOk, AmountsOk, ParseSteps;
    match l
    case InFlow(fr, row, fl) =>
      FlowBackStep(r, env, fr, row, fl, v, ws);
    case WantReservationMarker =>
      NoFailAfterAll(r, env, None, UnbalancedJournal);
    case WantReplayed(_) =>
    case WantReservation =>
      if v.Some? && v.value.ResItem? {
        NoFailAfterAll(r, env, Some(HeldRow(v.value.reservation, v.value.resVersion)), UnbalancedJournal);
      }
    case WantDestination(row) =>
      NoFailAfterAll(r, env, Some(row), UnbalancedJournal);
  }
}
