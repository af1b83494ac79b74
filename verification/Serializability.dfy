/** The main result on concurrency: committed handlers are serializable in commit order. */
module Serializability {
  import opened Ledger
  import opened Keys
  import opened Items
  import opened Handlers
  import opened Writes
  import opened Protocol

  /** `t` still holds `item` at `k`, or holds a later version of it. */
  ghost predicate Newer(t: Table, k: Key, item: Item) {
    k in t
    && (t[k] == item
        || (VersionOf(item).Some? && VersionOf(t[k]).Some? && VersionOf(t[k]).value > VersionOf(item).value))
  }

  /** How the table may change under a transaction's feet. */
  ghost predicate Evolves(t: Table, u: Table) {
    forall k | k in t :: Newer(u, k, t[k])
  }

  ghost predicate LogHolds(t: Table, log: seq<Answer>) {
    forall i | 0 <= i < |log| && log[i].1.Some? :: Newer(t, log[i].0, log[i].1.value)
  }

  ghost predicate TxOk(t: Table, x: TxRec) {
    && Plays(x.req, x.env, x.log)
    && x.local == StateAt(x.req, x.env, x.log, |x.log|)
    && TypedLog(x.log) && Coherent(x.log) && LogHolds(t, x.log)
  }

  // ------------------------------------------------------------------------------------------
  // Commits
  // ------------------------------------------------------------------------------------------

  /** A successful commit keeps the table sound, and raises the version of every row it replaces by
      exactly one. */
  lemma {:induction false} CommitEvolves(t: Table, ws: seq<Write>)
    requires Sound(t) && GoodWrites(ws) && AllHold(t, AddAll(Empty, ws))
    ensures Sound(Written(t, AddAll(Empty, ws)))
    ensures Evolves(t, Written(t, AddAll(Empty, ws)))
    ensures var u := Written(t, AddAll(Empty, ws));
            forall k | k in t && u[k] != t[k] ::
              VersionOf(t[k]).Some? && VersionOf(u[k]) == Some(VersionOf(t[k]).value + 1)
    ensures var u := Written(t, AddAll(Empty, ws));
            forall k | k in u && k !in t :: VersionOf(u[k]) == None || VersionOf(u[k]) == Some(1)
  {
    var b := AddAll(Empty, ws);
    var u := Written(t, b);
    forall k | k in u
      ensures Typed(k, u[k])
      ensures k in t ==> Newer(u, k, t[k])
      ensures k in t && u[k] != t[k] ==> VersionOf(t[k]).Some? && VersionOf(u[k]) == Some(VersionOf(t[k]).value + 1)
      ensures k !in t ==> VersionOf(u[k]) == None || VersionOf(u[k]) == Some(1)
    {
      if k in b.puts {
        GoodPut(ws, k);
        assert CondHolds(t, k, b.puts[k].cond);
      }
    }
  }

  lemma {:induction false} EvolvesKeepsLog(t: Table, u: Table, log: seq<Answer>)
    requires Evolves(t, u) && LogHolds(t, log)
    ensures LogHolds(u, log)
  {
    forall i | 0 <= i < |log| && log[i].1.Some? ensures Newer(u, log[i].0, log[i].1.value) {
      assert Newer(u, log[i].0, t[log[i].0]);
    }
  }

  /** Reads `n` onwards of a finished run are guarded by the writes it ends with. A replayed flow's own
      rows are the exception: they were reached through a marker that the writes would collide with. */
  lemma {:induction false} ReadsGuarded(r: Request, env: Env, log: seq<Answer>, n: nat, ws: seq<Write>)
    requires n <= |log| && Plays(r, env, log) && TypedLog(log) && ws != []
    requires EndsWith(StateAt(r, env, log, |log|), ws)
    ensures Promise(r, StateAt(r, env, log, n), ws)
    ensures forall i | n <= i < |log| :: ReadOk(r, env, log, i, ws)
    decreases |log| - n
  {
    hide Promise, ReadOk, StateAt, EndsWith;
    if n < |log| {
      ReadsGuarded(r, env, log, n + 1, ws);
      ReadBack(r, env, log, n, ws);
    } else {
      FinishedPromise(r, StateAt(r, env, log, n), ws);
    }
  }

  ghost predicate EndsWith(l: Local, ws: seq<Write>) {
    l.Finished? && l.out.Done? && l.out.writes == ws
  }

  lemma {:induction false} ReadBack(r: Request, env: Env, log: seq<Answer>, n: nat, ws: seq<Write>)
    requires n < |log| && Plays(r, env, log) && TypedLog(log) && ws != []
    requires Promise(r, StateAt(r, env, log, n + 1), ws)
    ensures Promise(r, StateAt(r, env, log, n), ws) && ReadOk(r, env, log, n, ws)
  {
    hide Promise, Guarded, Feed, Want, CondIs, LocalOk, StateAt;
    StateAtOk(r, env, log, n);
    StateAtNext(r, env, log, n);
    BackStep(r, env, StateAt(r, env, log, n), log[n].1, ws);
  }

  lemma {:induction false} FinishedPromise(r: Request, l: Local, ws: seq<Write>)
    requires EndsWith(l, ws)
    ensures Promise(r, l, ws)
  {
  }

  ghost predicate ReadOk(r: Request, env: Env, log: seq<Answer>, i: nat, ws: seq<Write>)
    requires i < |log|
  {
    var l := StateAt(r, env, log, i);
    if l.InFlow? && l.fl.WantFlow? then Immutable(log[i].1) || CondIs(ws, FIdempK(l.fr.tenant, l.fr.key), NotExists)
    else if l.InFlow? && l.fl.WantSteps? then true
    else Guarded(ws, log[i].0, log[i].1)
  }

  /** How a handler comes to ask for a flow row: not at the start, and only from the state before. */
  lemma {:induction false} StartNotInFlowRow(r: Request, env: Env)
    ensures Start(r, env).InFlow? ==> Start(r, env).fl == WantMarker
  {
    hide RefsOf, After, ParseSteps, AmountsOk;
  }

  lemma {:induction false} BeginNotInFlowRow(r: Request, env: Env, raw: FlowReq, row: Option<HeldRow>)
    ensures BeginFlow(r, env, raw, row).InFlow? ==> BeginFlow(r, env, raw, row).fl == WantMarker
  {
    hide RefsOf, After, ParseSteps, AmountsOk;
  }

  lemma {:induction false} IntoFlowRow(r: Request, env: Env, l: Local, v: Option<Item>)
    requires Wf(l) && !l.Finished?
    requires var m := Feed(r, env, l, v); m.InFlow? && (m.fl.WantFlow? || m.fl.WantSteps?)
    ensures l.InFlow? && l.fr == Feed(r, env, l, v).fr
    ensures Feed(r, env, l, v).fl.WantFlow? ==> l.fl == WantMarker && v.Some? && v.value.FIdempItem?
    ensures Feed(r, env, l, v).fl.WantSteps? ==>
              l.fl.WantFlow? && v.Some? && v.value.FlowItem? && Feed(r, env, l, v).fl.run == v.value.run
  {
    hide RefsOf, Post, After, BeginFlow;
    match l
    case WantReservationMarker => if r.CreateReservation? { BeginNotInFlowRow(r, env, CreateFlow(r), None); }
    case WantReplayed(_) =>
    case WantReservation =>
      if v.Some? && v.value.ResItem? {
        var row := HeldRow(v.value.reservation, v.value.resVersion);
        if r.ReleaseReservation? { BeginNotInFlowRow(r, env, ReleaseFlow(r, row.res), Some(row)); }
        if r.ExpireReservation? { BeginNotInFlowRow(r, env, ExpireFlow(r, row.res), Some(row)); }
      }
    case WantDestination(row) =>
      if v.Some? && v.value.AccItem? && r.CommitReservation? {
        BeginNotInFlowRow(r, env, CommitFlow(r, row.res, v.value.account.id), Some(row));
      }
    case InFlow(fr, row, fl) =>
  }

  /** A flow row is only asked for after its marker was read. */
  lemma {:induction false} MarkerBeforeFlow(r: Request, env: Env, log: seq<Answer>, i: nat)
    requires i < |log| && Plays(r, env, log)
    requires var l := StateAt(r, env, log, i); l.InFlow? && l.fl.WantFlow?
    ensures i > 0
    ensures var fr := StateAt(r, env, log, i).fr;
            log[i - 1].0 == FIdempK(fr.tenant, fr.key) && log[i - 1].1.Some? && log[i - 1].1.value.FIdempItem?
  {
    hide Feed, Start;
    StartNotInFlowRow(r, env);
    StateAtNext(r, env, log, i - 1);
    IntoFlowRow(r, env, StateAt(r, env, log, i - 1), log[i - 1].1);
  }

  /** The second read of a replayed flow's row repeats the first. */
  lemma {:induction false} StepsAfterFlow(r: Request, env: Env, log: seq<Answer>, i: nat)
    requires i < |log| && Plays(r, env, log) && TypedLog(log) && Coherent(log)
    requires var l := StateAt(r, env, log, i); l.InFlow? && l.fl.WantSteps?
    ensures Immutable(log[i].1)
  {
    hide Feed, Start;
    StartNotInFlowRow(r, env);
    StateAtNext(r, env, log, i - 1);
    IntoFlowRow(r, env, StateAt(r, env, log, i - 1), log[i - 1].1);
    assert Typed(log[i - 1].0, log[i - 1].1.value);
    assert log[i - 1].0 == log[i].0;
  }

  /** No stored row has version zero. A balance row that appeared between the first read, which found
      none, and the existence probe is written under "version = 0", so that commit fails rather than
      overwrite it. */
  lemma {:induction false} ZeroVersionNeverHolds(t: Table, ws: seq<Write>, k: Key)
    requires Sound(t) && CondIs(ws, k, VersionEquals(0))
    ensures !AllHold(t, AddAll(Empty, ws))
  {
    Coalesced(ws, k);
    assert k in t ==> Typed(k, t[k]);
    assert !CondHolds(t, k, AddAll(Empty, ws).puts[k].cond);
  }

  /** One guarded read, at a commit whose conditions hold: the table still says what was read. */
  lemma {:induction false} GuardedReadHolds(t: Table, ws: seq<Write>, k: Key, v: Option<Item>)
    requires Sound(t) && AllHold(t, AddAll(Empty, ws)) && Guarded(ws, k, v)
    requires v.Some? ==> Newer(t, k, v.value)
    ensures v == Lookup(t, k)
  {
    Coalesced(ws, k);
    if FirstCond(ws, k).Some? {
      assert CondHolds(t, k, FirstCond(ws, k).value);
    }
    assert k in t ==> Typed(k, t[k]);
  }

  /** The heart of the optimistic scheme: when the conditions hold at commit, everything the handler
      ever read, at whatever moment, is what the table holds now. */
  lemma {:induction false} CommitAgrees(t: Table, x: TxRec)
    requires Sound(t) && TxOk(t, x)
    requires x.local.Finished? && x.local.out.Done? && x.local.out.writes != []
    requires AllHold(t, AddAll(Empty, x.local.out.writes))
    ensures Agrees(t, x.log)
  {
    var ws := x.local.out.writes;
    var r, env, log := x.req, x.env, x.log;
    ReadsGuarded(r, env, log, 0, ws);
    forall i | 0 <= i < |log| ensures log[i].1 == Lookup(t, log[i].0) {
      ReadStillHolds(t, x, i, ws);
    }
  }

  lemma {:induction false} ReadStillHolds(t: Table, x: TxRec, i: nat, ws: seq<Write>)
    requires Sound(t) && TxOk(t, x) && i < |x.log|
    requires ReadOk(x.req, x.env, x.log, i, ws)
    requires AllHold(t, AddAll(Empty, ws))
    ensures x.log[i].1 == Lookup(t, x.log[i].0)
  {
    hide StateAt, AllHold, Guarded, Sound;
    var r, env, log := x.req, x.env, x.log;
    var l := StateAt(r, env, log, i);
    if l.InFlow? && l.fl.WantFlow? {
      MarkerBeforeFlow(r, env, log, i);
      if !Immutable(log[i].1) {
        MarkerCollides(t, ws, log[i - 1].0, log[i - 1].1.value);
      }
    } else if l.InFlow? && l.fl.WantSteps? {
      StepsAfterFlow(r, env, log, i);
    } else {
      GuardedReadHolds(t, ws, log[i].0, log[i].1);
    }
  }

  /** A marker that was read cannot be written as new. */
  lemma {:induction false} MarkerCollides(t: Table, ws: seq<Write>, k: Key, marker: Item)
    requires Newer(t, k, marker) && CondIs(ws, k, NotExists)
    ensures !AllHold(t, AddAll(Empty, ws))
  {
    Coalesced(ws, k);
    assert !CondHolds(t, k, AddAll(Empty, ws).puts[k].cond);
  }

  // ------------------------------------------------------------------------------------------
  // The serial execution
  // ------------------------------------------------------------------------------------------

  /** A handler alone on table `t`. */
  function Alone(r: Request, env: Env, t: Table): CallResult {
    Call(r, env, (_: nat) => t, 0)
  }

  function After1(t: Table, c: Applied): Table {
    var res := Alone(c.req, c.env, t);
    if res.wrote.Some? then res.wrote.value else t
  }

  /** The committed handlers, one at a time, each on the table the previous one left. */
  function Serial(t: Table, history: seq<Applied>): Table {
    if history == [] then t else After1(Serial(t, history[..|history| - 1]), history[|history| - 1])
  }

  /** Every committed handler, run alone in its serial position, commits and gives its client the very
      answer the interleaved run gave. */
  ghost predicate SerialAnswers(t: Table, history: seq<Applied>) {
    forall i | 0 <= i < |history| ::
      var res := Alone(history[i].req, history[i].env, Serial(t, history[..i]));
      res.answer == Ok(history[i].resp) && res.wrote.Some?
  }

  ghost predicate Inv(t0: Table, s: State) {
    && Sound(s.table)
    && (forall id | id in s.live :: TxOk(s.table, s.live[id]))
    && s.table == Serial(t0, s.history)
    && SerialAnswers(t0, s.history)
  }

  lemma {:induction false} BeginKeepsInv(t0: Table, s: State, id: nat, req: Request, env: Env)
    requires Inv(t0, s) && Enabled(s, BeginTx(id, req, env))
    ensures Inv(t0, Do(s, BeginTx(id, req, env)))
  {
    hide Start, Feed, Want, Serial, SerialAnswers, Sound;
  }

  lemma {:induction false} ReadKeepsTxOk(t: Table, x: TxRec)
    requires Sound(t) && TxOk(t, x) && Wf(x.local) && !x.local.Finished?
    ensures var k := Want(x.req, x.local);
            var v := Lookup(t, k);
            TxOk(t, x.(local := Feed(x.req, x.env, x.local, v), log := x.log + [(k, v)]))
  {
    hide Feed, Want, StateAt, Plays;
    var k := Want(x.req, x.local);
    var v := Lookup(t, k);
    PlaysExtends(x.req, x.env, x.log, v);
    var log := x.log + [(k, v)];
    forall i, j | 0 <= i < j < |log| && log[i].0 == log[j].0 && Immutable(log[i].1) ensures log[j].1 == log[i].1 {
      assert Newer(t, log[i].0, log[i].1.value);
    }
  }

  lemma {:induction false} ReadKeepsInv(t0: Table, s: State, id: nat)
    requires Inv(t0, s) && Enabled(s, ReadItem(id))
    ensures Inv(t0, Do(s, ReadItem(id)))
  {
    hide Feed, Want, TxOk;
    ReadKeepsTxOk(s.table, s.live[id]);
  }

  lemma {:induction false} AloneRuns(t: Table, x: TxRec)
    requires TxOk(t, x) && Agrees(t, x.log) && x.local.Finished?
    ensures Drive(x.req, x.env, Start(x.req, x.env), (_: nat) => t, 0) == (x.local, |x.log|)
  {
    hide Drive, Feed, Want, Start;
    AgreeingRunIsAtomic(x.req, x.env, x.log, t, 0);
    assert StateAt(x.req, x.env, x.log, 0) == Start(x.req, x.env);
  }

  lemma {:induction false} NonEmptyBuffer(ws: seq<Write>)
    requires ws != []
    ensures |AddAll(Empty, ws).puts| > 0
  {
    AddAllValid(Empty, ws);
    assert ws[0].key in KeySet(ws);
    assert ws[0].key in AddAll(Empty, ws).puts;
  }

  /** A commit that succeeds is what the handler alone on the current table would have done. */
  lemma {:induction false} CommitIsAtomic(t: Table, x: TxRec)
    requires Sound(t) && TxOk(t, x)
    requires x.local.Finished? && x.local.out.Done? && x.local.out.writes != []
    requires CommitOn(t, AddAll(Empty, x.local.out.writes)).0 == None
    ensures Alone(x.req, x.env, t)
         == CallResult(Ok(x.local.out.resp), Some(CommitOn(t, AddAll(Empty, x.local.out.writes)).1))
  {
    hide Drive, Start, AllHold, Written, TxOk;
    NonEmptyBuffer(x.local.out.writes);
    CommitAgrees(t, x);
    AloneRuns(t, x);
  }

  lemma {:induction false} SerialSnoc(t0: Table, history: seq<Applied>, c: Applied, t: Table)
    requires SerialAnswers(t0, history)
    requires Alone(c.req, c.env, Serial(t0, history)) == CallResult(Ok(c.resp), Some(t))
    ensures Serial(t0, history + [c]) == t
    ensures SerialAnswers(t0, history + [c])
  {
    hide Alone;
    var longer := history + [c];
    assert longer[..|history|] == history;
    forall i | 0 <= i < |longer|
      ensures var res := Alone(longer[i].req, longer[i].env, Serial(t0, longer[..i]));
              res.answer == Ok(longer[i].resp) && res.wrote.Some?
    {
      if i < |history| {
        assert longer[..i] == history[..i] && longer[i] == history[i];
      }
    }
  }

  /** A failed or empty commit changes nothing but retires the transaction. */
  lemma {:induction false} IdleCommitKeepsInv(t0: Table, s: State, id: nat)
    requires Inv(t0, s) && Enabled(s, CommitTx(id))
    requires s.live[id].local.out.writes == []
        || CommitOn(s.table, AddAll(Empty, s.live[id].local.out.writes)).0 != None
    ensures Inv(t0, Do(s, CommitTx(id)))
    ensures Do(s, CommitTx(id)).table == s.table
  {
    hide TxOk, Sound, Serial, SerialAnswers, AllHold, Written, Classify;
  }

  lemma {:induction false} CommitKeepsInv(t0: Table, s: State, id: nat)
    requires Inv(t0, s) && Enabled(s, CommitTx(id))
    ensures Inv(t0, Do(s, CommitTx(id)))
  {
    hide TxOk, Sound, Alone, GoodWrites, Serial, SerialAnswers, AllHold, Written, Classify, AddAll, Evolves;
    var x := s.live[id];
    var ws := x.local.out.writes;
    if ws == [] || CommitOn(s.table, AddAll(Empty, ws)).0 != None {
      IdleCommitKeepsInv(t0, s, id);
    } else {
      var s' := Do(s, CommitTx(id));
      NonEmptyBuffer(ws);
      CommitIsAtomic(s.table, x);
      SerialSnoc(t0, s.history, Applied(x.req, x.env, x.local.out.resp), s'.table);
      WritesAreGood(s.table, x);
      CommitEvolves(s.table, ws);
      forall j | j in s'.live ensures TxOk(s'.table, s'.live[j]) {
        TxSurvives(s.table, s'.table, s.live[j]);
      }
    }
  }

  lemma {:induction false} WritesAreGood(t: Table, x: TxRec)
    requires TxOk(t, x) && x.local.Finished? && x.local.out.Done?
    ensures GoodWrites(x.local.out.writes)
  {
    StateAtOk(x.req, x.env, x.log, |x.log|);
  }

  lemma {:induction false} TxSurvives(t: Table, u: Table, x: TxRec)
    requires TxOk(t, x) && Evolves(t, u)
    ensures TxOk(u, x)
  {
    EvolvesKeepsLog(t, u, x.log);
  }

  lemma {:induction false} StepKeepsInv(t0: Table, s: State, a: Action)
    requires Inv(t0, s) && Enabled(s, a)
    ensures Inv(t0, Do(s, a))
  {
    hide Inv;
    match a
    case BeginTx(id, req, env) => BeginKeepsInv(t0, s, id, req, env);
    case ReadItem(id) => ReadKeepsInv(t0, s, id);
    case CommitTx(id) => CommitKeepsInv(t0, s, id);
    case RollbackTx(id) => RollbackKeepsInv(t0, s, id);
  }

  lemma {:induction false} RollbackKeepsInv(t0: Table, s: State, id: nat)
    requires Inv(t0, s) && Enabled(s, RollbackTx(id))
    ensures Inv(t0, Do(s, RollbackTx(id)))
  {
    hide TxOk, Sound, Serial, SerialAnswers;
  }

  // ------------------------------------------------------------------------------------------
  // Runs
  // ------------------------------------------------------------------------------------------

  function Initial(t0: Table): State {
    State(t0, map[], [])
  }

  /** The state after a run, or None when some action of it is not enabled. */
  function Run(t0: Table, actions: seq<Action>): Option<State> {
    if actions == [] then Some(Initial(t0))
    else
      var s := Run(t0, actions[..|actions| - 1]);
      var a := actions[|actions| - 1];
      if s.Some? && Enabled(s.value, a) then Some(Do(s.value, a)) else None
  }

  lemma {:induction false} RunKeepsInv(t0: Table, actions: seq<Action>)
    requires Sound(t0) && Run(t0, actions).Some?
    ensures Inv(t0, Run(t0, actions).value)
  {
    if actions != [] {
      RunKeepsInv(t0, actions[..|actions| - 1]);
      StepKeepsInv(t0, Run(t0, actions[..|actions| - 1]).value, actions[|actions| - 1]);
    }
  }

  /** Serializability. However the reads, commits and rollbacks of any number of handlers interleave,
      the final table is the one the committed handlers produce when run alone, one after the other, in
      commit order; and each of them would then have committed and answered exactly as it did. */
  lemma {:induction false} Serializable(t0: Table, actions: seq<Action>)
    requires Sound(t0) && Run(t0, actions).Some?
    ensures Run(t0, actions).value.table == Serial(t0, Run(t0, actions).value.history)
    ensures SerialAnswers(t0, Run(t0, actions).value.history)
  {
    RunKeepsInv(t0, actions);
  }
}
