/** What the error of a failed commit tells the caller. */
module Conflicts {
  import opened Ledger
  import opened Keys
  import opened Items
  import opened Handlers
  import opened FlowFacts
  import opened Writes
  import opened Protocol
  import opened Serializability
  import opened Effects

  // ------------------------------------------------------------------------------------------
  // Buffers that begin with a flow's own rows
  // ------------------------------------------------------------------------------------------

  /** Everything a flow buffers before its balances is written as new and is not a balance. */
  lemma {:induction false} HeadIsNew(env: Env, fr: FlowReq)
    ensures forall w | w in FlowHead(env, fr) :: w.cond == NotExists && !w.key.BalK?
  {
    hide StepsWrites, RunOf, StepRows;
    StepsWritesKinds(env, fr, |fr.steps|);
    forall w | w in FlowHead(env, fr) ensures w.cond == NotExists && !w.key.BalK? {
      assert w in OpenWrites(env, fr) || w in StepsWrites(env, fr, |fr.steps|);
    }
  }

  /** The keys of a first part of the writes keep, in the whole buffer, the first places and their own
      first conditions. */
  lemma {:induction false} HeadFirst(head: seq<Write>, rest: seq<Write>)
    ensures AddAll(Empty, head).order <= AddAll(Empty, head + rest).order
    ensures AddAll(Empty, head + rest).Valid()
    ensures forall k | k in KeySet(head) :: k in AddAll(Empty, head).order && k in AddAll(Empty, head + rest).puts
  {
    hide AddAll;
    EmptyValid();
    AddAllValid(Empty, head);
    AddAllConcat(Empty, head, rest);
    AddAllValid(AddAll(Empty, head), rest);
  }

  lemma {:induction false} HeadCond(head: seq<Write>, rest: seq<Write>, k: Key)
    requires forall w | w in head :: w.cond == NotExists
    requires k in KeySet(head)
    ensures k in AddAll(Empty, head + rest).puts && AddAll(Empty, head + rest).puts[k].cond == NotExists
  {
    Coalesced(head + rest, k);
    FirstCondConcat(head, rest, k);
    Witnesses(head, k);
  }

  /** When some row of the flow's own already exists, the first failing condition is one of them, and
      the error is the conflict. */
  lemma {:induction false} HeadConflicts(t: Table, head: seq<Write>, rest: seq<Write>, k: Key)
    requires forall w | w in head :: w.cond == NotExists && !w.key.BalK?
    requires k in KeySet(head) && k in t
    ensures !AllHold(t, AddAll(Empty, head + rest))
    ensures Classify(t, AddAll(Empty, head + rest)) == FlowConflict
  {
    hide AddAll;
    var b, h := AddAll(Empty, head + rest), AddAll(Empty, head);
    HeadFirst(head, rest);
    HeadCond(head, rest, k);
    assert !CondHolds(t, k, b.puts[k].cond);
    var j :| 0 <= j < |h.order| && h.order[j] == k;
    assert b.order[j] == k;
    var i := FirstFailure(t, b, 0);
    assert i <= j;
    assert b.order[i] == h.order[i];
    EmptyValid();
    AddAllValid(Empty, head);
    assert h.order[i] in h.puts;
    var w :| w in head && w.key == h.order[i];
    HeadCond(head, rest, h.order[i]);
  }

  /** Commit's error says whether the flow's own rows were taken: a retryable error means that none of
      them existed. */
  lemma {:induction false} RetryMeansUnused(t: Table, head: seq<Write>, rest: seq<Write>)
    requires forall w | w in head :: w.cond == NotExists && !w.key.BalK?
    requires CommitOn(t, AddAll(Empty, head + rest)).0 == Some(SerializationRetryExhausted)
    ensures forall w | w in head :: w.key !in t
  {
    hide AddAll, AllHold, Classify, Written;
    forall w | w in head ensures w.key !in t {
      assert w.key in KeySet(head);
      if w.key in t {
        HeadConflicts(t, head, rest, w.key);
      }
    }
  }

  // ------------------------------------------------------------------------------------------
  // The flow of a handler in flight
  // ------------------------------------------------------------------------------------------

  /** The idempotency key of a handler's flow: the submitted one, or the inner flow's. */
  function InnerKey(r: Request): string {
    match r
    case CreateAccount(_, _, _, _, _, _, _) => ""
    case ExecuteFlow(raw) => raw.key
    case CreateReservation(_, key, _, _, _, _, _) => key + ":create"
    case CommitReservation(_, id, key, _, _) => id + ":commit:" + key
    case ReleaseReservation(_, id, key, _) => id + ":release:" + key
    case ExpireReservation(_, id) => id + ":expire"
  }

  /** The event ids of a handler's flow, in step order. */
  function InnerEvents(r: Request): seq<string> {
    match r
    case CreateAccount(_, _, _, _, _, _, _) => []
    case ExecuteFlow(raw) => seq(|raw.steps|, i requires 0 <= i < |raw.steps| => raw.steps[i].eventId)
    case CreateReservation(_, key, _, _, _, _, _) => [key + ":reserve"]
    case _ => [InnerKey(r)]
  }

  predicate InnerFlowOf(r: Request, fr: FlowReq) {
    && fr.tenant == TenantOf(r) && fr.key == InnerKey(r)
    && |fr.steps| == |InnerEvents(r)|
    && forall i | 0 <= i < |fr.steps| :: fr.steps[i].eventId == InnerEvents(r)[i]
  }

  /** Writes that open a flow, as any writes of a flow submission do, begin with all of that flow's own
      rows. */
  ghost predicate Begins(r: Request, env: Env, ws: seq<Write>) {
    FIdempK(TenantOf(r), InnerKey(r)) in KeySet(ws) || (r.ExecuteFlow? && ws != []) ==>
      exists fr, rest :: InnerFlowOf(r, fr) && ws == FlowHead(env, fr) + rest
  }

  /** Where a handler stands in its flow, it is the flow its request names. */
  ghost predicate Shaped(r: Request, env: Env, l: Local) {
    match l
    case InFlow(fr, _, _) => InnerFlowOf(r, fr)
    case WantDestination(row) => row.res.id == ReservationIdOf(r)
    case Finished(out) => out.Done? ==> Begins(r, env, out.writes)
    case _ => true
  }

  lemma {:induction false} ParsedInner(r: Request, raw: FlowReq)
    requires InnerFlowOf(r, raw)
    ensures InnerFlowOf(r, Parsed(raw))
  {
    hide InnerKey, InnerEvents;
  }

  lemma {:induction false} PostedBegins(r: Request, env: Env, fr: FlowReq, loaded: seq<Loaded>, tail: seq<Write>)
    requires InnerFlowOf(r, fr) && |loaded| == |RefsOf(fr)|
    ensures Begins(r, env, FlowWrites(env, fr, loaded) + tail)
  {
    hide InnerFlowOf, InnerKey, RefsOf, FlowHead, BalWrites, KeySet, FirstCond, LastItem;
    FlowSplit(env, fr, loaded, FIdempK("", ""));
    var middle := BalWrites(fr, loaded, |loaded|) + FlowLast(env, fr);
    assert FlowWrites(env, fr, loaded) + tail == FlowHead(env, fr) + (middle + tail);
  }

  lemma {:induction false} ReplayBegins(r: Request, env: Env, row: Option<HeldRow>, res: FlowResult)
    requires res.FlowReplay?
    ensures Begins(r, env, TailWrites(r, env, row, res))
  {
    hide InnerKey, TailWrites, TailKind;
    TailKinds(r, env, row, res);
    OpensNothing(TailWrites(r, env, row, res), FIdempK(TenantOf(r), InnerKey(r)));
    SubmissionTail(r, env, row, res);
  }

  lemma {:induction false} OpensNothing(ws: seq<Write>, k: Key)
    requires k.FIdempK? && forall w | w in ws :: TailKind(w.key)
    ensures k !in KeySet(ws)
  {
  }

  lemma {:induction false} SubmissionTail(r: Request, env: Env, row: Option<HeldRow>, res: FlowResult)
    requires !res.FlowFail?
    ensures r.ExecuteFlow? ==> TailWrites(r, env, row, res) == []
  {
  }

  /** A posted flow opens; a replayed one leaves only rows of the reservation. */
  lemma {:induction false} AfterBegins(r: Request, env: Env, fr: FlowReq, row: Option<HeldRow>, res: FlowResult)
    requires InnerFlowOf(r, fr) && After(r, env, row, res).Done?
    requires res.FlowPosted? ==>
               exists loaded :: |loaded| == |RefsOf(fr)| && res.writes == FlowWrites(env, fr, loaded)
    ensures Begins(r, env, After(r, env, row, res).writes)
  {
    hide InnerFlowOf, RefsOf, FlowWrites, After, TailWrites, Begins;
    AfterIs(r, env, row, res);
    var tail := TailWrites(r, env, row, res);
    if res.FlowPosted? {
      var loaded :| |loaded| == |RefsOf(fr)| && res.writes == FlowWrites(env, fr, loaded);
      PostedBegins(r, env, fr, loaded, tail);
    } else {
      ReplayBegins(r, env, row, res);
      assert [] + tail == tail;
    }
  }

  lemma {:induction false} EndShaped(r: Request, env: Env, fr: FlowReq, row: Option<HeldRow>, res: FlowResult)
    requires InnerFlowOf(r, fr)
    requires res.FlowPosted? ==>
               exists loaded :: |loaded| == |RefsOf(fr)| && res.writes == FlowWrites(env, fr, loaded)
    ensures Shaped(r, env, Lift(r, env, fr, row, FlowEnd(res)))
  {
    hide InnerFlowOf, RefsOf, FlowWrites, After, Begins;
    if After(r, env, row, res).Done? {
      AfterBegins(r, env, fr, row, res);
    }
  }

  lemma {:induction false} LoadingShaped(r: Request, env: Env, fr: FlowReq, row: Option<HeldRow>, loaded: seq<Loaded>)
    requires InnerFlowOf(r, fr) && |loaded| <= |RefsOf(fr)|
    ensures Shaped(r, env, Lift(r, env, fr, row, Loading(env, fr, loaded)))
  {
    hide InnerFlowOf, RefsOf, FlowWrites, RunOf, StepRows, StepBase, StepOk, Overdrawn, After, Begins;
    if |loaded| == |RefsOf(fr)| {
      EndShaped(r, env, fr, row, Post(env, fr, loaded));
    }
  }

  lemma {:induction false} FlowFeedShaped(r: Request, env: Env, fr: FlowReq, row: Option<HeldRow>, fl: FlowLocal,
      v: Option<Item>)
    requires FlowWf(fr, fl) && !fl.FlowEnd? && InnerFlowOf(r, fr)
    ensures Shaped(r, env, Lift(r, env, fr, row, FlowFeed(env, fr, fl, v)))
  {
    hide InnerFlowOf, RefsOf, Post, Loading, After, Begins;
    match fl
    case WantMarker => LoadingShaped(r, env, fr, row, []);
    case WantFlow(_) =>
      LoadingShaped(r, env, fr, row, []);
      EndShaped(r, env, fr, row, FlowFail(FlowConflict));
    case WantSteps(run) => EndShaped(r, env, fr, row, FlowFeed(env, fr, fl, v).res);
    case WantAccount(_) =>
      EndShaped(r, env, fr, row, FlowFail(AccountNotFound));
      EndShaped(r, env, fr, row, FlowFail(InvalidAccountStatus));
      EndShaped(r, env, fr, row, FlowFail(AccountCurrencyMismatch));
    case WantBalance(loaded, a) =>
      var (d, c, ver) := BalanceRead(v);
      if ver != 0 || d != 0 || c != 0 {
        LoadingShaped(r, env, fr, row, loaded + [Loaded(a, d, c, ver, true)]);
      }
    case WantProbe(loaded, a) => LoadingShaped(r, env, fr, row, loaded + [Loaded(a, 0, 0, 0, v.Some?)]);
  }

  lemma {:induction false} BeginShaped(r: Request, env: Env, raw: FlowReq, row: Option<HeldRow>)
    requires InnerFlowOf(r, raw)
    ensures Shaped(r, env, BeginFlow(r, env, raw, row))
  {
    hide InnerFlowOf, After, AmountsOk, ParseSteps, Begins;
    ParsedInner(r, raw);
    EndShaped(r, env, Parsed(raw), row, FlowFail(UnbalancedJournal));
  }

  lemma {:induction false} StartShaped(r: Request, env: Env)
    ensures Shaped(r, env, Start(r, env))
  {
    hide BeginFlow;
    if r.ExecuteFlow? {
      BeginShaped(r, env, r.flow, None);
    } else if r.CreateAccount? {
      AccountOpensNothing(r);
    }
  }

  lemma {:induction false} AccountOpensNothing(r: Request)
    requires r.CreateAccount?
    ensures forall k | k in KeySet(AccountWrites(NewAccount(r))) :: !k.FIdempK?
  {
  }

  lemma {:induction false} RowShaped(r: Request, env: Env, row: HeldRow)
    requires row.res.id == ReservationIdOf(r)
    ensures Shaped(r, env, OnReservation(r, env, row))
  {
    hide BeginFlow, Closed;
    if r.ReleaseReservation? {
      BeginShaped(r, env, ReleaseFlow(r, row.res), Some(row));
    } else if r.ExpireReservation? {
      BeginShaped(r, env, ExpireFlow(r, row.res), Some(row));
    }
  }

  lemma {:induction false} FeedShaped(r: Request, env: Env, l: Local, v: Option<Item>)
    requires Wf(l) && !l.Finished? && Shaped(r, env, l)
    requires v.Some? ==> Typed(Want(r, l), v.value)
    ensures Shaped(r, env, Feed(r, env, l, v))
  {
    hide InnerFlowOf, BeginFlow, FlowFeed, OnReservation, FlowWant, FlowWf, Lift;
    match l
    case InFlow(fr, row, fl) => FlowFeedShaped(r, env, fr, row, fl, v);
    case WantReservationMarker =>
      if r.CreateReservation? {
        CreateInner(r);
        BeginShaped(r, env, CreateFlow(r), None);
      }
    case WantReplayed(_) =>
    case WantReservation =>
      if v.Some? && v.value.ResItem? {
        RowShaped(r, env, HeldRow(v.value.reservation, v.value.resVersion));
      }
    case WantDestination(row) =>
      if v.Some? && v.value.AccItem? && r.CommitReservation? {
        CommitInner(r, row.res, v.value.account.id);
        BeginShaped(r, env, CommitFlow(r, row.res, v.value.account.id), Some(row));
      }
  }

  lemma {:induction false} CreateInner(r: Request)
    requires r.CreateReservation?
    ensures InnerFlowOf(r, CreateFlow(r))
  {
  }

  lemma {:induction false} CommitInner(r: Request, res: Reservation, destination: string)
    requires r.CommitReservation? && res.id == r.reservation
    ensures InnerFlowOf(r, CommitFlow(r, res, destination))
  {
  }

  lemma {:induction false} StateAtShaped(r: Request, env: Env, log: seq<Answer>, n: nat)
    requires n <= |log| && Plays(r, env, log) && TypedLog(log)
    ensures Shaped(r, env, StateAt(r, env, log, n))
  {
    hide Start, Feed, Shaped, Want, Typed;
    if n == 0 {
      StartShaped(r, env);
    } else {
      StateAtShaped(r, env, log, n - 1);
      if !StateAt(r, env, log, n - 1).Finished? {
        FeedShaped(r, env, StateAt(r, env, log, n - 1), log[n - 1].1);
      }
    }
  }

  // ------------------------------------------------------------------------------------------
  // Runs
  // ------------------------------------------------------------------------------------------

  /** A handler about to commit in state `s` whose transaction opened a flow: it has buffered the marker
      of its flow's key. */
  ghost predicate AboutToPost(s: State, id: nat) {
    && Enabled(s, CommitTx(id))
    && FIdempK(TenantOf(s.live[id].req), InnerKey(s.live[id].req)) in AddAll(Empty, s.live[id].local.out.writes).puts
  }

  lemma {:induction false} PostingShape(t0: Table, s: State, id: nat) returns (fr: FlowReq, rest: seq<Write>)
    requires Inv(t0, s) && AboutToPost(s, id)
    ensures InnerFlowOf(s.live[id].req, fr)
    ensures s.live[id].local.out.writes == FlowHead(s.live[id].env, fr) + rest && s.live[id].local.out.writes != []
  {
    hide Start, Feed, Want, StateAt, InnerFlowOf, InnerKey, FlowHead, Sound, Serial, SerialAnswers, AddAll;
    var x := s.live[id];
    var ws := x.local.out.writes;
    EmptyValid();
    AddAllValid(Empty, ws);
    StateAtShaped(x.req, x.env, x.log, |x.log|);
    fr, rest :| InnerFlowOf(x.req, fr) && ws == FlowHead(x.env, fr) + rest;
    assert exists w :: w in ws && w.key == FIdempK(TenantOf(x.req), InnerKey(x.req));
  }

  lemma {:induction false} HeadKeys(env: Env, fr: FlowReq)
    ensures FIdempK(fr.tenant, fr.key) in KeySet(FlowHead(env, fr))
    ensures forall i | 0 <= i < |fr.steps| :: EvtK(fr.steps[i].eventId) in KeySet(FlowHead(env, fr))
  {
    hide StepWrites, RunOf, StepRows;
    assert OpenWrites(env, fr)[1] in FlowHead(env, fr);
    forall i | 0 <= i < |fr.steps| ensures EvtK(fr.steps[i].eventId) in KeySet(FlowHead(env, fr)) {
      EventInSteps(env, fr, |fr.steps|, i);
      assert EventMarker(env, fr, i) in FlowHead(env, fr);
    }
  }

  lemma {:induction false} EventInStep(env: Env, fr: FlowReq, i: nat)
    requires i < |fr.steps|
    ensures EventMarker(env, fr, i) in StepWrites(env, fr, i)
  {
    hide FlowWrite, JournalWrite, EntryWrites, EventOf, JournalId, EventMarker, OutboxWrite;
    assert StepWrites(env, fr, i)[1] == EventMarker(env, fr, i);
  }

  lemma {:induction false} EventInSteps(env: Env, fr: FlowReq, n: nat, i: nat)
    requires i < n <= |fr.steps|
    ensures EventMarker(env, fr, i) in StepsWrites(env, fr, n)
  {
    hide StepWrites, EventMarker;
    if i == n - 1 {
      EventInStep(env, fr, i);
    } else {
      EventInSteps(env, fr, n - 1, i);
    }
  }

  /** The flow's key, or one of its event ids, is in use. */
  ghost predicate Used(t: Table, r: Request) {
    FIdempK(TenantOf(r), InnerKey(r)) in t || exists i :: 0 <= i < |InnerEvents(r)| && EvtK(InnerEvents(r)[i]) in t
  }

  /** Whatever the handler: the loser of two flows racing with one key, and any flow that reuses a posted
      event id, is told FLOW_CONFLICT (or that it is too large), never to retry. */
  lemma {:induction false} LoserConflicts(t0: Table, actions: seq<Action>, id: nat)
    requires Sound(t0) && Run(t0, actions).Some? && AboutToPost(Run(t0, actions).value, id)
    requires var s := Run(t0, actions).value; Used(s.table, s.live[id].req)
    ensures var s := Run(t0, actions).value;
            var err := CommitOn(s.table, AddAll(Empty, s.live[id].local.out.writes)).0;
            err == Some(FlowConflict) || err == Some(FlowTooLarge)
  {
    hide Inv, FlowHead, AllHold, Classify, Written, AddAll, InnerKey, InnerEvents;
    var s := Run(t0, actions).value;
    var r, env := s.live[id].req, s.live[id].env;
    RunKeepsInv(t0, actions);
    var fr, rest := PostingShape(t0, s, id);
    HeadIsNew(env, fr);
    HeadKeys(env, fr);
    NonEmptyBuffer(s.live[id].local.out.writes);
    if FIdempK(TenantOf(r), InnerKey(r)) in s.table {
      HeadConflicts(s.table, FlowHead(env, fr), rest, FIdempK(fr.tenant, fr.key));
    } else {
      var i :| 0 <= i < |InnerEvents(r)| && EvtK(InnerEvents(r)[i]) in s.table;
      assert fr.steps[i].eventId == InnerEvents(r)[i];
      HeadConflicts(s.table, FlowHead(env, fr), rest, EvtK(fr.steps[i].eventId));
    }
  }

  /** Whatever the handler: a retryable error at commit means that its flow's key and all its event ids
      were unused at that moment, so only balances or the reservation had moved. */
  lemma {:induction false} RetryIsSafe(t0: Table, actions: seq<Action>, id: nat)
    requires Sound(t0) && Run(t0, actions).Some? && AboutToPost(Run(t0, actions).value, id)
    requires var s := Run(t0, actions).value;
             CommitOn(s.table, AddAll(Empty, s.live[id].local.out.writes)).0 == Some(SerializationRetryExhausted)
    ensures var s := Run(t0, actions).value; !Used(s.table, s.live[id].req)
  {
    hide CommitOn, AddAll, Used;
    var s := Run(t0, actions).value;
    if Used(s.table, s.live[id].req) {
      LoserConflicts(t0, actions, id);
    }
  }

  /** A flow submission that commits anything is such a handler. */
  lemma {:induction false} SubmissionOpens(t0: Table, s: State, id: nat)
    requires Inv(t0, s) && Enabled(s, CommitTx(id))
    requires s.live[id].req.ExecuteFlow? && s.live[id].local.out.writes != []
    ensures AboutToPost(s, id)
  {
    hide Start, Feed, Want, StateAt, InnerKey, FlowHead, Sound, Serial, SerialAnswers, AddAll, KeySet;
    var x := s.live[id];
    var ws := x.local.out.writes;
    StateAtShaped(x.req, x.env, x.log, |x.log|);
    var fr, rest :| InnerFlowOf(x.req, fr) && ws == FlowHead(x.env, fr) + rest;
    HeadKeys(x.env, fr);
    HeadFirst(FlowHead(x.env, fr), rest);
  }
}
