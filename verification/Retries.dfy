/** Which error a failed commit answers, in both directions: a retryable one exactly when only rows that others
    have moved on stand in the way, the conflict exactly when a row it would create is there. */
module Retries {
  import opened Ledger
  import opened Keys
  import opened Items
  import opened Handlers
  import opened FlowFacts
  import opened Journals
  import opened Writes
  import opened Protocol
  import opened Serializability
  import opened Atomic
  import opened Effects
  import opened Limits
  import opened Acceptance
  import opened Conflicts

  /** A write to a row that is no longer at the version read, or to a balance found missing that now exists. */
  predicate Stale(t: Table, w: Write) {
    match w.cond
    case VersionEquals(v) => !(w.key in t && VersionOf(t[w.key]) == Some(v))
    case NotExists => w.key.BalK? && w.key in t
    case NoCond => false
  }

  /** A write that would create a row, not a balance, that exists. */
  predicate Taken(t: Table, w: Write) {
    w.cond == NotExists && !w.key.BalK? && w.key in t
  }

  ghost predicate SameConds(ws: seq<Write>) {
    && (forall w | w in ws :: w.cond != NoCond)
    && (forall v, w | v in ws && w in ws && v.key == w.key :: v.cond == w.cond)
  }

  /** The first write whose condition fails is the one whose error is answered. */
  lemma {:induction false} FirstFails(t: Table, ws: seq<Write>) returns (i: nat)
    requires SameConds(ws) && !AllHold(t, AddAll(Empty, ws))
    ensures i < |ws| && !CondHolds(t, ws[i].key, ws[i].cond)
    ensures forall j | 0 <= j < i :: CondHolds(t, ws[j].key, ws[j].cond)
    ensures var b := AddAll(Empty, ws); var n := FirstFailure(t, b, 0);
            n < |b.order| && b.order[n] == ws[i].key && b.puts[ws[i].key].cond == ws[i].cond
  {
    hide CondHolds, FirstFailure, AllHold, Add, AddAll;
    if ws == [] {
      NothingFails(t);
    } else {
      var n := |ws| - 1;
      var b0 := AddAll(Empty, ws[..n]);
      EmptyValid();
      AddAllValid(Empty, ws[..n]);
      AddAllLast(ws);
      if !AllHold(t, b0) {
        i := FirstFails(t, ws[..n]);
        AddKeepsFailure(t, b0, ws[n]);
      } else {
        i := n;
        forall j | 0 <= j < n ensures CondHolds(t, ws[j].key, ws[j].cond) {
          HoldsEach(t, ws[..n], j);
        }
        AddFails(t, b0, ws[n]);
      }
    }
  }

  lemma {:induction false} NothingFails(t: Table)
    ensures AllHold(t, AddAll(Empty, []))
  {
  }

  lemma {:induction false} AddAllLast(ws: seq<Write>)
    requires ws != []
    ensures AddAll(Empty, ws) == Add(AddAll(Empty, ws[..|ws| - 1]), ws[|ws| - 1])
  {
  }

  lemma {:induction false} HoldsEach(t: Table, ws: seq<Write>, j: nat)
    requires SameConds(ws) && j < |ws| && AllHold(t, AddAll(Empty, ws))
    ensures CondHolds(t, ws[j].key, ws[j].cond)
  {
    hide CondHolds, AddAll;
    WriteCond(ws, j);
  }

  /** One more write keeps the first failure. */
  lemma {:induction false} AddKeepsFailure(t: Table, b: Buffer, w: Write)
    requires b.Valid() && FirstFailure(t, b, 0) < |b.order|
    ensures var n := FirstFailure(t, b, 0); var c := Add(b, w);
            && FirstFailure(t, c, 0) == n && n < |c.order| && c.order[n] == b.order[n]
            && c.puts[c.order[n]].cond == b.puts[b.order[n]].cond
  {
    hide CondHolds, FirstFailure;
    FirstFailureAt(t, Add(b, w), FirstFailure(t, b, 0));
  }

  /** A write that brings the first failure is to a new key. */
  lemma {:induction false} AddFails(t: Table, b: Buffer, w: Write)
    requires b.Valid() && AllHold(t, b) && !AllHold(t, Add(b, w))
    ensures var n := |b.order|; var c := Add(b, w);
            && FirstFailure(t, c, 0) == n && n < |c.order| && c.order[n] == w.key && c.puts[w.key].cond == w.cond
            && !CondHolds(t, w.key, w.cond)
  {
    hide CondHolds, FirstFailure;
    var c := Add(b, w);
    assert w.key !in b.puts;
    FirstFailureAt(t, c, |b.order|);
  }

  /** Every write carries the condition the buffer keeps for its key. */
  lemma {:induction false} WriteCond(ws: seq<Write>, j: nat)
    requires SameConds(ws) && j < |ws|
    ensures ws[j].key in AddAll(Empty, ws).puts && AddAll(Empty, ws).puts[ws[j].key].cond == ws[j].cond
  {
    Witnesses(ws, ws[j].key);
    Coalesced(ws, ws[j].key);
  }

  /** The error the writes call for: retryable if a stale write comes before any taken one, the conflict if a
      taken one comes before any stale one, none if there is neither. */
  ghost predicate CallsFor(t: Table, ws: seq<Write>, err: Option<Code>) {
    && (err == Some(SerializationRetryExhausted) <==>
          exists i :: 0 <= i < |ws| && Stale(t, ws[i]) && forall j | 0 <= j < i :: !Taken(t, ws[j]))
    && (err == Some(FlowConflict) <==>
          exists i :: 0 <= i < |ws| && Taken(t, ws[i]) && forall j | 0 <= j < i :: !Stale(t, ws[j]))
    && (err == None <==> forall w | w in ws :: !Stale(t, w) && !Taken(t, w))
  }

  /** A commit of few enough items answers exactly that. */
  lemma {:induction false} CommitErrorIff(t: Table, ws: seq<Write>)
    requires SameConds(ws) && 0 < |AddAll(Empty, ws).puts| <= 100
    ensures CallsFor(t, ws, CommitOn(t, AddAll(Empty, ws)).0)
  {
    hide FirstFailure, Written, AddAll;
    if AllHold(t, AddAll(Empty, ws)) {
      forall i | 0 <= i < |ws| ensures !Stale(t, ws[i]) && !Taken(t, ws[i]) {
        WriteCond(ws, i);
      }
    } else {
      var i := FirstFails(t, ws);
      assert Stale(t, ws[i]) || Taken(t, ws[i]);
      assert forall j | 0 <= j < i :: !Stale(t, ws[j]) && !Taken(t, ws[j]);
    }
  }

  // ------------------------------------------------------------------------------------------
  // Runs
  // ------------------------------------------------------------------------------------------

  lemma {:induction false} GoodIsSame(ws: seq<Write>)
    requires GoodWrites(ws)
    ensures SameConds(ws)
  {
  }

  /** In every run a finished handler that commits gets that error, whatever the handler. */
  lemma {:induction false} LiveErrorIff(t0: Table, actions: seq<Action>, id: nat)
    requires Sound(t0) && Run(t0, actions).Some? && Enabled(Run(t0, actions).value, CommitTx(id))
    requires var s := Run(t0, actions).value; 0 < |AddAll(Empty, s.live[id].local.out.writes).puts| <= 100
    ensures var s := Run(t0, actions).value; var ws := s.live[id].local.out.writes;
            CallsFor(s.table, ws, CommitOn(s.table, AddAll(Empty, ws)).0)
  {
    hide Run, CommitOn, CallsFor, GoodWrites, SameConds, AddAll, Inv, Sound, TxOk;
    var s := Run(t0, actions).value;
    RunKeepsInv(t0, actions);
    LiveIsGood(t0, s, id);
    GoodIsSame(s.live[id].local.out.writes);
    CommitErrorIff(s.table, s.live[id].local.out.writes);
  }

  lemma {:induction false} LiveIsGood(t0: Table, s: State, id: nat)
    requires Inv(t0, s) && Enabled(s, CommitTx(id))
    ensures Sound(s.table) && TxOk(s.table, s.live[id]) && GoodWrites(s.live[id].local.out.writes)
  {
    hide Sound, Serial, SerialAnswers, TxOk, GoodWrites;
    WritesAreGood(s.table, s.live[id]);
  }

  /** No row that the writes would create, balances apart, exists. */
  ghost predicate NothingTaken(t: Table, ws: seq<Write>) {
    forall w | w in ws :: !Taken(t, w)
  }

  lemma {:induction false} VersionedKinds(r: Request, env: Env, t: Table)
    requires PostedBy(r, env, t).Some?
    ensures forall w | w in StepAll(r, env, t) :: w.cond == NotExists || w.key.BalK? || (Updates(r) && w.key.ResK?)
  {
    hide WayOf, FlowSpec, FlowHead, BalWrites, FlowWrites, ReservationToItem, RefsOf;
    var way := WayOf(r, t);
    PostedIs(env, way.raw, t);
    var fr := Parsed(way.raw);
    var loaded := LoadedAll(t, fr.tenant, RefsOf(fr));
    FlowSplit(env, fr, loaded, FIdempK("", ""));
    HeadIsNew(env, fr);
    BalWritesKinds(fr, loaded);
    TailCondKinds(r, env, way.row, FlowSpec(env, way.raw, t));
  }

  lemma {:induction false} BalWritesKinds(fr: FlowReq, loaded: seq<Loaded>)
    requires |loaded| == |RefsOf(fr)|
    ensures forall w | w in BalWrites(fr, loaded, |loaded|) :: w.key.BalK?
  {
    hide RefsOf, FinalDebits, FinalCredits;
  }

  lemma {:induction false} TailCondKinds(r: Request, env: Env, row: Option<HeldRow>, fres: FlowResult)
    requires !fres.FlowFail?
    ensures forall w | w in TailWrites(r, env, row, fres) :: w.cond == NotExists || (Updates(r) && w.key.ResK?)
  {
    hide ReservationToItem, Updated, UpdatedEvent, NewReservation;
  }

  /** A posting handler whose reads all agree with the table commits unless a row it would create exists. */
  lemma {:induction false} AgreeingHolds(r: Request, env: Env, t: Table)
    requires Sound(t) && DistinctIds(env) && PostedBy(r, env, t).Some? && NothingTaken(t, StepAll(r, env, t))
    ensures AllHold(t, AddAll(Empty, StepAll(r, env, t)))
  {
    hide DistinctIds, PostedBy, StepAll, FlowKeys, TailKeys, AllHold, AddAll, WayOf, FlowSpec;
    var ws := StepAll(r, env, t);
    AllHoldIff(r, env, t);
    VersionedKinds(r, env, t);
    StepKeysAre(r, env, t);
    var fr := PostedBy(r, env, t).value;
    forall k | k in KeySet(ws) && !k.BalK? && !(Updates(r) && k.ResK?) ensures k !in t {
      var w :| w in ws && w.key == k;
      assert w.cond == NotExists && !Taken(t, w);
    }
    KeysApart(r, env, t);
  }

  lemma {:induction false} KeysApart(r: Request, env: Env, t: Table)
    requires DistinctIds(env) && PostedBy(r, env, t).Some?
    ensures forall k | k in FlowKeys(env, PostedBy(r, env, t).value) :: !k.ResK?
    ensures WayOf(r, t).Flows? && !FlowSpec(env, WayOf(r, t).raw, t).FlowFail?
    ensures forall k | k in TailKeys(r, env, WayOf(r, t).row, FlowSpec(env, WayOf(r, t).raw, t)) :: !k.BalK?
  {
    hide FlowKeys, FlowSpec, WayOf, DistinctIds;
    var fr := PostedBy(r, env, t).value;
    forall k | k in FlowKeys(env, fr) ensures !k.ResK? {
      FlowKeyKinds(env, fr, StepBase(fr.steps, |fr.steps|), k);
    }
  }

  lemma {:induction false} StepKeysAre(r: Request, env: Env, t: Table)
    requires PostedBy(r, env, t).Some?
    ensures WayOf(r, t).Flows? && !FlowSpec(env, WayOf(r, t).raw, t).FlowFail?
    ensures KeySet(StepAll(r, env, t))
         == FlowKeys(env, PostedBy(r, env, t).value)
           + TailKeys(r, env, WayOf(r, t).row, FlowSpec(env, WayOf(r, t).raw, t))
  {
    hide WayOf, FlowSpec, FlowKeys, TailKeys, FlowWrites, TailWrites, RefsOf, KeySet;
    var way := WayOf(r, t);
    var fres := FlowSpec(env, way.raw, t);
    PostedIs(env, way.raw, t);
    var fr := Parsed(way.raw);
    var loaded := LoadedAll(t, fr.tenant, RefsOf(fr));
    if Updates(r) {
      WayRowIs(r, t);
    }
    FlowKeysAre(env, fr, loaded);
    TailKeysAre(r, env, way.row, fres);
    KeySetConcat(FlowWrites(env, fr, loaded), TailWrites(r, env, way.row, fres));
  }

  /** A handler whose reads agree with the table and whose writes open a flow posts it there. */
  lemma {:induction false} OpensIsPosted(r: Request, env: Env, t: Table, key: string, tenant: string)
    requires Outcome1(r, env, t).Done? && FIdempK(tenant, key) in KeySet(Outcome1(r, env, t).writes)
    ensures PostedBy(r, env, t).Some?
  {
    hide FlowSpec, TailWrites, After, FlowWrites;
    var way := WayOf(r, t);
    if way.Flows? {
      var fres := FlowSpec(env, way.raw, t);
      AfterIs(r, env, way.row, fres);
      TailKinds(r, env, way.row, fres);
    } else if r.CreateAccount? {
      AccountOpensNothing(r);
    } else {
      EndsEarly(r, t);
    }
  }

  /** The exact meaning of a retryable error: in every run, when a handler that posts a flow commits few enough
      items and no row it would create exists, it is told to retry if something it read has changed since, and
      commits otherwise. */
  lemma {:induction false} RetryIffMoved(t0: Table, actions: seq<Action>, id: nat)
    requires Sound(t0) && Run(t0, actions).Some? && AboutToPost(Run(t0, actions).value, id)
    requires var s := Run(t0, actions).value; var x := s.live[id];
             && DistinctIds(x.env) && |AddAll(Empty, x.local.out.writes).puts| <= 100
             && NothingTaken(s.table, x.local.out.writes)
    ensures var s := Run(t0, actions).value; var x := s.live[id];
            CommitOn(s.table, AddAll(Empty, x.local.out.writes)).0 ==
            if exists i :: 0 <= i < |x.log| && Lookup(s.table, x.log[i].0) != x.log[i].1
            then Some(SerializationRetryExhausted) else None
  {
    hide Run, CommitOn, Stale, Taken, GoodWrites, SameConds, AddAll, DistinctIds, TxOk, Sound, InnerKey, Inv;
    var s := Run(t0, actions).value;
    var x := s.live[id];
    var ws := x.local.out.writes;
    RunKeepsInv(t0, actions);
    AboutIs(t0, s, id);
    LiveIsGood(t0, s, id);
    GoodIsSame(ws);
    CommitErrorIff(s.table, ws);
    if Agrees(s.table, x.log) {
      AgreeingCommits(s.table, x, InnerKey(x.req));
    } else {
      var i := MovedFails(s.table, x);
      assert exists i :: 0 <= i < |ws| && Stale(s.table, ws[i]) && forall j | 0 <= j < i :: !Taken(s.table, ws[j]);
    }
  }

  lemma {:induction false} AboutIs(t0: Table, s: State, id: nat)
    requires Inv(t0, s) && AboutToPost(s, id)
    ensures var ws := s.live[id].local.out.writes;
            ws != [] && FIdempK(TenantOf(s.live[id].req), InnerKey(s.live[id].req)) in KeySet(ws)
            && |AddAll(Empty, ws).puts| > 0
  {
    hide Inv, InnerKey, AddAll;
    EmptyValid();
    AddAllValid(Empty, s.live[id].local.out.writes);
    var fr, rest := PostingShape(t0, s, id);
    NonEmptyBuffer(s.live[id].local.out.writes);
  }

  lemma {:induction false} AgreeingCommits(t: Table, x: TxRec, key: string)
    requires Sound(t) && TxOk(t, x) && Agrees(t, x.log) && DistinctIds(x.env)
    requires x.local.Finished? && x.local.out.Done? && NothingTaken(t, x.local.out.writes)
    requires FIdempK(TenantOf(x.req), key) in KeySet(x.local.out.writes)
    requires |AddAll(Empty, x.local.out.writes).puts| <= 100
    ensures CommitOn(t, AddAll(Empty, x.local.out.writes)).0 == None
  {
    hide Sound, TxOk, DistinctIds, Drive, Start, Outcome1, AddAll, AllHold, PostedBy, StepAll, NothingTaken, KeySet;
    AloneRuns(t, x);
    DriveAlone(x.req, x.env, t, (_: nat) => t, 0);
    OpensIsPosted(x.req, x.env, t, key, TenantOf(x.req));
    OutcomeIs(x.req, x.env, t);
    AgreeingHolds(x.req, x.env, t);
  }

  /** If some read no longer holds, some write is stale or taken. */
  lemma {:induction false} MovedFails(t: Table, x: TxRec) returns (i: nat)
    requires x.local.Finished? && x.local.out.Done? && x.local.out.writes != [] && SameConds(x.local.out.writes)
    requires Sound(t) && TxOk(t, x) && !Agrees(t, x.log)
    ensures var ws := x.local.out.writes; i < |ws| && (Stale(t, ws[i]) || Taken(t, ws[i]))
  {
    hide *;
    if AllHold(t, AddAll(Empty, x.local.out.writes)) {
      CommitAgrees(t, x);
    } else {
      i := SomeFails(t, x.local.out.writes);
    }
  }

  lemma {:induction false} SomeFails(t: Table, ws: seq<Write>) returns (i: nat)
    requires SameConds(ws) && !AllHold(t, AddAll(Empty, ws))
    ensures i < |ws| && (Stale(t, ws[i]) || Taken(t, ws[i]))
  {
    hide *;
    i := FirstFails(t, ws);
    FailsEither(t, ws, i);
  }

  lemma {:induction false} FailsEither(t: Table, ws: seq<Write>, i: nat)
    requires SameConds(ws) && i < |ws| && !CondHolds(t, ws[i].key, ws[i].cond)
    ensures ws[i] in ws && (Stale(t, ws[i]) || Taken(t, ws[i]))
  {
  }
}
