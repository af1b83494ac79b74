/** The outbox (internal/outbox/dispatcher.go) beside the interleaved handlers: commits add event rows,
    dispatcher ticks publish pending ones and then mark them, and either can fail. */
module Outbox {
  import opened Ledger
  import opened Keys
  import opened Items
  import opened Handlers
  import opened Writes
  import opened Protocol
  import opened Serializability
  import opened Atomic
  import opened Journals
  import opened Effects
  import opened Reachable
  import opened Limits
  import opened Replay

  // ------------------------------------------------------------------------------------------
  // The dispatcher
  // ------------------------------------------------------------------------------------------

  /** How publishing one event, then marking it (or counting the failed attempt), goes. */
  datatype Try = Try(published: bool, recorded: bool)

  /** `sent` holds the ids marked PUBLISHED, `sink` what the sink accepted, in order. */
  datatype Progress = Progress(sent: set<string>, attempts: map<string, nat>, sink: seq<Event>)

  function Deliver(p: Progress, e: Event, t: Try): Progress {
    if t.published then p.(sink := p.sink + [e], sent := if t.recorded then p.sent + {e.id} else p.sent)
    else if t.recorded then p.(attempts := p.attempts[e.id := (if e.id in p.attempts then p.attempts[e.id] else 0) + 1])
    else p
  }

  function DeliverAll(p: Progress, batch: seq<Event>, tries: seq<Try>): Progress
    requires |batch| == |tries|
  {
    if batch == [] then p
    else
      var n := |batch| - 1;
      Deliver(DeliverAll(p, batch[..n], tries[..n]), batch[n], tries[n])
  }

  class Dispatcher {
    var sent: set<string>
    var attempts: map<string, nat>
    var sink: seq<Event>

    constructor ()
      ensures Now() == Progress({}, map[], [])
    {
      sent, attempts, sink := {}, map[], [];
    }

    function Now(): Progress
      reads this
    {
      Progress(sent, attempts, sink)
    }

    /** PendingOutbox: the oldest unmarked rows, up to the limit. */
    method PendingOutbox(rows: seq<Event>, limit: nat) returns (batch: seq<Event>)
      ensures batch == FirstPending(rows, sent, limit)
    {
      batch := [];
      for i := 0 to |rows|
        invariant batch == FirstPending(rows[..i], sent, limit)
      {
        assert rows[..i + 1][..i] == rows[..i];
        if |batch| < limit && rows[i].id !in sent {
          batch := batch + [rows[i]];
        }
      }
      assert rows[..|rows|] == rows;
    }

    /** tick: fetch a batch, publish each of its events and mark it. A failed fetch ends the tick; a failed
        publish or mark only affects its event. */
    method Tick(rows: seq<Event>, limit: nat, fetched: bool, outcome: nat -> Try)
      modifies this
      ensures Now() ==
              if !fetched then old(Now())
              else
                var batch := FirstPending(rows, old(sent), limit);
                DeliverAll(old(Now()), batch, Tries(outcome, |batch|))
    {
      if !fetched {
        return;
      }
      var batch := PendingOutbox(rows, limit);
      ghost var tries := Tries(outcome, |batch|);
      for i := 0 to |batch|
        invariant Now() == DeliverAll(old(Now()), batch[..i], tries[..i])
      {
        var e := batch[i];
        assert batch[..i + 1][..i] == batch[..i] && tries[..i + 1][..i] == tries[..i];
        var t := outcome(i);
        if !t.published {
          if t.recorded {
            attempts := attempts[e.id := (if e.id in attempts then attempts[e.id] else 0) + 1];
          }
          continue;
        }
        sink := sink + [e];
        if t.recorded {
          sent := sent + {e.id};
        }
      }
      assert batch[..|batch|] == batch && tries[..|tries|] == tries;
    }
  }

  function Tries(outcome: nat -> Try, n: nat): (tries: seq<Try>)
    ensures |tries| == n
  {
    seq(n, i requires 0 <= i < n => outcome(i))
  }

  function FirstPending(rows: seq<Event>, sent: set<string>, limit: nat): seq<Event> {
    if rows == [] then []
    else
      var before := FirstPending(rows[..|rows| - 1], sent, limit);
      var e := rows[|rows| - 1];
      if |before| < limit && e.id !in sent then before + [e] else before
  }

  /** The batch holds unmarked rows only, each once, and all of them unless the limit cuts it. */
  lemma {:induction false} FirstPendingIs(rows: seq<Event>, sent: set<string>, limit: nat)
    requires forall i, j | 0 <= i < j < |rows| :: rows[i].id != rows[j].id
    ensures var batch := FirstPending(rows, sent, limit);
            && |batch| <= limit
            && (forall e | e in batch :: e in rows && e.id !in sent)
            && (forall i, j | 0 <= i < j < |batch| :: batch[i].id != batch[j].id)
            && (|batch| < limit ==> forall e | e in rows && e.id !in sent :: e in batch)
  {
    if rows != [] {
      var n := |rows| - 1;
      FirstPendingIs(rows[..n], sent, limit);
      assert rows == rows[..n] + [rows[n]];
    }
  }

  // ------------------------------------------------------------------------------------------
  // What a tick leaves behind
  // ------------------------------------------------------------------------------------------

  /** The events of a batch whose publish succeeded, in batch order. */
  function Published(batch: seq<Event>, tries: seq<Try>): seq<Event>
    requires |batch| == |tries|
  {
    if batch == [] then []
    else
      var n := |batch| - 1;
      Published(batch[..n], tries[..n]) + if tries[n].published then [batch[n]] else []
  }

  function AttemptsOf(p: Progress, id: string): nat {
    if id in p.attempts then p.attempts[id] else 0
  }

  /** Event `id` of the batch was tried with this outcome. */
  ghost predicate Tried(batch: seq<Event>, tries: seq<Try>, id: string, t: Try)
    requires |batch| == |tries|
  {
    exists i :: 0 <= i < |batch| && batch[i].id == id && tries[i] == t
  }

  lemma {:induction false} TriedNext(batch: seq<Event>, tries: seq<Try>, id: string, t: Try)
    requires |batch| == |tries| > 0
    ensures var n := |batch| - 1;
            Tried(batch, tries, id, t) <==> Tried(batch[..n], tries[..n], id, t) || (batch[n].id == id && tries[n] == t)
  {
    var n := |batch| - 1;
    if Tried(batch[..n], tries[..n], id, t) {
      var i :| 0 <= i < n && batch[..n][i].id == id && tries[..n][i] == t;
      assert batch[i].id == id && tries[i] == t;
    }
    if Tried(batch, tries, id, t) {
      var i :| 0 <= i < |batch| && batch[i].id == id && tries[i] == t;
      assert i < n ==> batch[..n][i].id == id && tries[..n][i] == t;
    }
  }

  /** After delivering a batch the sink has grown by exactly the published events in batch order; an id is marked
      exactly if it was before or its event was published and the mark recorded; and the attempts of an event
      rise by one exactly if its publish failed and that was recorded. */
  lemma {:induction false} DeliveredIs(p: Progress, batch: seq<Event>, tries: seq<Try>, id: string)
    requires |batch| == |tries| && forall i, j | 0 <= i < j < |batch| :: batch[i].id != batch[j].id
    ensures var q := DeliverAll(p, batch, tries);
            && q.sink == p.sink + Published(batch, tries)
            && (id in q.sent <==> id in p.sent || Tried(batch, tries, id, Try(true, true)))
            && AttemptsOf(q, id) == AttemptsOf(p, id) + if Tried(batch, tries, id, Try(false, true)) then 1 else 0
  {
    hide Tried;
    if batch != [] {
      var n := |batch| - 1;
      DeliveredIs(p, batch[..n], tries[..n], id);
      TriedNext(batch, tries, id, Try(true, true));
      TriedNext(batch, tries, id, Try(false, true));
      if batch[n].id == id {
        NotTriedBefore(batch, tries, n, Try(false, true));
      }
    } else {
      NoneTried(id, Try(true, true));
      NoneTried(id, Try(false, true));
    }
  }

  lemma {:induction false} NoneTried(id: string, t: Try)
    ensures !Tried([], [], id, t)
  {
  }

  lemma {:induction false} NotTriedBefore(batch: seq<Event>, tries: seq<Try>, n: nat, t: Try)
    requires |batch| == |tries| && n < |batch| && forall i, j | 0 <= i < j < |batch| :: batch[i].id != batch[j].id
    ensures !Tried(batch[..n], tries[..n], batch[n].id, t)
  {
  }

  /** The rows not marked yet, in row order. */
  function Unsent(rows: seq<Event>, sent: set<string>): seq<Event> {
    if rows == [] then []
    else
      var e := rows[|rows| - 1];
      Unsent(rows[..|rows| - 1], sent) + if e.id in sent then [] else [e]
  }

  function First(rows: seq<Event>, n: nat): seq<Event> {
    if |rows| <= n then rows else rows[..n]
  }

  function Ids(rows: seq<Event>): set<string> {
    set e | e in rows :: e.id
  }

  /** A batch is the first `limit` of them. */
  lemma {:induction false} BatchIsFirst(rows: seq<Event>, sent: set<string>, limit: nat)
    ensures FirstPending(rows, sent, limit) == First(Unsent(rows, sent), limit)
  {
    if rows != [] {
      BatchIsFirst(rows[..|rows| - 1], sent, limit);
    }
  }

  lemma {:induction false} UnsentIs(rows: seq<Event>, sent: set<string>)
    ensures forall e :: e in Unsent(rows, sent) <==> e in rows && e.id !in sent
  {
    if rows != [] {
      var n := |rows| - 1;
      UnsentIs(rows[..n], sent);
      assert rows == rows[..n] + [rows[n]];
    }
  }

  /** Marking a first part of them leaves the rest. */
  lemma {:induction false} UnsentAfter(rows: seq<Event>, sent: set<string>, k: nat)
    requires k <= |Unsent(rows, sent)| && forall i, j | 0 <= i < j < |rows| :: rows[i].id != rows[j].id
    ensures Unsent(rows, sent + Ids(Unsent(rows, sent)[..k])) == Unsent(rows, sent)[k..]
  {
    hide Unsent;
    if rows != [] {
      var n := |rows| - 1;
      var e, before, all := rows[n], Unsent(rows[..n], sent), Unsent(rows, sent);
      UnsentSnoc(rows, sent);
      UnsentIs(rows[..n], sent);
      if k <= |before| {
        UnsentAfter(rows[..n], sent, k);
        assert all[..k] == before[..k];
        var marked := sent + Ids(before[..k]);
        UnsentSnoc(rows, marked);
        assert e.id !in Ids(before[..k]);
        assert all[k..] == before[k..] + if e.id in sent then [] else [e];
      } else {
        UnsentAfter(rows[..n], sent, k - 1);
        assert before[..k - 1] == before && all[..k] == before + [e];
        assert Ids(before + [e]) == Ids(before) + {e.id};
        UnsentIgnores(rows[..n], sent + Ids(before), e.id);
        assert sent + Ids(all[..k]) == sent + Ids(before) + {e.id};
        UnsentSnoc(rows, sent + Ids(all[..k]));
      }
    } else {
      UnsentNone(sent);
      UnsentNone(sent + Ids(Unsent(rows, sent)[..k]));
    }
  }

  lemma {:induction false} UnsentNone(sent: set<string>)
    ensures Unsent([], sent) == []
  {
  }

  lemma {:induction false} UnsentSnoc(rows: seq<Event>, sent: set<string>)
    requires rows != []
    ensures var e := rows[|rows| - 1];
            Unsent(rows, sent) == Unsent(rows[..|rows| - 1], sent) + if e.id in sent then [] else [e]
  {
  }

  lemma {:induction false} UnsentIgnores(rows: seq<Event>, sent: set<string>, id: string)
    requires forall e | e in rows :: e.id != id
    ensures Unsent(rows, sent + {id}) == Unsent(rows, sent)
  {
    if rows != [] {
      assert rows[|rows| - 1] in rows;
      UnsentIgnores(rows[..|rows| - 1], sent, id);
    }
  }

  /** Ticks in which every publish and every mark succeeds. */
  function SmoothTicks(p: Progress, rows: seq<Event>, limit: nat, n: nat): Progress {
    if n == 0 then p
    else
      var q := SmoothTicks(p, rows, limit, n - 1);
      var batch := FirstPending(rows, q.sent, limit);
      DeliverAll(q, batch, Tries(_ => Try(true, true), |batch|))
  }

  lemma {:induction false} AllPublished(batch: seq<Event>, tries: seq<Try>)
    requires |batch| == |tries| && forall t | t in tries :: t.published
    ensures Published(batch, tries) == batch
  {
    if batch != [] {
      var n := |batch| - 1;
      AllPublished(batch[..n], tries[..n]);
      assert tries[n] in tries;
    }
  }

  /** One such tick moves its batch from the pending rows to the end of the sink. */
  lemma {:induction false} SmoothTickIs(p: Progress, rows: seq<Event>, limit: nat)
    requires forall i, j | 0 <= i < j < |rows| :: rows[i].id != rows[j].id
    ensures var batch := FirstPending(rows, p.sent, limit);
            var q := DeliverAll(p, batch, Tries(_ => Try(true, true), |batch|));
            && q.sink == p.sink + First(Unsent(rows, p.sent), limit)
            && Unsent(rows, q.sent) == Unsent(rows, p.sent)[|First(Unsent(rows, p.sent), limit)|..]
  {
    hide FirstPending, Unsent, Published, DeliverAll, Ids, Tried;
    var batch := FirstPending(rows, p.sent, limit);
    var tries := Tries(_ => Try(true, true), |batch|);
    var q := DeliverAll(p, batch, tries);
    BatchIsFirst(rows, p.sent, limit);
    FirstPendingIs(rows, p.sent, limit);
    AllPublished(batch, tries);
    DeliveredIs(p, batch, tries, "");
    forall id ensures id in q.sent <==> id in p.sent + Ids(batch) {
      DeliveredIs(p, batch, tries, id);
      TriedAll(batch, tries, id);
    }
    assert q.sent == p.sent + Ids(batch);
    var all := Unsent(rows, p.sent);
    assert all[..|batch|] == batch;
    UnsentAfter(rows, p.sent, |batch|);
  }

  lemma {:induction false} TriedAll(batch: seq<Event>, tries: seq<Try>, id: string)
    requires |batch| == |tries| && forall t | t in tries :: t == Try(true, true)
    ensures Tried(batch, tries, id, Try(true, true)) <==> id in Ids(batch)
  {
    if id in Ids(batch) {
      var e :| e in batch && e.id == id;
      var i :| 0 <= i < |batch| && batch[i] == e;
      assert tries[i] in tries;
    }
  }

  /** Enough of them drain the pending rows: all of them are marked, and the sink has each exactly once, in row
      order. */
  lemma {:induction false} SmoothTicksDrain(p: Progress, rows: seq<Event>, limit: nat, n: nat)
    requires forall i, j | 0 <= i < j < |rows| :: rows[i].id != rows[j].id
    ensures var q := SmoothTicks(p, rows, limit, n); var all := Unsent(rows, p.sent);
            && q.sink == p.sink + First(all, n * limit)
            && Unsent(rows, q.sent) == all[|First(all, n * limit)|..]
            && (n * limit >= |all| ==> q.sink == p.sink + all && forall e | e in rows :: e.id in q.sent)
  {
    hide FirstPending, Unsent, DeliverAll;
    var all := Unsent(rows, p.sent);
    var q := SmoothTicks(p, rows, limit, n);
    if n > 0 {
      var before := SmoothTicks(p, rows, limit, n - 1);
      SmoothTicksDrain(p, rows, limit, n - 1);
      SmoothTickIs(before, rows, limit);
      var done := First(all, (n - 1) * limit);
      assert n * limit == (n - 1) * limit + limit;
      assert First(all, n * limit) == done + First(all[|done|..], limit);
    } else {
      assert First(all, 0) == [];
    }
    UnsentIs(rows, q.sent);
  }

  // ------------------------------------------------------------------------------------------
  // Handlers and dispatcher
  // ------------------------------------------------------------------------------------------

  /** What a tick fetches is what the dispatcher may deliver. */
  lemma {:induction false} TickIsMove(w: Whole, rows: seq<Event>, limit: nat, outcome: nat -> Try)
    requires forall i, j | 0 <= i < j < |rows| :: rows[i].id != rows[j].id
    requires forall e | e in rows :: Lookup(w.state.table, ObxK(e.id)) == Some(ObxItem(e))
    ensures var batch := FirstPending(rows, w.progress.sent, limit);
            CanMove(w, Dispatch(batch, Tries(outcome, |batch|)))
  {
    FirstPendingIs(rows, w.progress.sent, limit);
  }

  // ------------------------------------------------------------------------------------------
  // Handlers and dispatcher together
  // ------------------------------------------------------------------------------------------

  datatype Whole = Whole(state: State, progress: Progress)

  datatype Move = Handle(a: Action) | Dispatch(batch: seq<Event>, tries: seq<Try>)

  /** An event row that has not been marked. */
  predicate Pending(w: Whole, e: Event) {
    Lookup(w.state.table, ObxK(e.id)) == Some(ObxItem(e)) && e.id !in w.progress.sent
  }

  /** The dispatcher only ever sees pending rows, each once per tick. */
  ghost predicate CanMove(w: Whole, m: Move) {
    match m
    case Handle(a) => Enabled(w.state, a)
    case Dispatch(batch, tries) =>
      && |batch| == |tries|
      && (forall e | e in batch :: Pending(w, e))
      && forall i, j | 0 <= i < j < |batch| :: batch[i].id != batch[j].id
  }

  function DoMove(w: Whole, m: Move): Whole
    requires m.Handle? ==> Enabled(w.state, m.a)
    requires m.Dispatch? ==> |m.batch| == |m.tries|
  {
    match m
    case Handle(a) => w.(state := Do(w.state, a))
    case Dispatch(batch, tries) => w.(progress := DeliverAll(w.progress, batch, tries))
  }

  /** Nothing reaches the sink but committed events, and nothing is marked that did not reach it. */
  ghost predicate SafeOutbox(w: Whole) {
    && (forall e | e in w.progress.sink :: Lookup(w.state.table, ObxK(e.id)) == Some(ObxItem(e)))
    && (forall id | id in w.progress.sent :: exists e :: e in w.progress.sink && e.id == id)
  }

  lemma {:induction false} DeliverAllIs(p: Progress, batch: seq<Event>, tries: seq<Try>)
    requires |batch| == |tries|
    ensures p.sink <= DeliverAll(p, batch, tries).sink && p.sent <= DeliverAll(p, batch, tries).sent
    ensures forall e | e in DeliverAll(p, batch, tries).sink :: e in p.sink || e in batch
    ensures forall id | id in DeliverAll(p, batch, tries).sent :: id in p.sent || exists e ::
        e in DeliverAll(p, batch, tries).sink && e.id == id
  {
    if batch != [] {
      var n := |batch| - 1;
      DeliverAllIs(p, batch[..n], tries[..n]);
      assert batch == batch[..n] + [batch[n]];
      var before, after := DeliverAll(p, batch[..n], tries[..n]), DeliverAll(p, batch, tries);
      forall id | id in after.sent ensures id in p.sent || exists e :: e in after.sink && e.id == id {
        if id in before.sent {
          if id !in p.sent {
            var e :| e in before.sink && e.id == id;
            assert e in after.sink;
          }
        } else {
          assert batch[n] in after.sink && batch[n].id == id;
        }
      }
    }
  }

  lemma {:induction false} EventRowsStay(t0: Table, s: State, a: Action, k: Key)
    requires Inv(t0, s) && Enabled(s, a) && k.ObxK? && k in s.table
    ensures k in Do(s, a).table && Do(s, a).table[k] == s.table[k]
  {
    hide Inv, Enabled, Do, Sound;
    DoEvolves(t0, s, a);
    InvIsSound(t0, s);
    ObxPlain(s.table, k);
    assert Newer(Do(s, a).table, k, s.table[k]);
  }

  lemma {:induction false} ObxPlain(t: Table, k: Key)
    requires Sound(t) && k.ObxK? && k in t
    ensures VersionOf(t[k]) == None
  {
    assert Typed(k, t[k]);
  }

  lemma {:induction false} MoveKeepsSafe(t0: Table, w: Whole, m: Move)
    requires Inv(t0, w.state) && SafeOutbox(w) && CanMove(w, m)
    ensures SafeOutbox(DoMove(w, m))
  {
    hide Inv, Enabled, Do;
    var w' := DoMove(w, m);
    match m
    case Handle(a) =>
      forall e | e in w'.progress.sink ensures Lookup(w'.state.table, ObxK(e.id)) == Some(ObxItem(e)) {
        EventRowsStay(t0, w.state, a, ObxK(e.id));
      }
    case Dispatch(batch, tries) =>
      DeliverAllIs(w.progress, batch, tries);
      forall e | e in w'.progress.sink ensures Lookup(w'.state.table, ObxK(e.id)) == Some(ObxItem(e)) {
        assert e in batch ==> Pending(w, e);
      }
      forall id | id in w'.progress.sent ensures exists e :: e in w'.progress.sink && e.id == id {
        if id in w.progress.sent {
          var e :| e in w.progress.sink && e.id == id;
          assert e in w'.progress.sink;
        }
      }
  }

  ghost function Moves(t0: Table, moves: seq<Move>): Option<Whole> {
    if moves == [] then Some(Whole(Initial(t0), Progress({}, map[], [])))
    else
      var w := Moves(t0, moves[..|moves| - 1]);
      var m := moves[|moves| - 1];
      if w.Some? && CanMove(w.value, m) then Some(DoMove(w.value, m)) else None
  }

  /** In every run of handlers, dispatcher ticks, sink failures and failed marks, the sink only ever saw
      events of committed handlers, and an event stops being pending only after it reached the sink. */
  lemma {:induction false} OutboxSafe(t0: Table, moves: seq<Move>)
    requires Sound(t0) && Moves(t0, moves).Some?
    ensures Inv(t0, Moves(t0, moves).value.state) && SafeOutbox(Moves(t0, moves).value)
  {
    hide Enabled, Do, SafeOutbox, Inv;
    if moves == [] {
      RunKeepsInv(t0, []);
      NothingSent(t0);
    } else {
      var w, m := Moves(t0, moves[..|moves| - 1]).value, moves[|moves| - 1];
      OutboxSafe(t0, moves[..|moves| - 1]);
      MoveKeepsSafe(t0, w, m);
      if m.Handle? {
        StepKeepsInv(t0, w.state, m.a);
      }
    }
  }

  lemma {:induction false} NothingSent(t0: Table)
    ensures SafeOutbox(Whole(Initial(t0), Progress({}, map[], [])))
  {
  }

  /** No committed event is ever lost: from the moment its row exists it is, at every later point of the
      run, still pending or already in the sink. */
  lemma {:induction false} NeverLost(t0: Table, moves: seq<Move>, i: nat, e: Event)
    requires Sound(t0) && Moves(t0, moves).Some? && i <= |moves| && Moves(t0, moves[..i]).Some?
    requires Lookup(Moves(t0, moves[..i]).value.state.table, ObxK(e.id)) == Some(ObxItem(e))
    ensures var w := Moves(t0, moves).value; Pending(w, e) || e in w.progress.sink
    ensures Lookup(Moves(t0, moves).value.state.table, ObxK(e.id)) == Some(ObxItem(e))
  {
    hide Enabled, Do, Inv;
    if i < |moves| {
      var n := |moves| - 1;
      assert moves[..n][..i] == moves[..i];
      NeverLost(t0, moves[..n], i, e);
      OutboxSafe(t0, moves[..n]);
      if moves[n].Handle? {
        EventRowsStay(t0, Moves(t0, moves[..n]).value.state, moves[n].a, ObxK(e.id));
      }
    } else {
      assert moves[..i] == moves;
    }
    OutboxSafe(t0, moves);
    var w := Moves(t0, moves).value;
    if e.id in w.progress.sent {
      var f :| f in w.progress.sink && f.id == e.id;
    }
  }

  lemma {:induction false} MarksStay(t0: Table, moves: seq<Move>, i: nat, id: string)
    requires Moves(t0, moves).Some? && i <= |moves| && Moves(t0, moves[..i]).Some?
    requires id in Moves(t0, moves[..i]).value.progress.sent
    ensures id in Moves(t0, moves).value.progress.sent
  {
    hide Enabled, Do;
    if i < |moves| {
      var n := |moves| - 1;
      assert moves[..n][..i] == moves[..i];
      MarksStay(t0, moves[..n], i, id);
      if moves[n].Dispatch? {
        DeliverAllIs(Moves(t0, moves[..n]).value.progress, moves[n].batch, moves[n].tries);
      }
    } else {
      assert moves[..i] == moves;
    }
  }

  /** An event whose publish and mark have both succeeded is never delivered again. */
  lemma {:induction false} DeliveredOnce(t0: Table, moves: seq<Move>, i: nat, j: nat, e: Event, f: Event)
    requires Moves(t0, moves).Some? && i < j < |moves| && moves[i].Dispatch? && moves[j].Dispatch?
    requires Moves(t0, moves[..i]).Some? && Moves(t0, moves[..i + 1]).Some? && Moves(t0, moves[..j]).Some?
    requires Moves(t0, moves[..j + 1]).Some?
    requires |moves[i].batch| == |moves[i].tries| && Tried(moves[i].batch, moves[i].tries, e.id, Try(true, true))
    requires f in moves[j].batch
    ensures f.id != e.id
  {
    hide Enabled, Do, Tried, DeliverAll;
    assert moves[..i + 1][..i] == moves[..i] && moves[..j + 1][..j] == moves[..j];
    var w := Moves(t0, moves[..i]).value;
    assert CanMove(w, moves[i]);
    DeliveredIs(w.progress, moves[i].batch, moves[i].tries, e.id);
    assert moves[..j][..i + 1] == moves[..i + 1];
    MarksStay(t0, moves[..j], i + 1, e.id);
    assert CanMove(Moves(t0, moves[..j]).value, moves[j]);
  }

  // ------------------------------------------------------------------------------------------
  // Every committed handler has its events
  // ------------------------------------------------------------------------------------------

  lemma {:induction false} EventIdsApart(env: Env, fr: FlowReq, i: nat, j: nat)
    requires DistinctIds(env) && i < |fr.steps| && j < |fr.steps| && EventOf(env, fr, i).id == EventOf(env, fr, j).id
    ensures i == j
  {
    if i < j {
      StepBaseGrows(fr.steps, i, j);
    } else if j < i {
      StepBaseGrows(fr.steps, j, i);
    }
  }

  lemma {:induction false} StepsWritesOutbox(env: Env, fr: FlowReq, n: nat, i: nat)
    requires DistinctIds(env) && n <= |fr.steps| && i < |fr.steps|
    ensures LastItem(StepsWrites(env, fr, n), ObxK(EventOf(env, fr, i).id))
         == if i < n then Some(ObxItem(EventOf(env, fr, i))) else None
  {
    hide StepWrites, EventOf, LastItem, DistinctIds;
    var k := ObxK(EventOf(env, fr, i).id);
    if n == 0 {
      NotWritten([], k);
    } else {
      StepsWritesOutbox(env, fr, n - 1, i);
      StepsWritesNext(env, fr, n, k);
      StepWritesLast(env, fr, n - 1, k);
      if EventOf(env, fr, i).id == EventOf(env, fr, n - 1).id {
        EventIdsApart(env, fr, i, n - 1);
      }
    }
  }

  /** Ids drawn after the flow are not those of its events. */
  lemma {:induction false} EventBelow(env: Env, fr: FlowReq, i: nat, m: nat)
    requires DistinctIds(env) && i < |fr.steps| && m >= StepBase(fr.steps, |fr.steps|)
    ensures EventOf(env, fr, i).id != env.Id(m)
  {
    StepBaseGrows(fr.steps, i, |fr.steps|);
  }

  /** The event with which a reservation handler ends. */
  function OwnEvent(r: Request, env: Env, t: Table): Option<Event> {
    match WayOf(r, t)
    case Ends(_) => None
    case Flows(raw, row) =>
      var fres := FlowSpec(env, raw, t);
      if fres.FlowFail? then None
      else if r.CreateReservation? then
        Some(CreatedEvent(env.Id(UsedOf(fres) + 1), NewReservation(r, env.Id(UsedOf(fres)), fres.run.id, env.now)))
      else if Updates(r) && row.Some? then Some(UpdatedEvent(r, env.Id(UsedOf(fres)), row.value.res))
      else None
  }

  /** The events of a committed handler: one per step of the flow it posts, and its own. */
  ghost predicate Announces(r: Request, env: Env, t: Table, e: Event) {
    || OwnEvent(r, env, t) == Some(e)
    || (PostedBy(r, env, t).Some?
        && exists i: nat :: i < |PostedBy(r, env, t).value.steps| && e == EventOf(env, PostedBy(r, env, t).value, i))
  }

  lemma {:induction false} TailOutbox(r: Request, env: Env, row: Option<HeldRow>, fres: FlowResult, k: Key)
    requires !fres.FlowFail? && k.ObxK?
    ensures var ws := TailWrites(r, env, row, fres);
            LastItem(ws, k) ==
            if r.CreateReservation? && k == ObxK(env.Id(UsedOf(fres) + 1)) then
              Some(ObxItem(CreatedEvent(env.Id(UsedOf(fres) + 1),
                NewReservation(r, env.Id(UsedOf(fres)), fres.run.id, env.now))))
            else if Updates(r) && row.Some? && k == ObxK(env.Id(UsedOf(fres))) then
              Some(ObxItem(UpdatedEvent(r, env.Id(UsedOf(fres)), row.value.res)))
            else None
  {
    hide ReservationToItem, Updated, NewReservation;
    var ws := TailWrites(r, env, row, fres);
    if r.CreateReservation? {
      assert ws == [ws[0], ws[1], ws[2]] && ws[..2] == [ws[0], ws[1]];
      LastOfTwo(ws[0], ws[1], k);
    } else if Updates(r) && row.Some? {
      LastOfTwo(ws[0], ws[1], k);
    }
  }

  lemma {:induction false} OwnEventStored(r: Request, env: Env, t: Table, u: Table)
    requires Takes(r, env, t, u) && OwnEvent(r, env, t).Some?
    ensures var e := OwnEvent(r, env, t).value; Lookup(u, ObxK(e.id)) == Some(ObxItem(e))
  {
    hide Takes, FlowSpec, WayOf, TailWrites, NewReservation, WritesOf, UsedOf;
    var way := WayOf(r, t);
    var fres := FlowSpec(env, way.raw, t);
    var e := OwnEvent(r, env, t).value;
    EventIdIs(r, env, t);
    StepLookup(r, env, t, u, ObxK(e.id));
    TailOutbox(r, env, way.row, fres, ObxK(e.id));
    LastItemConcat(WritesOf(fres), TailWrites(r, env, way.row, fres), ObxK(e.id));
  }

  lemma {:induction false} EventIdIs(r: Request, env: Env, t: Table)
    requires OwnEvent(r, env, t).Some?
    ensures WayOf(r, t).Flows? && !FlowSpec(env, WayOf(r, t).raw, t).FlowFail?
    ensures var used := UsedOf(FlowSpec(env, WayOf(r, t).raw, t));
            OwnEvent(r, env, t).value.id == if r.CreateReservation? then env.Id(used + 1) else env.Id(used)
  {
    hide FlowSpec, WayOf, NewReservation, UsedOf;
  }

  lemma {:induction false} StepEventStored(r: Request, env: Env, t: Table, u: Table, i: nat)
    requires Takes(r, env, t, u) && DistinctIds(env) && PostedBy(r, env, t).Some?
    requires i < |PostedBy(r, env, t).value.steps|
    ensures var e := EventOf(env, PostedBy(r, env, t).value, i); Lookup(u, ObxK(e.id)) == Some(ObxItem(e))
  {
    hide Takes, FlowSpec, WayOf, RefsOf, FlowWrites, EventOf, DistinctIds, ParseSteps, StepsWrites, TailWrites,
      StepBase, LastItem, FirstCond, UpdatedEvent, NewReservation;
    var way := WayOf(r, t);
    var fr := Parsed(way.raw);
    var fres := FlowSpec(env, way.raw, t);
    var k := ObxK(EventOf(env, fr, i).id);
    PostedIs(env, way.raw, t);
    UsedIs(env, way.raw, t);
    var loaded := LoadedAll(t, fr.tenant, RefsOf(fr));
    FlowIsSteps(env, fr, loaded, k);
    StepsWritesOutbox(env, fr, |fr.steps|, i);
    EventBelow(env, fr, i, UsedOf(fres));
    EventBelow(env, fr, i, UsedOf(fres) + 1);
    TailOutbox(r, env, way.row, fres, k);
    LastItemConcat(WritesOf(fres), TailWrites(r, env, way.row, fres), k);
    StepLookup(r, env, t, u, k);
  }

  /** A committed handler, of whatever kind, leaves the event of every step it posts and its own. */
  lemma {:induction false} CommitLeavesEvents(r: Request, env: Env, t: Table, u: Table, e: Event)
    requires Takes(r, env, t, u) && DistinctIds(env) && Announces(r, env, t, e)
    ensures Lookup(u, ObxK(e.id)) == Some(ObxItem(e))
  {
    hide Takes, DistinctIds, EventOf, OwnEvent, PostedBy;
    if OwnEvent(r, env, t) == Some(e) {
      OwnEventStored(r, env, t, u);
    } else {
      var i: nat :| i < |PostedBy(r, env, t).value.steps| && e == EventOf(env, PostedBy(r, env, t).value, i);
      StepEventStored(r, env, t, u, i);
    }
  }

  /** Every event of every committed handler is, at every later point of the run, pending or in the sink. */
  lemma {:induction false} EveryEventKept(t0: Table, moves: seq<Move>, i: nat, e: Event)
    requires Sound(t0) && Moves(t0, moves).Some? && i < |moves| && Moves(t0, moves[..i]).Some? && moves[i].Handle?
    requires Succeeds(Moves(t0, moves[..i]).value.state, moves[i].a)
    requires var s := Moves(t0, moves[..i]).value.state; var x := s.live[moves[i].a.id];
             DistinctIds(x.env) && Announces(x.req, x.env, s.table, e)
    ensures var w := Moves(t0, moves).value; Pending(w, e) || e in w.progress.sink
  {
    hide Enabled, Do, Inv, Announces, DistinctIds, Pending, CommitOn, AddAll;
    var w, a := Moves(t0, moves[..i]).value, moves[i].a;
    assert moves[..i + 1][..i] == moves[..i];
    assert Moves(t0, moves[..i + 1]) == Some(DoMove(w, moves[i]));
    OutboxSafe(t0, moves[..i]);
    SuccessIsLive(w.state, a);
    DoTakes(t0, w.state, a);
    CommitLeavesEvents(w.state.live[a.id].req, w.state.live[a.id].env, w.state.table, Do(w.state, a).table, e);
    NeverLost(t0, moves, i + 1, e);
  }
}
