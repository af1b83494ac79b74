/** Balances as of a past moment: snapshots plus the entries since (internal/service/get_balance.go,
    take_snapshot.go, gen/crdb/snapshots.sql.go). Times are integers. */
module AsOf {
  import opened Ledger
  import opened Ordering

  datatype BalanceId = BalanceId(tenant: string, account: string, currency: string)

  /** An entry as the queries see it: what it belongs to, its side, its amount, and its stamp. */
  datatype Posting = Posting(of: BalanceId, debit: bool, amount: int, at: int)

  datatype Row = Row(debits: int, credits: int, version: int)

  datatype Snapshot = Snapshot(id: string, of: BalanceId, debits: int, credits: int, version: int, at: int)

  /** The zero time, before any real entry. */
  const ZERO_TIME: int := 0

  /** SumEntriesBetween: entries stamped after `lo` and up to `hi`, on one side. */
  function Total(es: seq<Posting>, of: BalanceId, debit: bool, lo: int, hi: int): int {
    if es == [] then 0
    else
      var e := es[|es| - 1];
      Total(es[..|es| - 1], of, debit, lo, hi) + if e.of == of && e.debit == debit && lo < e.at <= hi then e.amount
        else 0
  }

  lemma {:induction false} TotalSplits(es: seq<Posting>, of: BalanceId, debit: bool, lo: int, mid: int, hi: int)
    requires lo <= mid <= hi
    ensures Total(es, of, debit, lo, hi) == Total(es, of, debit, lo, mid) + Total(es, of, debit, mid, hi)
  {
    if es != [] {
      TotalSplits(es[..|es| - 1], of, debit, lo, mid, hi);
    }
  }

  // ------------------------------------------------------------------------------------------
  // The latest snapshot
  // ------------------------------------------------------------------------------------------

  /** ORDER BY snapshot_at DESC, id DESC. */
  predicate Later(x: Snapshot, y: Snapshot) {
    x.at > y.at || (x.at == y.at && StrLess(y.id, x.id))
  }

  predicate Candidate(s: Snapshot, of: BalanceId, at: int) {
    s.of == of && s.at <= at
  }

  function Latest(snaps: seq<Snapshot>, of: BalanceId, at: int): (r: Option<Snapshot>)
    ensures r.Some? ==> r.value in snaps && Candidate(r.value, of, at)
  {
    if snaps == [] then None
    else
      var before := Latest(snaps[..|snaps| - 1], of, at);
      var s := snaps[|snaps| - 1];
      if Candidate(s, of, at) && (before == None || Later(s, before.value)) then Some(s) else before
  }

  /** Of the snapshots of the balance at or before the moment it is one with the latest stamp, among several of
      those the one with the greatest id; there is none only when there are none. */
  lemma {:induction false} LatestIs(snaps: seq<Snapshot>, of: BalanceId, at: int)
    ensures Latest(snaps, of, at) == None <==> forall s | s in snaps :: !(s.of == of && s.at <= at)
    ensures Latest(snaps, of, at).Some? ==>
              var best := Latest(snaps, of, at).value;
              && best in snaps && best.of == of && best.at <= at
              && forall s | s in snaps && s.of == of && s.at <= at ::
                   s.at < best.at || (s.at == best.at && !StrLess(best.id, s.id))
  {
    if snaps != [] {
      var n := |snaps| - 1;
      LatestIs(snaps[..n], of, at);
      assert snaps == snaps[..n] + [snaps[n]];
      assert snaps[n] in snaps;
      if Latest(snaps[..n], of, at).Some? {
        var b := Latest(snaps[..n], of, at).value;
        forall s | s in snaps && Candidate(s, of, at) ensures !Later(s, Latest(snaps, of, at).value) {
          StrIrreflexive(s.id);
          if Candidate(snaps[n], of, at) && Later(snaps[n], b) && Later(s, snaps[n]) && s != snaps[n] {
            LaterTransitive(s, snaps[n], b);
          }
        }
      } else {
        forall s | s in snaps && Candidate(s, of, at) ensures !Later(s, snaps[n]) {
          StrIrreflexive(s.id);
        }
      }
    }
  }

  lemma {:induction false} LaterTransitive(x: Snapshot, y: Snapshot, z: Snapshot)
    requires Later(x, y) && Later(y, z)
    ensures Later(x, z)
  {
    if x.at == y.at == z.at {
      StrTransitive(z.id, y.id, x.id);
    }
  }

  // ------------------------------------------------------------------------------------------
  // The reconstruction
  // ------------------------------------------------------------------------------------------

  /** Debits and credits of a balance as of `at`, the way the service computes them. */
  function Reconstructed(es: seq<Posting>, snaps: seq<Snapshot>, of: BalanceId, at: int): (int, int) {
    var s := Latest(snaps, of, at);
    var (d, c, since) := if s.Some? then (s.value.debits, s.value.credits, s.value.at) else (0, 0, ZERO_TIME);
    (d + Total(es, of, true, since, at), c + Total(es, of, false, since, at))
  }

  /** The reference: all entries stamped at or before `at`. */
  function PlainSum(es: seq<Posting>, of: BalanceId, at: int): (int, int) {
    (Total(es, of, true, ZERO_TIME, at), Total(es, of, false, ZERO_TIME, at))
  }

  predicate Exact(es: seq<Posting>, s: Snapshot) {
    s.at >= ZERO_TIME && (s.debits, s.credits) == PlainSum(es, s.of, s.at)
  }

  /** The reconstruction from a snapshot is as right as the snapshot. */
  lemma {:induction false} ReconstructionExactIff(es: seq<Posting>, snaps: seq<Snapshot>, of: BalanceId, at: int)
    requires forall s | s in snaps :: s.at >= ZERO_TIME
    ensures Reconstructed(es, snaps, of, at) == PlainSum(es, of, at)
            <==> (Latest(snaps, of, at).Some? ==> Exact(es, Latest(snaps, of, at).value))
  {
    var s := Latest(snaps, of, at);
    if s.Some? {
      TotalSplits(es, of, true, ZERO_TIME, s.value.at, at);
      TotalSplits(es, of, false, ZERO_TIME, s.value.at, at);
    }
  }

  lemma {:induction false} TotalOne(p: Posting, of: BalanceId, debit: bool, lo: int, hi: int)
    ensures Total([p], of, debit, lo, hi) == if p.of == of && p.debit == debit && lo < p.at <= hi then p.amount else 0
  {
    assert [p][..0] == [];
  }

  // ------------------------------------------------------------------------------------------
  // Pruning
  // ------------------------------------------------------------------------------------------

  /** Older than the cutoff, with a strictly newer snapshot of the same balance. */
  ghost predicate Prunable(snaps: seq<Snapshot>, s: Snapshot, cutoff: int) {
    s.at < cutoff && exists s' :: s' in snaps && s'.of == s.of && s'.at > s.at
  }

  function Keep(snaps: seq<Snapshot>, gone: set<string>): seq<Snapshot> {
    if snaps == [] then []
    else Keep(snaps[..|snaps| - 1], gone) + if snaps[|snaps| - 1].id in gone then [] else [snaps[|snaps| - 1]]
  }

  lemma {:induction false} KeepIs(snaps: seq<Snapshot>, gone: set<string>)
    ensures forall s :: s in Keep(snaps, gone) <==> s in snaps && s.id !in gone
  {
    if snaps != [] {
      var n := |snaps| - 1;
      KeepIs(snaps[..n], gone);
      assert snaps == snaps[..n] + [snaps[n]];
    }
  }

  /** What one prune may delete: prunable rows, at most `limit` of them, and fewer only if there are no
      more. */
  ghost predicate PruneChoice(snaps: seq<Snapshot>, gone: set<string>, cutoff: int, limit: nat) {
    && |gone| <= limit
    && (forall id | id in gone :: exists s :: s in snaps && s.id == id)
    && (forall s | s in snaps && s.id in gone :: Prunable(snaps, s, cutoff))
    && (|gone| < limit ==> forall s | s in snaps && Prunable(snaps, s, cutoff) :: s.id in gone)
  }

  /** Whatever the cutoff and the batch limit, the newest snapshots of a balance stay. */
  lemma {:induction false} NewestStays(snaps: seq<Snapshot>, gone: set<string>, cutoff: int, limit: nat, s: Snapshot)
    requires PruneChoice(snaps, gone, cutoff, limit)
    requires s in snaps && forall s' | s' in snaps && s'.of == s.of :: s'.at <= s.at
    ensures s in Keep(snaps, gone)
  {
    KeepIs(snaps, gone);
    assert s.id in gone ==> Prunable(snaps, s, cutoff);
  }

  /** Among the snapshots of one balance there is a newest. */
  lemma {:induction false} Newest(snaps: seq<Snapshot>, s: Snapshot) returns (top: Snapshot)
    requires s in snaps
    ensures top in snaps && top.of == s.of && s.at <= top.at
    ensures forall s' | s' in snaps && s'.of == s.of :: s'.at <= top.at
  {
    var n := |snaps| - 1;
    assert snaps == snaps[..n] + [snaps[n]];
    if exists s' :: s' in snaps[..n] && s'.of == s.of {
      var s' :| s' in snaps[..n] && s'.of == s.of;
      var before := Newest(snaps[..n], s');
      top := if snaps[n].of == s.of && snaps[n].at > before.at then snaps[n] else before;
    } else {
      top := s;
    }
  }

  /** A prune deletes no snapshot stamped at or after the cutoff; what it deletes is outlived by a newer snapshot
      of the same balance; and when the limit does not cut it, only snapshots from the cutoff on and the newest
      of each balance remain. */
  lemma {:induction false} PruneExact(snaps: seq<Snapshot>, gone: set<string>, cutoff: int, limit: nat)
    requires PruneChoice(snaps, gone, cutoff, limit)
    ensures forall s | s in snaps && s.at >= cutoff :: s in Keep(snaps, gone)
    ensures forall s | s in snaps && s !in Keep(snaps, gone) ::
              exists s' :: s' in Keep(snaps, gone) && s'.of == s.of && s'.at > s.at
    ensures |gone| < limit ==> forall s | s in snaps ::
              s in Keep(snaps, gone) <==> s.at >= cutoff || forall s' | s' in snaps && s'.of == s.of :: s'.at <= s.at
  {
    hide Keep;
    KeepIs(snaps, gone);
    forall s | s in snaps && s !in Keep(snaps, gone)
      ensures exists s' :: s' in Keep(snaps, gone) && s'.of == s.of && s'.at > s.at
    {
      assert Prunable(snaps, s, cutoff);
      var top := Newest(snaps, s);
      NewestStays(snaps, gone, cutoff, limit, top);
    }
    forall s | s in snaps && s.at >= cutoff ensures s in Keep(snaps, gone) {
      assert s.id in gone ==> Prunable(snaps, s, cutoff);
    }
    if |gone| < limit {
      forall s | s in snaps
        ensures s in Keep(snaps, gone) <==> s.at >= cutoff || forall s' | s' in snaps && s'.of == s.of :: s'.at <= s.at
      {
        assert Prunable(snaps, s, cutoff) <==> s.id in gone;
      }
    }
  }

  // ------------------------------------------------------------------------------------------
  // Runs
  // ------------------------------------------------------------------------------------------

  /** `stamps` holds the snapshot calls that have read the clock and not yet the balances. */
  datatype World = World(entries: seq<Posting>, rows: map<BalanceId, Row>, snaps: seq<Snapshot>,
      stamps: map<string, int>, clock: int)

  /** An entry becomes visible at its commit, with a stamp the database gave it at or before that moment.
      A snapshot call reads the clock first and its balances later. */
  datatype Event =
    | PostEntry(of: BalanceId, debit: bool, amount: int, at: int)
    | Stamp(call: string)
    | ReadAndInsert(call: string, ids: seq<string>, subjects: seq<BalanceId>)
    | Prune(gone: set<string>, cutoff: int, limit: nat)
    | Tick(seconds: int)

  function RowOrZero(rows: map<BalanceId, Row>, of: BalanceId): Row {
    if of in rows then rows[of] else Row(0, 0, 0)
  }

  function SnapshotOf(rows: map<BalanceId, Row>, id: string, of: BalanceId, now: int): Snapshot {
    var r := RowOrZero(rows, of);
    Snapshot(id, of, r.debits, r.credits, r.version, now)
  }

  function SnapshotsOf(rows: map<BalanceId, Row>, ids: seq<string>, of: seq<BalanceId>, now: int): (ss: seq<Snapshot>)
    requires |ids| == |of|
    ensures |ss| == |of|
  {
    seq(|of|, i requires 0 <= i < |of| => SnapshotOf(rows, ids[i], of[i], now))
  }

  ghost predicate CanHappen(w: World, e: Event) {
    match e
    case PostEntry(_, _, amount, at) => amount > 0 && ZERO_TIME < at <= w.clock
    case Stamp(call) => call !in w.stamps
    case ReadAndInsert(call, ids, subjects) => call in w.stamps && |ids| == |subjects|
    case Prune(gone, cutoff, limit) => PruneChoice(w.snaps, gone, cutoff, limit)
    case Tick(seconds) => seconds > 0
  }

  function Posted(rows: map<BalanceId, Row>, p: Posting): map<BalanceId, Row> {
    var r := RowOrZero(rows, p.of);
    rows[p.of :=
      if p.debit then Row(r.debits + p.amount, r.credits, r.version + 1)
      else Row(r.debits, r.credits + p.amount, r.version + 1)]
  }

  function Happen(w: World, e: Event): World
    requires e.ReadAndInsert? ==> |e.ids| == |e.subjects| && e.call in w.stamps
  {
    match e
    case PostEntry(of, debit, amount, at) =>
      var p := Posting(of, debit, amount, at);
      w.(entries := w.entries + [p], rows := Posted(w.rows, p))
    case Stamp(call) => w.(stamps := w.stamps[call := w.clock])
    case ReadAndInsert(call, ids, subjects) =>
      w.(snaps := w.snaps + SnapshotsOf(w.rows, ids, subjects, w.stamps[call]), stamps := w.stamps - {call})
    case Prune(gone, _, _) => w.(snaps := Keep(w.snaps, gone))
    case Tick(seconds) => w.(clock := w.clock + seconds)
  }

  /** What holds whatever happens: stamps are in the past, amounts positive, and each balance row is the
      sum of its entries. */
  ghost predicate Sane(w: World) {
    && w.clock > ZERO_TIME
    && (forall p | p in w.entries :: ZERO_TIME < p.at <= w.clock && p.amount > 0)
    && (forall of {:trigger RowOrZero(w.rows, of)} ::
          (RowOrZero(w.rows, of).debits, RowOrZero(w.rows, of).credits) == PlainSum(w.entries, of, w.clock))
    && (forall s | s in w.snaps :: ZERO_TIME < s.at <= w.clock)
    && (forall c | c in w.stamps :: ZERO_TIME < w.stamps[c] <= w.clock)
  }

  ghost predicate AllExact(w: World) {
    forall s | s in w.snaps :: Exact(w.entries, s)
  }

  /** The order exact snapshots need: no entry is posted with a stamp that a snapshot of its balance has
      passed, and no snapshot reads a balance to which an entry stamped after its own moment was posted. */
  ghost predicate Orderly(w: World, e: Event) {
    match e
    case PostEntry(of, _, _, at) => forall s | s in w.snaps && s.of == of :: s.at < at
    case ReadAndInsert(call, _, subjects) => call in w.stamps ==> forall p | p in w.entries && p.of in subjects ::
      p.at <= w.stamps[call]
    case _ => true
  }

  lemma {:induction false} TotalSnoc(es: seq<Posting>, p: Posting, of: BalanceId, debit: bool, lo: int, hi: int)
    ensures Total(es + [p], of, debit, lo, hi)
         == Total(es, of, debit, lo, hi) + if p.of == of && p.debit == debit && lo < p.at <= hi then p.amount else 0
  {
    assert (es + [p])[..|es|] == es;
  }

  lemma {:induction false} TotalLater(es: seq<Posting>, of: BalanceId, debit: bool, lo: int, hi: int, hi': int)
    requires hi <= hi' && forall p | p in es :: p.at <= hi
    ensures Total(es, of, debit, lo, hi') == Total(es, of, debit, lo, hi)
  {
    if es != [] {
      assert es[|es| - 1] in es;
      TotalLater(es[..|es| - 1], of, debit, lo, hi, hi');
    }
  }

  /** Positive amounts never cancel. */
  lemma {:induction false} NothingIffZero(es: seq<Posting>, of: BalanceId, lo: int, hi: int)
    requires forall p | p in es :: p.amount > 0
    ensures Total(es, of, true, lo, hi) >= 0 && Total(es, of, false, lo, hi) >= 0
    ensures Total(es, of, true, lo, hi) == 0 && Total(es, of, false, lo, hi) == 0
            <==> forall p | p in es && p.of == of :: !(lo < p.at <= hi)
  {
    if es != [] {
      var n := |es| - 1;
      assert es == es[..n] + [es[n]];
      assert es[n] in es;
      NothingIffZero(es[..n], of, lo, hi);
    }
  }

  lemma {:induction false} PostKeepsSane(w: World, e: Event)
    requires Sane(w) && CanHappen(w, e) && e.PostEntry?
    ensures Sane(Happen(w, e))
  {
    hide Total;
    var p := Posting(e.of, e.debit, e.amount, e.at);
    var w' := Happen(w, e);
    forall of {:trigger RowOrZero(w'.rows, of)}
      ensures (RowOrZero(w'.rows, of).debits, RowOrZero(w'.rows, of).credits) == PlainSum(w'.entries, of, w'.clock)
    {
      TotalSnoc(w.entries, p, of, true, ZERO_TIME, w.clock);
      TotalSnoc(w.entries, p, of, false, ZERO_TIME, w.clock);
      assert (RowOrZero(w.rows, of).debits, RowOrZero(w.rows, of).credits) == PlainSum(w.entries, of, w.clock);
    }
  }

  lemma {:induction false} TickKeepsSane(w: World, e: Event)
    requires Sane(w) && CanHappen(w, e) && e.Tick?
    ensures Sane(Happen(w, e))
  {
    hide Total;
    var w' := Happen(w, e);
    forall of {:trigger RowOrZero(w'.rows, of)}
      ensures (RowOrZero(w'.rows, of).debits, RowOrZero(w'.rows, of).credits) == PlainSum(w'.entries, of, w'.clock)
    {
      TotalLater(w.entries, of, true, ZERO_TIME, w.clock, w'.clock);
      TotalLater(w.entries, of, false, ZERO_TIME, w.clock, w'.clock);
      assert (RowOrZero(w.rows, of).debits, RowOrZero(w.rows, of).credits) == PlainSum(w.entries, of, w.clock);
    }
  }

  lemma {:induction false} HappenKeepsSane(w: World, e: Event)
    requires Sane(w) && CanHappen(w, e)
    ensures Sane(Happen(w, e))
  {
    hide PlainSum;
    match e
    case PostEntry(_, _, _, _) => PostKeepsSane(w, e);
    case Stamp(_) =>
    case ReadAndInsert(_, _, _) =>
    case Prune(gone, _, _) => KeepIs(w.snaps, gone);
    case Tick(_) => TickKeepsSane(w, e);
  }

  /** Posting one entry leaves an exact snapshot exact, unless it is stamped within its reach. */
  lemma {:induction false} PostLeavesExactIff(es: seq<Posting>, p: Posting, s: Snapshot)
    requires Exact(es, s) && p.amount > 0 && p.at > ZERO_TIME
    ensures Exact(es + [p], s) <==> p.of != s.of || s.at < p.at
  {
    TotalSnoc(es, p, s.of, true, ZERO_TIME, s.at);
    TotalSnoc(es, p, s.of, false, ZERO_TIME, s.at);
  }

  /** A snapshot just inserted is exact, unless its balance had an entry stamped after it. */
  lemma {:induction false} InsertedExactIff(w: World, id: string, of: BalanceId, at: int)
    requires Sane(w) && ZERO_TIME < at <= w.clock
    ensures Exact(w.entries, SnapshotOf(w.rows, id, of, at)) <==> forall p | p in w.entries && p.of == of :: p.at <= at
  {
    hide Total;
    assert (RowOrZero(w.rows, of).debits, RowOrZero(w.rows, of).credits) == PlainSum(w.entries, of, w.clock);
    TotalSplits(w.entries, of, true, ZERO_TIME, at, w.clock);
    TotalSplits(w.entries, of, false, ZERO_TIME, at, w.clock);
    NothingIffZero(w.entries, of, at, w.clock);
  }

  lemma {:induction false} PostExactIff(w: World, e: Event)
    requires Sane(w) && AllExact(w) && CanHappen(w, e) && e.PostEntry?
    ensures AllExact(Happen(w, e)) <==> Orderly(w, e)
  {
    hide Exact, Sane;
    var p := Posting(e.of, e.debit, e.amount, e.at);
    forall s | s in w.snaps ensures Exact(w.entries + [p], s) <==> p.of != s.of || s.at < p.at {
      PostLeavesExactIff(w.entries, p, s);
    }
  }

  lemma {:induction false} InsertExactIff(w: World, e: Event)
    requires Sane(w) && AllExact(w) && CanHappen(w, e) && e.ReadAndInsert?
    ensures AllExact(Happen(w, e)) <==> Orderly(w, e)
  {
    var at := w.stamps[e.call];
    var added := SnapshotsOf(w.rows, e.ids, e.subjects, at);
    assert ZERO_TIME < at <= w.clock;
    assert Happen(w, e).snaps == w.snaps + added;
    hide Exact, Sane, SnapshotOf;
    forall i | 0 <= i < |added|
      ensures Exact(w.entries, added[i]) <==> forall p | p in w.entries && p.of == e.subjects[i] :: p.at <= at
    {
      InsertedExactIff(w, e.ids[i], e.subjects[i], at);
    }
    if AllExact(Happen(w, e)) {
      forall p | p in w.entries && p.of in e.subjects ensures p.at <= at {
        var i :| 0 <= i < |e.subjects| && e.subjects[i] == p.of;
        assert added[i] in Happen(w, e).snaps;
      }
    }
  }

  /** One event, in a world whose snapshots are exact, leaves them exact if and only if it is orderly. */
  lemma {:induction false} ExactStep(w: World, e: Event)
    requires Sane(w) && AllExact(w) && CanHappen(w, e)
    ensures AllExact(Happen(w, e)) <==> Orderly(w, e)
  {
    hide Exact, Sane;
    match e
    case PostEntry(_, _, _, _) => PostExactIff(w, e);
    case ReadAndInsert(_, _, _) => InsertExactIff(w, e);
    case Prune(gone, _, _) => KeepIs(w.snaps, gone);
    case Stamp(_) =>
    case Tick(_) =>
  }

  /** The world after a run, if every event of it could happen. */
  ghost function Along(w0: World, events: seq<Event>): Option<World> {
    if events == [] then Some(w0)
    else
      var v := Along(w0, events[..|events| - 1]);
      if v.Some? && CanHappen(v.value, events[|events| - 1]) then Some(Happen(v.value, events[|events| - 1])) else None
  }

  lemma {:induction false} AlongSnoc(w0: World, events: seq<Event>, e: Event)
    requires Along(w0, events).Some? && CanHappen(Along(w0, events).value, e)
    ensures Along(w0, events + [e]) == Some(Happen(Along(w0, events).value, e))
  {
    assert (events + [e])[..|events|] == events;
  }

  lemma {:induction false} AlongPrefix(w0: World, events: seq<Event>, i: nat)
    requires Along(w0, events).Some? && i <= |events|
    ensures Along(w0, events[..i]).Some?
    ensures i < |events| ==>
              && CanHappen(Along(w0, events[..i]).value, events[i])
              && Along(w0, events[..i + 1]) == Some(Happen(Along(w0, events[..i]).value, events[i]))
  {
    hide CanHappen, Happen;
    if i < |events| - 1 {
      AlongPrefix(w0, events[..|events| - 1], i);
      assert events[..|events| - 1][..i] == events[..i] && events[..|events| - 1][..i + 1] == events[..i + 1];
    } else {
      assert events[..|events|] == events;
    }
  }

  lemma {:induction false} RunKeepsSane(w0: World, events: seq<Event>)
    requires Sane(w0) && Along(w0, events).Some?
    ensures Sane(Along(w0, events).value)
  {
    hide Sane, CanHappen, Happen;
    if events != [] {
      RunKeepsSane(w0, events[..|events| - 1]);
      HappenKeepsSane(Along(w0, events[..|events| - 1]).value, events[|events| - 1]);
    }
  }

  /** Event `i` of the run is orderly where it happens. */
  ghost predicate OrderlyAt(w0: World, events: seq<Event>, i: nat) {
    i < |events| && Along(w0, events[..i]).Some? && Orderly(Along(w0, events[..i]).value, events[i])
  }

  ghost predicate ExactAt(w0: World, events: seq<Event>, i: nat) {
    i <= |events| && Along(w0, events[..i]).Some? && AllExact(Along(w0, events[..i]).value)
  }

  lemma {:induction false} ExactWhileOrderly(w0: World, events: seq<Event>, n: nat)
    requires Sane(w0) && AllExact(w0) && Along(w0, events).Some? && n <= |events|
    requires forall i: nat | i < n :: OrderlyAt(w0, events, i)
    ensures ExactAt(w0, events, n)
  {
    hide Sane, CanHappen, Happen, Orderly, AllExact;
    AlongPrefix(w0, events, n);
    if n > 0 {
      ExactWhileOrderly(w0, events, n - 1);
      AlongPrefix(w0, events, n - 1);
      RunKeepsSane(w0, events[..n - 1]);
      assert OrderlyAt(w0, events, n - 1);
      ExactStep(Along(w0, events[..n - 1]).value, events[n - 1]);
    } else {
      assert Along(w0, events[..0]) == Some(w0);
    }
  }

  /** The exact condition: along a run every stored snapshot is exact at every moment if and only if every
      event is orderly. */
  lemma {:induction false} ExactIffOrderly(w0: World, events: seq<Event>)
    requires Sane(w0) && AllExact(w0) && Along(w0, events).Some?
    ensures (forall i: nat | i <= |events| :: ExactAt(w0, events, i))
        <==> (forall i: nat | i < |events| :: OrderlyAt(w0, events, i))
  {
    hide Sane, CanHappen, Happen, Orderly, AllExact;
    if forall i: nat | i < |events| :: OrderlyAt(w0, events, i) {
      forall i: nat | i <= |events| ensures ExactAt(w0, events, i) {
        ExactWhileOrderly(w0, events, i);
      }
    }
    if forall i: nat | i <= |events| :: ExactAt(w0, events, i) {
      forall i: nat | i < |events| ensures OrderlyAt(w0, events, i) {
        assert ExactAt(w0, events, i) && ExactAt(w0, events, i + 1);
        AlongPrefix(w0, events, i);
        RunKeepsSane(w0, events[..i]);
        ExactStep(Along(w0, events[..i]).value, events[i]);
      }
    }
  }

  /** Along orderly runs the balance as of any moment is the plain sum of the entries stamped up to it. */
  lemma {:induction false} AsOfIsPlainSum(events: seq<Event>, w0: World, w: World, of: BalanceId, at: int)
    requires Sane(w0) && AllExact(w0) && Along(w0, events) == Some(w)
    requires forall i: nat | i < |events| :: OrderlyAt(w0, events, i)
    ensures Reconstructed(w.entries, w.snaps, of, at) == PlainSum(w.entries, of, at)
  {
    hide Total, Reconstructed, PlainSum, Latest, RowOrZero, OrderlyAt, Sane, CanHappen, Happen;
    ExactWhileOrderly(w0, events, |events|);
    assert events[..|events|] == events;
    ReconstructionExactIff(w.entries, w.snaps, of, at);
    LatestIs(w.snaps, of, at);
  }

  lemma {:induction false} EmptyWorld(clock: int)
    requires clock > ZERO_TIME
    ensures Sane(World([], map[], [], map[], clock)) && AllExact(World([], map[], [], map[], clock))
  {
  }

  /** Along orderly runs a prune, whatever it chooses, changes no answer. */
  lemma {:induction false} PruneChangesNoAnswer(w0: World, events: seq<Event>, w: World, gone: set<string>,
      cutoff: int, limit: nat, of: BalanceId, at: int)
    requires Sane(w0) && AllExact(w0) && Along(w0, events) == Some(w)
    requires forall i: nat | i < |events| :: OrderlyAt(w0, events, i)
    requires PruneChoice(w.snaps, gone, cutoff, limit)
    ensures Reconstructed(w.entries, Keep(w.snaps, gone), of, at) == Reconstructed(w.entries, w.snaps, of, at)
  {
    hide Reconstructed, PlainSum, Sane, PruneChoice, Along, AllExact;
    AsOfIsPlainSum(events, w0, w, of, at);
    var e := Prune(gone, cutoff, limit);
    AlongSnoc(w0, events, e);
    forall i: nat | i < |events + [e]| ensures OrderlyAt(w0, events + [e], i) {
      if i < |events| {
        assert OrderlyAt(w0, events, i);
        assert (events + [e])[..i] == events[..i];
      } else {
        assert (events + [e])[..i] == events;
      }
    }
    AsOfIsPlainSum(events + [e], w0, Happen(w, e), of, at);
  }

  // ------------------------------------------------------------------------------------------
  // One snapshot
  // ------------------------------------------------------------------------------------------

  /** Event `k` posts an entry of `of` that a snapshot stamped `at` should not have seen. */
  predicate PostsAfter(e: Event, of: BalanceId, at: int) {
    e.PostEntry? && e.of == of && e.at > at
  }

  /** Event `k` posts an entry of `of` that a snapshot stamped `at` should have seen. */
  predicate PostsUpTo(e: Event, of: BalanceId, at: int) {
    e.PostEntry? && e.of == of && e.at <= at
  }

  function PostingOf(e: Event): Posting
    requires e.PostEntry?
  {
    Posting(e.of, e.debit, e.amount, e.at)
  }

  lemma {:induction false} EntriesStep(w: World, e: Event)
    requires CanHappen(w, e)
    ensures Happen(w, e).entries == w.entries + if e.PostEntry? then [PostingOf(e)] else []
  {
    hide RowOrZero, Keep, Posted, PruneChoice;
  }

  lemma {:induction false} EntriesSince(w0: World, events: seq<Event>, i: nat, j: nat, p: Posting)
    requires Along(w0, events).Some? && i <= j <= |events|
    requires Along(w0, events[..i]).Some? && Along(w0, events[..j]).Some?
    ensures p in Along(w0, events[..j]).value.entries <==>
              || p in Along(w0, events[..i]).value.entries
              || exists k :: i <= k < j && events[k].PostEntry? && p == PostingOf(events[k])
  {
    hide CanHappen, Happen, Along, PostingOf;
    if i < j {
      AlongPrefix(w0, events, j - 1);
      EntriesSince(w0, events, i, j - 1, p);
      EntriesStep(Along(w0, events[..j - 1]).value, events[j - 1]);
    }
  }

  lemma {:induction false} ClockSince(w0: World, events: seq<Event>, i: nat)
    requires Sane(w0) && Along(w0, events).Some? && i <= |events| && Along(w0, events[..i]).Some?
    ensures forall p | p in Along(w0, events[..i]).value.entries :: p.at <= Along(w0, events[..i]).value.clock
  {
    RunKeepsSane(w0, events[..i]);
  }

  /** Right after its insertion the snapshot is exact unless an entry was posted strictly between stamp and
      read with a later stamp. */
  lemma {:induction false} InsertedBetween(w0: World, events: seq<Event>, i: nat, j: nat, id: string, of: BalanceId)
    requires Sane(w0) && Along(w0, events).Some? && i < j < |events|
    requires Along(w0, events[..i]).Some? && Along(w0, events[..j]).Some?
    ensures var at := Along(w0, events[..i]).value.clock;
            var v := Along(w0, events[..j]).value;
            Exact(v.entries, SnapshotOf(v.rows, id, of, at)) <==> forall k | i <= k < j ::
              !PostsAfter(events[k], of, at)
  {
    hide Along, Exact, SnapshotOf, Sane;
    var at := Along(w0, events[..i]).value.clock;
    var v := Along(w0, events[..j]).value;
    RunKeepsSane(w0, events[..j]);
    RunKeepsSane(w0, events[..i]);
    ClockSince(w0, events, i);
    ClockGrows(w0, events, i, j);
    SanePast(Along(w0, events[..i]).value);
    InsertedExactIff(v, id, of, at);
    forall p ensures p in v.entries <==>
              || p in Along(w0, events[..i]).value.entries
              || exists k :: i <= k < j && events[k].PostEntry? && p == PostingOf(events[k])
    {
      EntriesSince(w0, events, i, j, p);
    }
    if k :| i <= k < j && PostsAfter(events[k], of, at) {
      assert PostingOf(events[k]) in v.entries;
    }
  }

  lemma {:induction false} SanePast(w: World)
    requires Sane(w)
    ensures w.clock > ZERO_TIME
  {
  }

  lemma {:induction false} ClockGrows(w0: World, events: seq<Event>, i: nat, j: nat)
    requires Along(w0, events).Some? && i <= j <= |events|
    requires Along(w0, events[..i]).Some? && Along(w0, events[..j]).Some?
    ensures Along(w0, events[..i]).value.clock <= Along(w0, events[..j]).value.clock
  {
    hide RowOrZero, Keep, Posted, PruneChoice;
    if i < j {
      AlongPrefix(w0, events, j - 1);
      ClockGrows(w0, events, i, j - 1);
    }
  }

  /** From then on it stays exact unless an entry is posted with a stamp it had passed. */
  lemma {:induction false} StaysExactIff(w0: World, events: seq<Event>, j: nat, n: nat, s: Snapshot)
    requires Along(w0, events).Some? && j <= n <= |events|
    requires forall m | j <= m <= n :: Along(w0, events[..m]).Some?
    requires Exact(Along(w0, events[..j]).value.entries, s)
    ensures (forall m | j <= m <= n :: Exact(Along(w0, events[..m]).value.entries, s))
            <==> forall k | j <= k < n :: !PostsUpTo(events[k], s.of, s.at)
  {
    hide Exact, RowOrZero, Keep, Posted, PruneChoice, Along;
    if j < n {
      StaysExactIff(w0, events, j, n - 1, s);
      AlongPrefix(w0, events, n - 1);
      var v := Along(w0, events[..n - 1]).value;
      var e := events[n - 1];
      if Exact(v.entries, s) && e.PostEntry? {
        PostLeavesExactIff(v.entries, Posting(e.of, e.debit, e.amount, e.at), s);
      }
    }
  }

  /** A snapshot call that stamps at event `i` and reads the balance `of` at event `j` stores a snapshot
      that is exact from then on if and only if nothing was posted to `of` strictly between the two with a
      stamp after its own, and nothing is posted after the read with a stamp up to its own. */
  lemma {:induction false} SnapshotExactIff(w0: World, events: seq<Event>, i: nat, j: nat, id: string, of: BalanceId)
    requires Sane(w0) && Along(w0, events).Some? && i < j < |events| && events[i].Stamp? && events[j].ReadAndInsert?
    requires forall m | 0 <= m <= |events| :: Along(w0, events[..m]).Some?
    ensures var at := Along(w0, events[..i]).value.clock;
            var s := SnapshotOf(Along(w0, events[..j]).value.rows, id, of, at);
            (forall m | j < m <= |events| :: Exact(Along(w0, events[..m]).value.entries, s))
            <==>
              (forall k | i < k < j :: !PostsAfter(events[k], of, at))
              && (forall k | j < k < |events| :: !PostsUpTo(events[k], of, at))
  {
    hide Exact, SnapshotOf, Along, Sane;
    var at := Along(w0, events[..i]).value.clock;
    var v := Along(w0, events[..j]).value;
    var s := SnapshotOf(v.rows, id, of, at);
    SnapshotFields(v.rows, id, of, at);
    InsertedBetween(w0, events, i, j, id, of);
    AlongPrefix(w0, events, j);
    assert Along(w0, events[..j + 1]).value.entries == v.entries;
    if Exact(v.entries, s) {
      StaysExactIff(w0, events, j + 1, |events|, s);
    }
  }

  lemma {:induction false} SnapshotFields(rows: map<BalanceId, Row>, id: string, of: BalanceId, at: int)
    ensures SnapshotOf(rows, id, of, at).of == of && SnapshotOf(rows, id, of, at).at == at
  {
  }

  // ------------------------------------------------------------------------------------------
  // The two ways it goes wrong
  // ------------------------------------------------------------------------------------------

  const Start := World([], map[], [], map[], 5)

  lemma {:induction false} OneSnapshot(es: seq<Posting>, s: Snapshot, at: int)
    requires s.at <= at
    ensures Reconstructed(es, [s], s.of, at)
         == (s.debits + Total(es, s.of, true, s.at, at), s.credits + Total(es, s.of, false, s.at, at))
  {
    assert [s][..0] == [];
    assert Latest([s], s.of, at) == Some(s);
  }

  /** An entry posted between stamp and read is counted twice. */
  lemma {:induction false} StampBeforeReadIsWrong(of: BalanceId, amount: int) returns (events: seq<Event>)
    requires amount > 0
    ensures Along(Start, events).Some?
    ensures var w := Along(Start, events).value;
            Reconstructed(w.entries, w.snaps, of, 7) == (2 * amount, 0) && PlainSum(w.entries, of, 7) == (amount, 0)
  {
    hide Along, Total, Reconstructed, Latest;
    var e0, e1, e2 := Stamp("call"), Tick(1), PostEntry(of, true, amount, 6);
    var e3 := ReadAndInsert("call", ["s"], [of]);
    NothingYet();
    AlongSnoc(Start, [], e0);
    AlongSnoc(Start, [] + [e0], e1);
    AlongSnoc(Start, [] + [e0] + [e1], e2);
    AlongSnoc(Start, [] + [e0] + [e1] + [e2], e3);
    events := [] + [e0] + [e1] + [e2] + [e3];
    var w := Along(Start, events).value;
    var p := Posting(of, true, amount, 6);
    var s := Snapshot("s", of, amount, 0, 1, 5);
    assert w.entries == [p];
    assert w.snaps == [s];
    OneSnapshot([p], s, 7);
    TotalOne(p, of, true, 5, 7);
    TotalOne(p, of, false, 5, 7);
    TotalOne(p, of, true, 0, 7);
    TotalOne(p, of, false, 0, 7);
  }

  lemma {:induction false} NothingYet()
    ensures Along(Start, []) == Some(Start)
  {
  }

  /** An entry that was stamped before the snapshot and committed after its read is lost. */
  lemma {:induction false} LateCommitIsLost(of: BalanceId, amount: int) returns (events: seq<Event>)
    requires amount > 0
    ensures Along(Start, events).Some?
    ensures var w := Along(Start, events).value;
            Reconstructed(w.entries, w.snaps, of, 7) == (0, 0) && PlainSum(w.entries, of, 7) == (amount, 0)
  {
    hide Along, Total, Reconstructed, Latest;
    var e0, e1, e2 := Stamp("call"), ReadAndInsert("call", ["s"], [of]), PostEntry(of, true, amount, 4);
    NothingYet();
    AlongSnoc(Start, [], e0);
    AlongSnoc(Start, [] + [e0], e1);
    AlongSnoc(Start, [] + [e0] + [e1], e2);
    events := [] + [e0] + [e1] + [e2];
    var w := Along(Start, events).value;
    var p := Posting(of, true, amount, 4);
    var s := Snapshot("s", of, 0, 0, 0, 5);
    assert w.entries == [p];
    assert w.snaps == [s];
    OneSnapshot([p], s, 7);
    TotalOne(p, of, true, 5, 7);
    TotalOne(p, of, false, 5, 7);
    TotalOne(p, of, true, 0, 7);
    TotalOne(p, of, false, 0, 7);
  }

  // ------------------------------------------------------------------------------------------
  // The service and its tables
  // ------------------------------------------------------------------------------------------

  datatype BalanceView = BalanceView(account: string, currency: string, debits: int, credits: int, normalized: int,
      version: int)

  /** Snapshots of the listed balances, taken in order under consecutive ids. */
  function Taken(rows: map<BalanceId, Row>, subjects: seq<BalanceId>, gen: nat -> string, base: nat,
      now: int): seq<Snapshot> {
    SnapshotsOf(rows, seq(|subjects|, i requires 0 <= i < |subjects| => gen(base + i)), subjects, now)
  }

  /** A call's snapshots: for each subject its row's sums and version, zero without a row, with a new id and the
      stamp. */
  lemma {:induction false} TakenAre(rows: map<BalanceId, Row>, subjects: seq<BalanceId>, gen: nat -> string,
      base: nat, now: int, i: nat)
    requires i < |subjects|
    ensures |Taken(rows, subjects, gen, base, now)| == |subjects|
    ensures var of := subjects[i];
            Taken(rows, subjects, gen, base, now)[i] ==
            if of in rows then Snapshot(gen(base + i), of, rows[of].debits, rows[of].credits, rows[of].version, now)
            else Snapshot(gen(base + i), of, 0, 0, 0, now)
  {
  }

  lemma {:induction false} TakenNext(rows: map<BalanceId, Row>, subjects: seq<BalanceId>, gen: nat -> string,
      base: nat, now: int, i: nat)
    requires i < |subjects|
    ensures Taken(rows, subjects[..i + 1], gen, base, now)
         == Taken(rows, subjects[..i], gen, base, now) + [SnapshotOf(rows, gen(base + i), subjects[i], now)]
  {
  }

  lemma {:induction false} TakenOne(rows: map<BalanceId, Row>, of: BalanceId, gen: nat -> string, base: nat, now: int)
    ensures Taken(rows, [of], gen, base, now) == [SnapshotOf(rows, gen(base), of, now)]
  {
    assert gen(base + 0) == gen(base);
  }

  /** The reporting calls over tables that postings change between any two requests: request `n` finds the
      clock `clockAt(n)` and the balance rows `rowsAt(n)`. */
  class Reports {
    const gen: nat -> string
    const clockAt: nat -> int
    const rowsAt: nat -> map<BalanceId, Row>
    var requests: nat
    var accounts: map<(string, string), Account>
    var entries: seq<Posting>
    var snaps: seq<Snapshot>
    var issued: nat

    constructor (gen: nat -> string, clockAt: nat -> int, rowsAt: nat -> map<BalanceId, Row>)
      ensures this.gen == gen && this.clockAt == clockAt && this.rowsAt == rowsAt && issued == 0 && requests == 0
      ensures accounts == map[] && entries == [] && snaps == []
    {
      this.gen, this.clockAt, this.rowsAt := gen, clockAt, rowsAt;
      accounts, entries, snaps, issued, requests := map[], [], [], 0, 0;
    }

    method GetSnapshotBefore(of: BalanceId, at: int) returns (best: Option<Snapshot>)
      ensures best == Latest(snaps, of, at)
    {
      best := None;
      for i := 0 to |snaps|
        invariant best == Latest(snaps[..i], of, at)
      {
        var s := snaps[i];
        assert snaps[..i + 1][..i] == snaps[..i];
        if s.of == of && s.at <= at
           && (best == None || s.at > best.value.at || (s.at == best.value.at && StrLess(best.value.id, s.id))) {
          best := Some(s);
        }
      }
      assert snaps[..|snaps|] == snaps;
    }

    method SumEntriesBetween(of: BalanceId, lo: int, hi: int) returns (d: int, c: int)
      ensures (d, c) == (Total(entries, of, true, lo, hi), Total(entries, of, false, lo, hi))
    {
      d, c := 0, 0;
      for i := 0 to |entries|
        invariant (d, c) == (Total(entries[..i], of, true, lo, hi), Total(entries[..i], of, false, lo, hi))
      {
        var e := entries[i];
        assert entries[..i + 1][..i] == entries[..i];
        if e.of == of && lo < e.at <= hi {
          if e.debit {
            d := d + e.amount;
          } else {
            c := c + e.amount;
          }
        }
      }
      assert entries[..|entries|] == entries;
    }

    method Now() returns (now: int)
      modifies this`requests
      ensures now == clockAt(old(requests)) && requests == old(requests) + 1
    {
      now := clockAt(requests);
      requests := requests + 1;
    }

    method ReadRow(of: BalanceId) returns (r: Row)
      modifies this`requests
      ensures r == RowOrZero(rowsAt(old(requests)), of) && requests == old(requests) + 1
    {
      r := RowOrZero(rowsAt(requests), of);
      requests := requests + 1;
    }

    /** GetBalance, current or as of a past moment; the version of a past balance is its snapshot's. */
    method GetBalance(tenant: string, account: string, currency: string, asOf: Option<int>)
        returns (res: Result<BalanceView>)
      modifies this`requests
      ensures var of := BalanceId(tenant, account, currency);
              if (tenant, account) !in accounts then res == Err(AccountNotFound)
              else
                var a := accounts[(tenant, account)];
                if a.currency != currency then res == Err(AccountCurrencyMismatch)
                else
                  var row := RowOrZero(rowsAt(old(requests)), of);
                  var s := if asOf.Some? then Latest(snaps, of, asOf.value) else None;
                  var (d, c) := if asOf.Some? then Reconstructed(entries, snaps, of, asOf.value)
                    else (row.debits, row.credits);
                  var version := if asOf == None then row.version else if s.Some? then s.value.version else 0;
                  var normalized := match a.normalBalance case NormalDebit => d - c case NormalCredit => c - d;
                  res == Ok(BalanceView(a.id, currency, d, c, normalized, version))
    {
      if (tenant, account) !in accounts {
        return Err(AccountNotFound);
      }
      var a := accounts[(tenant, account)];
      if a.currency != currency {
        return Err(AccountCurrencyMismatch);
      }
      var of := BalanceId(tenant, account, currency);
      var d, c, ver := 0, 0, 0;
      if asOf.Some? {
        var snap := GetSnapshotBefore(of, asOf.value);
        var snapAt := ZERO_TIME;
        if snap.Some? {
          d := snap.value.debits;
          c := snap.value.credits;
          ver := snap.value.version;
          snapAt := snap.value.at;
        }
        var addD, addC := SumEntriesBetween(of, snapAt, asOf.value);
        d := d + addD;
        c := c + addC;
      } else {
        var r := ReadRow(of);
        d, c, ver := r.debits, r.credits, r.version;
      }
      return Ok(BalanceView(a.id, currency, d, c, NormalizedBalance(a.normalBalance, d, c), ver));
    }

    method InsertSnapshot(s: Snapshot)
      modifies this`snaps
      ensures snaps == old(snaps) + [s]
    {
      snaps := snaps + [s];
    }

    /** The tenant's balance rows, each once, all read at one moment. */
    method ListTenantBalances(tenant: string) returns (subjects: seq<BalanceId>, rows: map<BalanceId, Row>)
      modifies this`requests
      ensures rows == rowsAt(old(requests)) && requests == old(requests) + 1
      ensures forall b :: b in subjects <==> b in rows && b.tenant == tenant
      ensures forall i, j | 0 <= i < j < |subjects| :: subjects[i] != subjects[j]
    {
      rows := rowsAt(requests);
      requests := requests + 1;
      subjects := [];
      var left := set b | b in rows && b.tenant == tenant;
      while left != {}
        invariant forall b :: b in rows && b.tenant == tenant <==> b in subjects || b in left
        invariant forall b | b in subjects :: b !in left
        invariant forall i, j | 0 <= i < j < |subjects| :: subjects[i] != subjects[j]
      {
        var b :| b in left;
        subjects := subjects + [b];
        left := left - {b};
      }
    }

    /** TakeBalanceSnapshot: the clock is read first, the balances after it, whatever was posted in
        between: one balance, or every balance row of the tenant. */
    method TakeBalanceSnapshot(tenant: string, account: string, currency: string)
      returns (res: Result<nat>, ghost subjects: seq<BalanceId>)
      modifies this`snaps, this`issued, this`requests
      ensures tenant == "" ==> res == Err(AccountCurrencyMismatch) && snaps == old(snaps)
      ensures tenant != "" ==>
                var rows := rowsAt(old(requests) + 1);
                && res == Ok(|subjects|)
                && snaps == old(snaps) + Taken(rows, subjects, gen, old(issued), clockAt(old(requests)))
                && (if account != "" && currency != "" then subjects == [BalanceId(tenant, account, currency)]
                    else (forall b :: b in subjects <==> b in rows && b.tenant == tenant)
                         && forall i, j | 0 <= i < j < |subjects| :: subjects[i] != subjects[j])
    {
      subjects := [];
      if tenant == "" {
        return Err(AccountCurrencyMismatch), subjects;
      }
      var now := Now();
      if account != "" && currency != "" {
        var of := BalanceId(tenant, account, currency);
        subjects := [of];
        var r := ReadRow(of);
        var id := gen(issued);
        issued := issued + 1;
        InsertSnapshot(Snapshot(id, of, r.debits, r.credits, r.version, now));
        TakenOne(rowsAt(old(requests) + 1), of, gen, old(issued), now);
        return Ok(1), subjects;
      }
      var list, rows := ListTenantBalances(tenant);
      subjects := list;
      var taken := 0;
      for i := 0 to |list|
        invariant taken == i && issued == old(issued) + i
        invariant snaps == old(snaps) + Taken(rows, list[..i], gen, old(issued), now)
      {
        var id := gen(issued);
        issued := issued + 1;
        TakenNext(rows, list, gen, old(issued), now, i);
        var b := rows[list[i]];
        InsertSnapshot(Snapshot(id, list[i], b.debits, b.credits, b.version, now));
        taken := taken + 1;
      }
      assert list[..|list|] == list;
      return Ok(taken), subjects;
    }

    /** PruneSnapshotsOlderThan: the rows to delete are chosen against the table as it was, in no
        particular order, up to the limit. */
    method Prune(cutoff: int, limit: nat) returns (n: nat, ghost gone: set<string>)
      requires forall i, j | 0 <= i < j < |snaps| :: snaps[i].id != snaps[j].id
      modifies this`snaps
      ensures PruneChoice(old(snaps), gone, cutoff, limit)
      ensures snaps == Keep(old(snaps), gone) && n == |gone|
    {
      hide PruneChoice;
      var chosen := Choose(cutoff, limit);
      gone := chosen;
      n := |chosen|;
      var kept: seq<Snapshot> := [];
      for i := 0 to |snaps|
        invariant kept == Keep(snaps[..i], chosen)
      {
        assert snaps[..i + 1][..i] == snaps[..i];
        if snaps[i].id !in chosen {
          kept := kept + [snaps[i]];
        }
      }
      assert snaps[..|snaps|] == snaps;
      snaps := kept;
    }

    method Choose(cutoff: int, limit: nat) returns (chosen: set<string>)
      requires forall i, j | 0 <= i < j < |snaps| :: snaps[i].id != snaps[j].id
      ensures PruneChoice(snaps, chosen, cutoff, limit)
    {
      hide Prunable;
      var ids := PrunableIds(cutoff);
      var left := ids;
      chosen := {};
      while left != {} && |chosen| < limit
        invariant |chosen| <= limit && left !! chosen && left + chosen == ids
        decreases left
      {
        var id :| id in left;
        left := left - {id};
        chosen := chosen + {id};
      }
      assert chosen <= ids;
    }

    method PrunableIds(cutoff: int) returns (ids: set<string>)
      requires forall i, j | 0 <= i < j < |snaps| :: snaps[i].id != snaps[j].id
      ensures forall s | s in snaps :: Prunable(snaps, s, cutoff) <==> s.id in ids
      ensures forall id | id in ids :: exists s :: s in snaps && s.id == id
    {
      ids := {};
      for i := 0 to |snaps|
        invariant forall j | 0 <= j < i :: Prunable(snaps, snaps[j], cutoff) <==> snaps[j].id in ids
        invariant forall id | id in ids :: exists j :: 0 <= j < i && snaps[j].id == id
      {
        var newer := HasNewer(snaps[i]);
        if snaps[i].at < cutoff && newer {
          ids := ids + {snaps[i].id};
        }
      }
    }

    method HasNewer(s: Snapshot) returns (newer: bool)
      ensures newer <==> exists s' :: s' in snaps && s'.of == s.of && s'.at > s.at
    {
      for i := 0 to |snaps|
        invariant forall j | 0 <= j < i :: !(snaps[j].of == s.of && snaps[j].at > s.at)
      {
        if snaps[i].of == s.of && snaps[i].at > s.at {
          return true;
        }
      }
      return false;
    }
  }
}
