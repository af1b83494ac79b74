/** Locks of the SQL backends: handlers lock the reservation row first, then the flow's key, then the balance
    rows in their fixed order, then the event ids in step order, and keep all of them to the end. Nobody waits
    in a circle as long as every flow names its events in ascending order, and otherwise somebody can. */
module Locks {
  import opened Ledger
  import opened Ordering
  import opened Handlers

  /** A row lock, or the entry of a unique index that an insert waits on. Event ids, flow keys and
      reservation keys are unique across tenants. */
  datatype Lock =
    | ReservationRow(tenant: string, id: string)
    | FlowKey(key: string)
    | BalanceRow(tenant: string, ref: BalRef)
    | EventKey(key: string)
    | ReservationKey(key: string)

  function Level(l: Lock): nat {
    match l
    case ReservationRow(_, _) => 0
    case FlowKey(_) => 1
    case BalanceRow(_, _) => 2
    case EventKey(_) => 3
    case ReservationKey(_) => 4
  }

  predicate Before(x: Lock, y: Lock) {
    if Level(x) != Level(y) then Level(x) < Level(y)
    else
      match x
      case ReservationRow(tenant, id) =>
        y.ReservationRow? && if tenant != y.tenant then StrLess(tenant, y.tenant) else StrLess(id, y.id)
      case BalanceRow(tenant, ref) =>
        y.BalanceRow? && if tenant != y.tenant then StrLess(tenant, y.tenant) else RefLess(ref, y.ref)
      case _ => !y.ReservationRow? && !y.BalanceRow? && StrLess(x.key, y.key)
  }

  lemma {:induction false} BeforeIrreflexive(x: Lock)
    ensures !Before(x, x)
  {
    match x
    case ReservationRow(_, id) => StrIrreflexive(id);
    case BalanceRow(_, ref) => RefOrder(ref, ref, ref);
    case _ => StrIrreflexive(x.key);
  }

  lemma {:induction false} BeforeTransitive(x: Lock, y: Lock, z: Lock)
    ensures Before(x, y) && Before(y, z) ==> Before(x, z)
  {
    if Before(x, y) && Before(y, z) && Level(x) == Level(z) {
      if x.ReservationRow? || x.BalanceRow? {
        if x.tenant != y.tenant && y.tenant != z.tenant {
          StrTransitive(x.tenant, y.tenant, z.tenant);
          StrIrreflexive(x.tenant);
        } else if x.tenant == y.tenant == z.tenant {
          if x.ReservationRow? {
            StrTransitive(x.id, y.id, z.id);
          } else {
            RefOrder(x.ref, y.ref, z.ref);
          }
        }
      } else {
        StrTransitive(x.key, y.key, z.key);
      }
    }
  }

  // ------------------------------------------------------------------------------------------
  // What a handler locks
  // ------------------------------------------------------------------------------------------

  function BalanceRows(tenant: string, refs: seq<BalRef>): (ls: seq<Lock>)
    ensures |ls| == |refs| && forall i | 0 <= i < |refs| :: ls[i] == BalanceRow(tenant, refs[i])
  {
    seq(|refs|, i requires 0 <= i < |refs| => BalanceRow(tenant, refs[i]))
  }

  function EventKeys(steps: seq<StepInput>): (ls: seq<Lock>)
    ensures |ls| == |steps| && forall i | 0 <= i < |steps| :: ls[i] == EventKey(steps[i].eventId)
  {
    seq(|steps|, i requires 0 <= i < |steps| => EventKey(steps[i].eventId))
  }

  /** Which rows frame a handler's flow: a commit, release or expiry locks its reservation first, a creation
      inserts its reservation key last. */
  datatype Frame = Plain | Held(id: string) | Creates(key: string)

  /** The locks of a handler in the order it takes them. */
  function Plan(frame: Frame, fr: FlowReq): seq<Lock> {
    (if frame.Held? then [ReservationRow(fr.tenant, frame.id)] else [])
    + [FlowKey(fr.key)]
    + BalanceRows(fr.tenant, RefsOf(fr))
    + EventKeys(fr.steps)
    + (if frame.Creates? then [ReservationKey(frame.key)] else [])
  }

  /** Where a flow's own locks start in the plan. */
  function Head(frame: Frame): nat {
    if frame.Held? then 1 else 0
  }

  lemma {:induction false} PlanIs(frame: Frame, fr: FlowReq)
    ensures var p := Plan(frame, fr); var h := Head(frame); var n := |RefsOf(fr)|;
            && |p| == h + 1 + n + |fr.steps| + (if frame.Creates? then 1 else 0)
            && (frame.Held? ==> p[0] == ReservationRow(fr.tenant, frame.id))
            && p[h] == FlowKey(fr.key)
            && (forall i | h + 1 <= i < h + 1 + n :: p[i] == BalanceRow(fr.tenant, RefsOf(fr)[i - h - 1]))
            && (forall i | h + 1 + n <= i < h + 1 + n + |fr.steps| :: p[i] == EventKey(fr.steps[i - h - 1 - n].eventId))
            && (frame.Creates? ==> p[|p| - 1] == ReservationKey(frame.key))
  {
    hide RefsOf;
  }

  ghost predicate Ascending(ls: seq<Lock>) {
    forall i, j | 0 <= i < j < |ls| :: Before(ls[i], ls[j])
  }

  /** The steps name their events in ascending order. A flow of one step always does, so all reservation
      handlers do. */
  ghost predicate EventsAscend(fr: FlowReq) {
    forall i, j | 0 <= i < j < |fr.steps| :: StrLess(fr.steps[i].eventId, fr.steps[j].eventId)
  }

  /** A handler takes its locks in the global order exactly when its events ascend. */
  lemma {:induction false} PlanAscendsIff(frame: Frame, fr: FlowReq)
    ensures Ascending(Plan(frame, fr)) <==> EventsAscend(fr)
  {
    hide RefLess, StrLess, Refs, AllEntries, Plan, RefsOf;
    PlanIs(frame, fr);
    RefsIncrease(fr);
    var p, h, n := Plan(frame, fr), Head(frame), |RefsOf(fr)|;
    if EventsAscend(fr) {
      forall i, j | 0 <= i < j < |p| ensures Before(p[i], p[j]) {
      }
    }
    if Ascending(p) {
      forall i, j | 0 <= i < j < |fr.steps| ensures StrLess(fr.steps[i].eventId, fr.steps[j].eventId) {
        assert Before(p[h + 1 + n + i], p[h + 1 + n + j]);
      }
    }
  }

  lemma {:induction false} RefsIncrease(fr: FlowReq)
    ensures Increasing(RefsOf(fr))
  {
    RefsSorted(AllEntries(fr.steps));
  }

  // ------------------------------------------------------------------------------------------
  // Lock states
  // ------------------------------------------------------------------------------------------

  /** A transaction holds the first `got` locks of its plan. */
  datatype Holder = Holder(plan: seq<Lock>, got: nat)

  type Table = map<nat, Holder>

  predicate Holds(t: Table, id: nat, l: Lock) {
    id in t && t[id].got <= |t[id].plan| && l in t[id].plan[..t[id].got]
  }

  datatype Action = Begin(id: nat, frame: Frame, fr: FlowReq) | Acquire(id: nat) | Finish(id: nat)

  /** A lock can be taken when nobody else holds it; a transaction may end, by commit or rollback, at any
      time. */
  ghost predicate Enabled(t: Table, a: Action) {
    match a
    case Begin(id, _, _) => id !in t
    case Acquire(id) =>
      id in t && t[id].got < |t[id].plan| && forall other :: other != id ==> !Holds(t, other, t[id].plan[t[id].got])
    case Finish(id) => id in t
  }

  function Do(t: Table, a: Action): Table {
    match a
    case Begin(id, frame, fr) => t[id := Holder(Plan(frame, fr), 0)]
    case Acquire(id) => if id in t then t[id := t[id].(got := t[id].got + 1)] else t
    case Finish(id) => t - {id}
  }

  ghost predicate LocksOk(t: Table) {
    && (forall id | id in t :: t[id].got <= |t[id].plan| && Ascending(t[id].plan))
    && (forall x, y, l | Holds(t, x, l) && Holds(t, y, l) :: x == y)
  }

  lemma {:induction false} DoKeepsLocks(t: Table, a: Action)
    requires LocksOk(t) && Enabled(t, a) && (a.Begin? ==> EventsAscend(a.fr))
    ensures LocksOk(Do(t, a))
  {
    hide Ascending, Plan, EventsAscend;
    var u := Do(t, a);
    match a
    case Begin(id, frame, fr) =>
      PlanAscendsIff(frame, fr);
      forall x, l | Holds(u, x, l) ensures Holds(t, x, l) {
      }
    case Acquire(id) =>
      forall x, l | Holds(u, x, l) ensures Holds(t, x, l) || (x == id && l == t[id].plan[t[id].got]) {
        if x == id {
          assert t[id].plan[..t[id].got + 1] == t[id].plan[..t[id].got] + [t[id].plan[t[id].got]];
        }
      }
    case Finish(id) =>
      forall x, l | Holds(u, x, l) ensures Holds(t, x, l) {
      }
  }

  /** `x` cannot go on because `y` holds the lock it needs next. */
  ghost predicate Waits(t: Table, x: nat, y: nat) {
    x in t && x != y && t[x].got < |t[x].plan| && Holds(t, y, t[x].plan[t[x].got])
  }

  function Next(t: Table, x: nat): Lock
    requires x in t && t[x].got < |t[x].plan|
  {
    t[x].plan[t[x].got]
  }

  /** Whoever holds a lock waits, if at all, for a later one. */
  lemma {:induction false} WaitsUpwards(t: Table, x: nat, y: nat)
    requires LocksOk(t) && Waits(t, x, y) && y in t && t[y].got < |t[y].plan|
    ensures Before(Next(t, x), Next(t, y))
  {
    hide Before;
    var i :| 0 <= i < t[y].got && t[y].plan[i] == Next(t, x);
  }

  /** Each transaction of the circle waits for the one after it, the last for the first. */
  ghost predicate Circle(t: Table, c: seq<nat>) {
    c != [] && (forall i | 0 <= i < |c| - 1 :: Waits(t, c[i], c[i + 1])) && Waits(t, c[|c| - 1], c[0])
  }

  lemma {:induction false} Climb(t: Table, c: seq<nat>, i: nat)
    requires LocksOk(t) && 0 < i < |c| && (forall k | 0 <= k < |c| - 1 :: Waits(t, c[k], c[k + 1]))
    requires forall k | 0 <= k < |c| :: c[k] in t && t[c[k]].got < |t[c[k]].plan|
    ensures Before(Next(t, c[0]), Next(t, c[i]))
  {
    hide Before, LocksOk;
    WaitsUpwards(t, c[i - 1], c[i]);
    if i > 1 {
      Climb(t, c, i - 1);
      BeforeTransitive(Next(t, c[0]), Next(t, c[i - 1]), Next(t, c[i]));
    }
  }

  /** No circle of waiting transactions exists. */
  lemma {:induction false} NoCircle(t: Table, c: seq<nat>)
    requires LocksOk(t)
    ensures !Circle(t, c)
  {
    hide Before, LocksOk;
    if Circle(t, c) {
      var n := |c| - 1;
      forall k | 0 <= k < |c| ensures c[k] in t && t[c[k]].got < |t[c[k]].plan| {
        assert k < n ==> Waits(t, c[k], c[k + 1]);
      }
      if n > 0 {
        WaitsUpwards(t, c[n], c[0]);
        Climb(t, c, n);
        BeforeTransitive(Next(t, c[0]), Next(t, c[n]), Next(t, c[0]));
        BeforeIrreflexive(Next(t, c[0]));
      }
    }
  }

  // ------------------------------------------------------------------------------------------
  // Runs
  // ------------------------------------------------------------------------------------------

  ghost function Run(actions: seq<Action>): Option<Table> {
    if actions == [] then Some(map[])
    else
      var t := Run(actions[..|actions| - 1]);
      var a := actions[|actions| - 1];
      if t.Some? && Enabled(t.value, a) then Some(Do(t.value, a)) else None
  }

  /** Every flow begun in the run names its events in ascending order, except perhaps `odd`. */
  ghost predicate InOrder(actions: seq<Action>, odd: Option<FlowReq>) {
    forall a | a in actions && a.Begin? :: EventsAscend(a.fr) || (odd.Some? && a.fr == odd.value)
  }

  lemma {:induction false} RunKeepsLocks(actions: seq<Action>)
    requires Run(actions).Some? && InOrder(actions, None)
    ensures LocksOk(Run(actions).value)
  {
    hide LocksOk, Enabled, Do, EventsAscend;
    if actions == [] {
      NobodyHolds();
    } else {
      RunKeepsLocks(actions[..|actions| - 1]);
      DoKeepsLocks(Run(actions[..|actions| - 1]).value, actions[|actions| - 1]);
    }
  }

  lemma {:induction false} NobodyHolds()
    ensures LocksOk(map[])
  {
  }

  /** Handlers whose flows name their events in ascending order never deadlock. */
  lemma {:induction false} NeverDeadlocked(actions: seq<Action>, c: seq<nat>)
    requires Run(actions).Some? && InOrder(actions, None)
    ensures !Circle(Run(actions).value, c)
  {
    hide Run, InOrder, Circle, LocksOk;
    RunKeepsLocks(actions);
    NoCircle(Run(actions).value, c);
  }

  /** Among any transactions still short of locks, one waits for none of the others. */
  lemma {:induction false} SomeoneProceeds(t: Table, s: set<nat>) returns (x: nat)
    requires LocksOk(t) && s != {} && forall id | id in s :: id in t && t[id].got < |t[id].plan|
    ensures x in s && forall y | y in s :: !Waits(t, x, y)
  {
    x := Topmost(t, s);
    forall y | y in s ensures !Waits(t, x, y) {
      if Waits(t, x, y) {
        WaitsUpwards(t, x, y);
      }
    }
  }

  /** As long as transactions are open, one of them has all its locks or can take its next one. */
  lemma {:induction false} Progress(t: Table) returns (x: nat)
    requires LocksOk(t) && t != map[]
    ensures x in t && (t[x].got == |t[x].plan| || Enabled(t, Acquire(x)))
  {
    if id :| id in t && t[id].got == |t[id].plan| {
      x := id;
    } else {
      var s := t.Keys;
      assert s != {} by {
        assert exists id :: id in t;
      }
      x := SomeoneProceeds(t, s);
      forall other | other != x ensures !Holds(t, other, t[x].plan[t[x].got]) {
        assert other in t ==> !Waits(t, x, other);
      }
    }
  }

  lemma {:induction false} Topmost(t: Table, s: set<nat>) returns (x: nat)
    requires s != {} && forall id | id in s :: id in t && t[id].got < |t[id].plan|
    ensures x in s && forall y | y in s :: !Before(Next(t, x), Next(t, y))
    decreases |s|
  {
    hide Before;
    var y :| y in s;
    var rest := s - {y};
    if rest == {} {
      x := y;
      assert s == {y};
      BeforeIrreflexive(Next(t, y));
    } else {
      var z := Topmost(t, rest);
      x := if Before(Next(t, z), Next(t, y)) then y else z;
      forall w | w in s ensures !Before(Next(t, x), Next(t, w)) {
        BeforeIrreflexive(Next(t, y));
        BeforeTransitive(Next(t, z), Next(t, y), Next(t, w));
      }
    }
  }

  // ------------------------------------------------------------------------------------------
  // Events out of order
  // ------------------------------------------------------------------------------------------

  /** A transaction takes its next `n` locks when nobody else holds them. */
  lemma {:induction false} AcquireMany(actions: seq<Action>, id: nat, n: nat) returns (longer: seq<Action>)
    requires Run(actions).Some?
    requires var t := Run(actions).value;
             && id in t && t[id].got == 0 && n <= |t[id].plan|
             && forall other, l | other != id && l in t[id].plan[..n] :: !Holds(t, other, l)
    ensures Run(longer).Some? && Run(longer).value == Run(actions).value[id := Holder(Run(actions).value[id].plan, n)]
    ensures forall a | a in longer :: a in actions || a.Acquire?
  {
    var t := Run(actions).value;
    if n == 0 {
      longer := actions;
      assert t == t[id := t[id]];
    } else {
      assert forall l | l in t[id].plan[..n - 1] :: l in t[id].plan[..n];
      var shorter := AcquireMany(actions, id, n - 1);
      var s := Run(shorter).value;
      longer := shorter + [Acquire(id)];
      var l := t[id].plan[n - 1];
      assert l in t[id].plan[..n];
      forall other | other != id ensures !Holds(s, other, l) {
        assert !Holds(t, other, l);
      }
      assert longer[..|longer| - 1] == shorter;
    }
  }

  /** A flow of another tenant, with balanced journals, that names the two events the other way round. */
  function Partner(fr: FlowReq, first: string, second: string): FlowReq {
    FlowReq(fr.tenant + "x", fr.flowType, fr.key + "x",
      Transfer("1", first, "a", "b", "USD", 1) + Transfer("2", second, "a", "b", "USD", 1))
  }

  lemma {:induction false} PartnerAscends(fr: FlowReq, first: string, second: string)
    requires StrLess(first, second)
    ensures EventsAscend(Partner(fr, first, second))
  {
    hide StrLess;
  }

  /** Two neighbouring events out of order deadlock with a flow that has them in order: each transaction
      inserts the event the other one needs next. */
  lemma {:induction false} SwappedEventsDeadlock(fr: FlowReq, i: nat) returns (actions: seq<Action>)
    requires i + 1 < |fr.steps| && StrLess(fr.steps[i + 1].eventId, fr.steps[i].eventId)
    requires forall k | 0 <= k <= i :: fr.steps[k].eventId != fr.steps[i + 1].eventId
    ensures Run(actions).Some? && InOrder(actions, Some(fr)) && Circle(Run(actions).value, [0, 1])
  {
    hide StrLess, RefsOf, Plan, EventsAscend;
    var x, y := fr.steps[i].eventId, fr.steps[i + 1].eventId;
    var other := Partner(fr, y, x);
    PartnerAscends(fr, y, x);
    PlanIs(Plain, fr);
    PlanIs(Plain, other);
    var p, q := Plan(Plain, fr), Plan(Plain, other);
    var n, m := |RefsOf(fr)| + i + 2, |RefsOf(other)| + 2;
    assert p[n - 1] == EventKey(x) && p[n] == EventKey(y) && q[m - 1] == EventKey(y) && q[m] == EventKey(x);
    var one := BeginAlone(fr, n);
    actions := BeginSecond(one, p, n, other, m);
    var t := Run(actions).value;
    assert p[n - 1] in p[..n] && q[m - 1] in q[..m];
    assert Waits(t, 0, 1) && Waits(t, 1, 0);
  }

  lemma {:induction false} BeginAlone(fr: FlowReq, n: nat) returns (actions: seq<Action>)
    requires n <= |Plan(Plain, fr)|
    ensures Run(actions).Some? && Run(actions).value == map[0 := Holder(Plan(Plain, fr), n)]
    ensures forall a | a in actions && a.Begin? :: a.fr == fr
  {
    hide Plan;
    var begin := [Begin(0, Plain, fr)];
    assert begin[..0] == [];
    assert Run(begin) == Some(map[0 := Holder(Plan(Plain, fr), 0)]);
    actions := AcquireMany(begin, 0, n);
  }

  lemma {:induction false} BeginSecond(before: seq<Action>, p: seq<Lock>, n: nat, other: FlowReq, m: nat)
      returns (actions: seq<Action>)
    requires Run(before) == Some(map[0 := Holder(p, n)]) && n <= |p| && m <= |Plan(Plain, other)|
    requires forall l | l in Plan(Plain, other)[..m] :: l !in p[..n]
    ensures Run(actions) == Some(map[0 := Holder(p, n), 1 := Holder(Plan(Plain, other), m)])
    ensures forall a | a in actions && a.Begin? :: a in before || a.fr == other
  {
    hide Plan;
    var begin := before + [Begin(1, Plain, other)];
    assert begin[..|begin| - 1] == before;
    assert Run(begin) == Some(map[0 := Holder(p, n), 1 := Holder(Plan(Plain, other), 0)]);
    actions := AcquireMany(begin, 1, m);
    var q := Plan(Plain, other);
    assert map[0 := Holder(p, n), 1 := Holder(q, 0)][1 := Holder(q, m)] == map[0 := Holder(p, n), 1 := Holder(q, m)];
  }

  /** Distinct events that do not ascend have neighbours out of order. */
  lemma {:induction false} Descent(fr: FlowReq, n: nat) returns (i: nat)
    requires n <= |fr.steps| && !EventsAscend(fr.(steps := fr.steps[..n]))
    requires forall j, k | 0 <= j < k < |fr.steps| :: fr.steps[j].eventId != fr.steps[k].eventId
    ensures i + 1 < |fr.steps| && StrLess(fr.steps[i + 1].eventId, fr.steps[i].eventId)
  {
    hide StrLess;
    if !EventsAscend(fr.(steps := fr.steps[..n - 1])) {
      i := Descent(fr, n - 1);
    } else {
      i := n - 2;
      StrTotal(fr.steps[i].eventId, fr.steps[i + 1].eventId);
      if StrLess(fr.steps[i].eventId, fr.steps[i + 1].eventId) {
        var shorter, longer := fr.steps[..n - 1], fr.steps[..n];
        forall j, k | 0 <= j < k < n ensures StrLess(longer[j].eventId, longer[k].eventId) {
          if k <= i {
            assert StrLess(shorter[j].eventId, shorter[k].eventId);
          } else if j < i {
            assert StrLess(shorter[j].eventId, shorter[i].eventId);
            StrTransitive(fr.steps[j].eventId, fr.steps[i].eventId, fr.steps[i + 1].eventId);
          }
        }
      }
    }
  }

  /** A flow with distinct events can be caught in a deadlock with flows in ascending order exactly when its
      own events do not ascend. */
  lemma {:induction false} DeadlockIff(fr: FlowReq)
    requires forall j, k | 0 <= j < k < |fr.steps| :: fr.steps[j].eventId != fr.steps[k].eventId
    ensures (exists actions, c :: Run(actions).Some? && InOrder(actions, Some(fr)) && Circle(Run(actions).value, c))
            <==> !EventsAscend(fr)
  {
    hide EventsAscend, Run, Circle, StrLess;
    if EventsAscend(fr) {
      forall actions, c | Run(actions).Some? && InOrder(actions, Some(fr)) ensures !Circle(Run(actions).value, c) {
        NeverDeadlocked(actions, c);
      }
    } else {
      assert fr.(steps := fr.steps[..|fr.steps|]) == fr;
      var i := Descent(fr, |fr.steps|);
      var actions := SwappedEventsDeadlock(fr, i);
    }
  }
}
