/** Concrete runs from an empty table, in which a client creates accounts, funds one, reserves 10 and commits
    4. They show what the handlers do not prevent: a re-sent commit, and a commit into the held account itself,
    book their amount without moving money, and a commit that read its reservation before another one emptied it
    fails for insufficient funds. */
module Scenario {
  import opened Ledger
  import opened Keys
  import opened Items
  import opened Ordering
  import opened Handlers
  import opened Writes
  import opened Reads
  import opened Protocol
  import opened Serializability
  import opened Atomic
  import opened Effects
  import opened Completeness
  import opened Reachable
  import opened Holds
  import opened Reserved
  import opened Stages

  // ------------------------------------------------------------------------------------------
  // The story
  // ------------------------------------------------------------------------------------------

  const FUND := Request.ExecuteFlow(FlowReq("t", "FUND", "fund",
      Transfer("fund", "funded", IdOf(CASH), IdOf(BANK), "USD", 10)))
  const RESERVE := CreateReservation("t", "rsv", IdOf(CASH), IdOf(HELD), "USD", 10, None)

  function Commit(id: string, key: string, destination: Request, amount: int): Request
    requires destination.CreateAccount?
  {
    CommitReservation("t", id, key, IdOf(destination), amount)
  }

  function Turn(gen: nat -> string, i: nat): Env {
    Env(gen, DRAWS * i, 0)
  }

  /** The run `actions` has come to `t`, with nobody in flight. */
  ghost predicate Reached(actions: seq<Action>, t: Table) {
    Run(map[], actions).Some? && Run(map[], actions).value.table == t && Run(map[], actions).value.live == map[]
  }

  lemma {:induction false} ReachStep(actions: seq<Action>, t: Table, u: Table, r: Request, env: Env)
      returns (longer: seq<Action>)
    requires Reached(actions, t) && Takes(r, env, t, u)
    ensures Reached(longer, u)
    ensures var h, h' := Run(map[], actions).value.history, Run(map[], longer).value.history;
            |h'| == |h| + 1 && h'[..|h|] == h && h'[|h|].req == r
  {
    hide Run, Alone, Sound;
    TakesParts(r, env, t, u);
    longer := AloneIsRun(map[], actions, 0, r, env);
  }

  lemma {:induction false} KeepsInvariants(r: Request, env: Env, t: Table, u: Table)
    requires Takes(r, env, t, u) && Injective(env.gen) && LedgerInv(t) && HoldsOk(t)
    ensures LedgerInv(u) && HoldsOk(u)
  {
    hide Takes, LedgerInv, HoldOk;
    TakesKeepsSound(r, env, t, u);
    StepLedger(r, env, t, u);
    forall k ensures HoldOk(u, k) {
      StepHold(r, env, t, u, k);
    }
  }

  /** One more account, with its row in place and all earlier ones kept. */
  lemma {:induction false} OpenAccount(r: Request, env: Env, t: Table, actions: seq<Action>)
      returns (u: Table, longer: seq<Action>)
    requires r.CreateAccount? && Injective(env.gen) && LedgerInv(t) && HoldsOk(t) && OnlyAccounts(t)
        && Reached(actions, t)
    requires AccK(r.tenant, IdOf(r)) !in t && AccUK(r.tenant, r.ownerType, r.ownerId, r.accountType, r.currency) !in t
    ensures LedgerInv(u) && HoldsOk(u) && OnlyAccounts(u) && Reached(longer, u) && HasAccount(u, r)
    ensures u.Keys == t.Keys + {AccK(r.tenant, IdOf(r)),
        AccUK(r.tenant, r.ownerType, r.ownerId, r.accountType, r.currency)}
    ensures forall a: Request | a.CreateAccount? && HasAccount(t, a) :: HasAccount(u, a)
  {
    hide Takes, LedgerInv, HoldsOk, Reached, IdOf, OnlyAccounts;
    LedgerIsSound(t);
    u := AccountCommits(r, env, t);
    KeepsInvariants(r, env, t, u);
    longer := ReachStep(actions, t, u, r, env);
    forall a: Request | a.CreateAccount? && HasAccount(t, a) ensures HasAccount(u, a) {
      AccountStays(r, env, t, u, a);
    }
  }

  lemma {:induction false} AccountStays(r: Request, env: Env, t: Table, u: Table, a: Request)
    requires Takes(r, env, t, u) && a.CreateAccount? && HasAccount(t, a)
    ensures HasAccount(u, a)
  {
    hide Takes, AccountId;
    StepAccount(r, env, t, u, NewAccount(a).tenantId, IdOf(a));
  }

  lemma {:induction false} NothingReached()
    ensures Reached([], map[]) && LedgerInv(map[]) && HoldsOk(map[]) && OnlyAccounts(map[])
  {
    hide LedgerInv;
    EmptyLedger();
  }

  lemma {:induction false} NothingPosted(t: Table, ref: BalRef)
    requires OnlyAccounts(t)
    ensures Position(t, "t", ref) == 0 && Outstanding(t, "t", ref) == 0
  {
    hide Sums.SumOver;
    Sums.SumZero(t.Keys, (k: Key) => OutstandingAt(t, k, "t", ref));
  }

  lemma {:induction false} Opening(gen: nat -> string) returns (t: Table, actions: seq<Action>)
    requires Injective(gen)
    ensures Stage(t, gen, 0, {}, {}, {}) && Reached(actions, t) && OnlyAccounts(t)
  {
    hide LedgerInv, HoldsOk, Reached, IdOf, HasAccount, Injective;
    NothingReached();
    FourAccounts();
    var env := Turn(gen, 0);
    var t1, a1 := OpenAccount(CASH, env, map[], []);
    var t2, a2 := OpenAccount(HELD, env, t1, a1);
    var t3, a3 := OpenAccount(SHOP, env, t2, a2);
    t, actions := OpenAccount(BANK, env, t3, a3);
  }

  /** Where the money of the held account stands. */
  ghost predicate Holding(t: Table, money: int, outstanding: int) {
    Position(t, "t", RefTo(HELD)) == money && Outstanding(t, "t", RefTo(HELD)) == outstanding
  }

  lemma {:induction false} Funded(gen: nat -> string) returns (t: Table, actions: seq<Action>)
    requires Injective(gen)
    ensures Stage(t, gen, DRAWS, {"fund"}, {"funded"}, {}) && Reached(actions, t)
    ensures Position(t, "t", RefTo(CASH)) == 10 && Holding(t, 0, 0)
  {
    hide Stage, Reached, OnlyAccounts, Injective, Takes, NextPost, Position, Outstanding, IdOf, PostedBy, FlowSpec;
    var t0, a0 := Opening(gen);
    var env := Turn(gen, 0);
    NothingPosted(t0, RefTo(CASH));
    NothingPosted(t0, RefTo(HELD));
    FourAccounts();
    FundTransfers();
    TransferIsNext(FUND, env, t0, FUND.flow, None, CASH, BANK, 10, {}, {}, {});
    t := Committed(FUND, env, t0, {}, {}, {});
    actions := ReachStep(a0, t0, t, FUND, env);
    FundEffect(env, t0, t);
    var none: set<string> := {};
    assert none + {"fund"} == {"fund"} && none + {"funded"} == {"funded"} && none + MarksOf(FUND) == {};
  }

  lemma {:induction false} FundTransfers()
    ensures Transfers(FUND.flow, RefTo(CASH), RefTo(BANK), 10)
    ensures Parsed(FUND.flow).key == "fund" && Parsed(FUND.flow).steps[0].eventId == "funded"
  {
    hide IdOf;
  }

  /** A posting commits, and moves the stage. */
  lemma {:induction false} Committed(r: Request, env: Env, t: Table, keys: set<string>, events: set<string>,
      marks: set<string>) returns (u: Table)
    requires Stage(t, env.gen, env.base, keys, events, marks) && Injective(env.gen) && !r.CreateAccount?
    requires NextPost(r, env, t, keys, events, marks)
    ensures Takes(r, env, t, u)
    ensures var fr := PostedBy(r, env, t).value;
            Stage(u, env.gen, env.base + DRAWS, keys + {fr.key}, events + {fr.steps[0].eventId}, marks + MarksOf(r))
  {
    hide Takes, NextPost, LedgerInv, HoldsOk, HasAccounts, At, PostedBy;
    StageAccount(t, CASH, env.gen, env.base, keys, events, marks);
    u := PostCommits(r, env, t, keys, events, marks);
    StageMoves(r, env, t, u, keys, events, marks);
  }

  lemma {:induction false} FundEffect(env: Env, t: Table, u: Table)
    requires Takes(FUND, env, t, u) && PostedBy(FUND, env, t) == Some(Parsed(FUND.flow))
    requires Position(t, "t", RefTo(CASH)) == 0 && Holding(t, 0, 0)
    ensures Position(u, "t", RefTo(CASH)) == 10 && Holding(u, 0, 0)
  {
    hide Takes, PostedBy, Position, Outstanding, IdOf, Sum, AllEntries, RefsOf, ParseSteps, Transfers;
    FourAccounts();
    FundTransfers();
    TransferParsed(FUND.flow, RefTo(CASH), RefTo(BANK), 10);
    StepPosition(FUND, env, t, u, "t", RefTo(CASH));
    StepPosition(FUND, env, t, u, "t", RefTo(HELD));
    TransferSums(Parsed(FUND.flow), RefTo(CASH), RefTo(BANK), 10, RefTo(CASH));
    TransferSums(Parsed(FUND.flow), RefTo(CASH), RefTo(BANK), 10, RefTo(HELD));
    StepOutstanding(FUND, env, t, u, "t", RefTo(HELD));
    FundHasNoSubject(env, t);
  }

  lemma {:induction false} FundHasNoSubject(env: Env, t: Table)
    ensures Subject(FUND, env, t) == None
  {
    hide FlowSpec, IdOf;
  }

  /** The reservation row, as the story needs it. */
  predicate RowAt(t: Table, id: string, outstanding: int, version: int) {
    && ResK("t", id) in t && t[ResK("t", id)].ResItem?
    && t[ResK("t", id)].resVersion == version
    && var res := t[ResK("t", id)].reservation;
       && res.id == id && res.tenantId == "t" && ReservedRef(res) == RefTo(HELD) && res.outstanding == outstanding
       && !Closed(res.status)
  }

  /** 10 reserved. */
  lemma {:induction false} ReservedTen(gen: nat -> string) returns (t: Table, actions: seq<Action>, id: string)
    requires Injective(gen)
    ensures Stage(t, gen, 2 * DRAWS, {"fund", "rsv:create"}, {"funded", "rsv:reserve"}, {"rsv"}) && Reached(actions, t)
    ensures Holding(t, 10, 10) && RowAt(t, id, 10, 1)
  {
    hide Stage, Reached, Injective, Takes, NextPost, Position, Outstanding, IdOf, PostedBy, FlowSpec, RowAt;
    var t0, a0 := Funded(gen);
    var env := Turn(gen, 1);
    var keys, events, marks := {"fund"}, {"funded"}, {};
    ReserveWay(t0, gen, env.base, keys, events, marks);
    TransferIsNext(RESERVE, env, t0, CreateFlow(RESERVE), None, HELD, CASH, 10, keys, events, marks);
    t := Committed(RESERVE, env, t0, keys, events, marks);
    actions := ReachStep(a0, t0, t, RESERVE, env);
    id := ReserveEffect(env, t0, t);
    assert keys + {"rsv:create"} == {"fund", "rsv:create"} && events + {"rsv:reserve"} == {"funded", "rsv:reserve"};
    assert marks + MarksOf(RESERVE) == {"rsv"};
  }

  lemma {:induction false} ReserveWay(t: Table, gen: nat -> string, n: nat, keys: set<string>, events: set<string>,
      marks: set<string>)
    requires Stage(t, gen, n, keys, events, marks) && "rsv" !in marks
    ensures WayOf(RESERVE, t) == Flows(CreateFlow(RESERVE), None)
    ensures Transfers(CreateFlow(RESERVE), RefTo(HELD), RefTo(CASH), 10)
    ensures CreateFlow(RESERVE).key == "rsv:create" && CreateFlow(RESERVE).steps[0].eventId == "rsv:reserve"
    ensures Parsed(CreateFlow(RESERVE)).key == "rsv:create"
        && Parsed(CreateFlow(RESERVE)).steps[0].eventId == "rsv:reserve"
    ensures CreateFlow(RESERVE).tenant == "t"
  {
    hide IdOf, LedgerInv, HoldsOk, HasAccounts, IdOk;
    assert RIdempK("t", "rsv") in t ==> KeyOk(RIdempK("t", "rsv"), keys, events, marks);
    assert "rsv" + ":create" == "rsv:create" && "rsv" + ":reserve" == "rsv:reserve";
  }

  lemma {:induction false} ReserveEffect(env: Env, t: Table, u: Table) returns (id: string)
    requires Takes(RESERVE, env, t, u) && PostedBy(RESERVE, env, t).Some? && Holding(t, 0, 0)
    ensures Holding(u, 10, 10) && RowAt(u, id, 10, 1)
  {
    hide Takes, PostedBy, Position, Outstanding, IdOf, FlowSpec, WayOf, ParseAccountOwner;
    FourAccounts();
    StepReservation(RESERVE, env, t, u, ResK("", ""));
    var rsv := Created(RESERVE, env, t);
    id := rsv.id;
    StepReservation(RESERVE, env, t, u, ResK("t", id));
    StepMoney(RESERVE, env, t, u, "t", RefTo(HELD));
    StepOutstanding(RESERVE, env, t, u, "t", RefTo(HELD));
  }

  lemma {:induction false} CommitWay(t: Table, gen: nat -> string, n: nat, keys: set<string>, events: set<string>,
      marks: set<string>, id: string, key: string, destination: Request, amount: int, outstanding: int, version: int)
    requires Stage(t, gen, n, keys, events, marks) && RowAt(t, id, outstanding, version) && 0 < amount <= outstanding
    requires destination in {CASH, HELD, SHOP, BANK}
    ensures var r := Commit(id, key, destination, amount);
            var row := HeldRow(t[ResK("t", id)].reservation, version);
            var raw := CommitFlow(r, row.res, IdOf(destination));
            && WayOf(r, t) == Flows(raw, Some(row)) && RowOf(r, t) == Some(row)
            && Transfers(raw, RefTo(destination), RefTo(HELD), amount) && raw.tenant == "t"
            && raw.key == id + ":commit:" + key && raw.steps[0].eventId == id + ":commit:" + key
            && Parsed(raw).key == id + ":commit:" + key && Parsed(raw).steps[0].eventId == id + ":commit:" + key
            && Moved(r, t) == -amount
  {
    hide At, LedgerInv, HoldsOk, AccountId;
  }

  lemma {:induction false} CommitEffect(env: Env, t: Table, u: Table, id: string, key: string, amount: int,
      outstanding: int, version: int, money: int)
    requires var r := Commit(id, key, SHOP, amount);
             && Takes(r, env, t, u) && PostedBy(r, env, t).Some? && Moved(r, t) == -amount
    requires RowAt(t, id, outstanding, version) && Holding(t, money, outstanding)
    ensures Holding(u, money - amount, outstanding - amount)
    ensures amount < outstanding ==> RowAt(u, id, outstanding - amount, version + 1)
    ensures ResK("t", id) in u && u[ResK("t", id)].ResItem? && u[ResK("t", id)].resVersion == version + 1
  {
    hide Takes, PostedBy, Position, Outstanding, IdOf, FlowSpec, WayOf, ParseAccountOwner, Moved;
    var r := Commit(id, key, SHOP, amount);
    FourAccounts();
    StepReservation(r, env, t, u, ResK("t", id));
    StepMoney(r, env, t, u, "t", RefTo(HELD));
    StepOutstanding(r, env, t, u, "t", RefTo(HELD));
  }

  lemma {:induction false} EndsIn(id: string, key: string)
    requires key != ""
    ensures var s := id + ":commit:" + key; s != "" && s[|s| - 1] == key[|key| - 1]
  {
  }

  lemma {:induction false} NewKeys(id: string, key: string)
    requires key == "1" || key == "2" || key == "3"
    ensures id + ":commit:" + key !in {"fund", "rsv:create"} && id + ":commit:" + key !in {"funded", "rsv:reserve"}
    ensures key != "1" ==> id + ":commit:" + key != id + ":commit:1"
    ensures key != "3" ==> id + ":commit:" + key != id + ":commit:3"
  {
    EndsIn(id, key);
    EndsIn(id, "1");
    EndsIn(id, "3");
    assert "fund"[3] == 'd' && "rsv:create"[9] == 'e' && "funded"[5] == 'd' && "rsv:reserve"[10] == 'e';
  }

  /** 4 of them committed: 6 outstanding, 6 held. */
  lemma {:induction false} CommittedFour(gen: nat -> string)
      returns (t: Table, actions: seq<Action>, id: string, env: Env, before: Table)
    requires Injective(gen)
    ensures var k := id + ":commit:1";
            Stage(t, gen, 3 * DRAWS, {"fund", "rsv:create", k}, {"funded", "rsv:reserve", k}, {"rsv"})
              && Reached(actions, t)
    ensures Holding(t, 6, 6) && RowAt(t, id, 6, 2)
    ensures Takes(Commit(id, "1", SHOP, 4), env, before, t) && PostedBy(Commit(id, "1", SHOP, 4), env, before).Some?
    ensures PostedBy(Commit(id, "1", SHOP, 4), env, before).value.key == id + ":commit:1"
    ensures PostedBy(Commit(id, "1", SHOP, 4), env, before).value.tenant == "t"
    ensures var h := Run(map[], actions).value.history; h != [] && h[|h| - 1].req == Commit(id, "1", SHOP, 4)
  {
    hide Stage, Reached, Injective, Takes, NextPost, Position, Outstanding, IdOf, PostedBy, FlowSpec, RowAt, Run;
    var a0: seq<Action>;
    before, a0, id := ReservedTen(gen);
    env := Turn(gen, 2);
    var keys, events, marks := {"fund", "rsv:create"}, {"funded", "rsv:reserve"}, {"rsv"};
    var r := Commit(id, "1", SHOP, 4);
    var k := id + ":commit:1";
    CommitWay(before, gen, env.base, keys, events, marks, id, "1", SHOP, 4, 10, 1);
    NewKeys(id, "1");
    FourAccounts();
    RowReservation(before, id, 10, 1);
    TransferIsNext(r, env, before, WayOf(r, before).raw, WayOf(r, before).row, SHOP, HELD, 4, keys, events, marks);
    t := Committed(r, env, before, keys, events, marks);
    var fr := PostedBy(r, env, before).value;
    assert fr.key == k && fr.steps[0].eventId == k && env.base + DRAWS == 3 * DRAWS;
    assert Stage(t, gen, 3 * DRAWS, keys + {k}, events + {k}, marks + MarksOf(r));
    actions := ReachStep(a0, before, t, r, env);
    CommitEffect(env, before, t, id, "1", 4, 10, 1, 10);
    assert keys + {k} == {"fund", "rsv:create", k} && events + {k} == {"funded", "rsv:reserve", k}
      && marks + MarksOf(r) == marks;
    ReachedHistory(actions, t);
  }

  lemma {:induction false} ReachedHistory(actions: seq<Action>, t: Table)
    requires Reached(actions, t)
    ensures Run(map[], actions).Some? && Run(map[], actions).value.table == t && Run(map[], actions).value.live == map[]
  {
  }

  lemma {:induction false} RowReservation(t: Table, id: string, outstanding: int, version: int)
    requires RowAt(t, id, outstanding, version)
    ensures ResK("t", id) in t && t[ResK("t", id)].ResItem? && t[ResK("t", id)].resVersion == version
    ensures var res := t[ResK("t", id)].reservation;
            res.outstanding == outstanding && res.id == id && res.tenantId == "t" && ReservedRef(res) == RefTo(HELD)
  {
  }

  // ------------------------------------------------------------------------------------------
  // A re-sent commit
  // ------------------------------------------------------------------------------------------

  lemma {:induction false} KnownAfter(r: Request, env: Env, t: Table, u: Table)
    requires Takes(r, env, t, u) && PostedBy(r, env, t).Some?
    ensures var fr := PostedBy(r, env, t).value;
            KnownFlow(u, fr.tenant, fr.key) == Some(FlowItem(RunOf(env, fr, Completed), StepRows(env, fr, |fr.steps|)))
  {
    hide Takes, PostedBy, StepRows, RunOf;
    var fr := PostedBy(r, env, t).value;
    StepMarker(r, env, t, u, fr.tenant, fr.key);
    StepFlowRow(r, env, t, u, FlowK(fr.tenant, FlowId(env)));
  }

  /** In this run from an empty table the client commits 4 of 6 remaining and sends the same call again. It
      succeeds, books 4 more and moves nothing: every ledger and reservation invariant still holds, but the
      held account's 6 are no longer what is outstanding. */
  lemma {:induction false} ResendBreaksLaw(gen: nat -> string)
      returns (actions: seq<Action>, longer: seq<Action>, id: string)
    requires Injective(gen)
    ensures Run(map[], actions).Some? && Run(map[], longer).Some?
    ensures var t, u := Run(map[], actions).value.table, Run(map[], longer).value.table;
            && LedgerInv(t) && HoldsOk(t) && ReservedLaw(t, "t", RefTo(HELD)) && RowAt(t, id, 6, 2)
            && LedgerInv(u) && HoldsOk(u) && !ReservedLaw(u, "t", RefTo(HELD)) && RowAt(u, id, 2, 3)
            && forall tenant, ref :: Position(u, tenant, ref) == Position(t, tenant, ref)
    ensures var h := Run(map[], longer).value.history; var n := |h|;
            n >= 2 && h[n - 2].req == Commit(id, "1", SHOP, 4) && h[n - 1].req == Commit(id, "1", SHOP, 4)
  {
    hide Stage, Reached, Injective, Takes, Position, Outstanding, IdOf, PostedBy, FlowSpec, RowAt, Run, LedgerInv,
      HoldsOk, ReservationToItem, KnownFlow, WayOf, Moved, RunOf, Updated;
    var t, env0, before;
    t, actions, id, env0, before := CommittedFour(gen);
    var r, env := Commit(id, "1", SHOP, 4), Turn(gen, 3);
    ReachedHistory(actions, t);
    var k := id + ":commit:1";
    var keys, events, marks := {"fund", "rsv:create", k}, {"funded", "rsv:reserve", k}, {"rsv"};
    StageParts(t, gen, env.base, keys, events, marks);
    CommitWay(t, gen, env.base, keys, events, marks, id, "1", SHOP, 4, 6, 2);
    KnownAfter(r, env0, before, t);
    NewOutboxId(t, env, keys, events, marks);
    var fr := PostedBy(r, env0, before).value;
    CompletedRun(env0, fr);
    assert fr.tenant == "t" && fr.key == k;
    assert TenantOf(r) == "t";
    assert WayOf(r, t).raw.key == k;
    var u := RepeatBooksAgain(r, env, t);
    longer := ReachStep(actions, t, u, r, env);
    ReachedHistory(longer, u);
    KeepsInvariants(r, env, t, u);
    ResendEffect(env, t, u, id);
  }

  lemma {:induction false} CompletedRun(env: Env, fr: FlowReq)
    ensures RunOf(env, fr, Completed).status == Completed
  {
  }

  lemma {:induction false} StageParts(t: Table, gen: nat -> string, n: nat, keys: set<string>, events: set<string>,
      marks: set<string>)
    requires Stage(t, gen, n, keys, events, marks)
    ensures LedgerInv(t) && HoldsOk(t) && Sound(t)
  {
    hide At, LedgerInv, HoldsOk, HasAccounts;
    LedgerIsSound(t);
  }

  lemma {:induction false} NewOutboxId(t: Table, env: Env, keys: set<string>, events: set<string>, marks: set<string>)
    requires Stage(t, env.gen, env.base, keys, events, marks) && Injective(env.gen)
    ensures ObxK(env.Id(0)) !in t
  {
    hide Below, LedgerInv, HoldsOk, HasAccounts, Injective, KeyOk;
    NewIds(env, 0);
    assert ObxK(env.Id(0)) in t ==> IdOk(ObxK(env.Id(0)), env.gen, env.base);
  }

  lemma {:induction false} ResendEffect(env: Env, t: Table, u: Table, id: string)
    requires var r := Commit(id, "1", SHOP, 4);
             && Takes(r, env, t, u) && Moved(r, t) == -4
    requires RowAt(t, id, 6, 2) && Holding(t, 6, 6)
    requires forall tenant, ref :: Position(u, tenant, ref) == Position(t, tenant, ref)
    ensures ReservedLaw(t, "t", RefTo(HELD)) && !ReservedLaw(u, "t", RefTo(HELD)) && RowAt(u, id, 2, 3)
  {
    hide Takes, Position, Outstanding, IdOf, FlowSpec, WayOf, ParseAccountOwner, Moved;
    var r := Commit(id, "1", SHOP, 4);
    StepReservation(r, env, t, u, ResK("t", id));
    StepOutstanding(r, env, t, u, "t", RefTo(HELD));
  }

  // ------------------------------------------------------------------------------------------
  // A commit into the reserved account
  // ------------------------------------------------------------------------------------------

  /** Nothing stops a client from committing into the reserved account itself: under a new key 4 of 10 are
      booked and the account keeps its 10. */
  lemma {:induction false} SelfCommitBreaksLaw(gen: nat -> string)
      returns (actions: seq<Action>, longer: seq<Action>, id: string)
    requires Injective(gen)
    ensures Run(map[], actions).Some? && Run(map[], longer).Some?
    ensures var t, u := Run(map[], actions).value.table, Run(map[], longer).value.table;
            && ReservedLaw(t, "t", RefTo(HELD)) && Holding(t, 10, 10)
            && !ReservedLaw(u, "t", RefTo(HELD)) && Holding(u, 10, 6)
  {
    hide Stage, Reached, Injective, Takes, NextPost, Position, Outstanding, IdOf, PostedBy, FlowSpec, RowAt, Run;
    var t;
    t, actions, id := ReservedTen(gen);
    var r, env := Commit(id, "1", HELD, 4), Turn(gen, 2);
    var keys, events, marks := {"fund", "rsv:create"}, {"funded", "rsv:reserve"}, {"rsv"};
    ReachedHistory(actions, t);
    CommitWay(t, gen, env.base, keys, events, marks, id, "1", HELD, 4, 10, 1);
    NewKeys(id, "1");
    FourAccounts();
    RowReservation(t, id, 10, 1);
    TransferIsNext(r, env, t, WayOf(r, t).raw, WayOf(r, t).row, HELD, HELD, 4, keys, events, marks);
    var u := Committed(r, env, t, keys, events, marks);
    longer := ReachStep(actions, t, u, r, env);
    ReachedHistory(longer, u);
    SelfCommitEffect(env, t, u, id);
  }

  lemma {:induction false} SelfCommitEffect(env: Env, t: Table, u: Table, id: string)
    requires var r := Commit(id, "1", HELD, 4);
             && Takes(r, env, t, u) && PostedBy(r, env, t).Some? && Moved(r, t) == -4
    requires RowAt(t, id, 10, 1) && Holding(t, 10, 10)
    ensures Holding(u, 10, 6)
  {
    hide Takes, PostedBy, Position, Outstanding, IdOf, FlowSpec, WayOf, ParseAccountOwner, Moved;
    var r := Commit(id, "1", HELD, 4);
    StepMoney(r, env, t, u, "t", RefTo(HELD));
    StepOutstanding(r, env, t, u, "t", RefTo(HELD));
  }

  // ------------------------------------------------------------------------------------------
  // A stale reservation row
  // ------------------------------------------------------------------------------------------

  lemma {:induction false} TransferOverdraws(env: Env, raw: FlowReq, t: Table, debit: BalRef, credit: BalRef,
      amount: int)
    requires Transfers(raw, debit, credit, amount) && amount > 0 && raw.steps[0].eventId != ""
    requires debit.account != "" && credit.account != "" && debit.currency == credit.currency != ""
    requires KnownFlow(t, raw.tenant, raw.key) == None
    requires Problem(t, raw.tenant, debit) == None && Problem(t, raw.tenant, credit) == None
    requires Overdrawn(Parsed(raw), LoadedAt(t, raw.tenant, credit), credit)
    ensures FlowSpec(env, raw, t) == FlowFail(InsufficientFunds)
  {
    hide Transfers, Problem, KnownFlow, Overdrawn, StepOk, LoadedAt, RefsOf, AmountsOk, FlowWrites, RunOf, StepRows,
      StepBase, ParseStep;
    var fr := Parsed(raw);
    TransferParsed(raw, debit, credit, amount);
    OneStep(fr, debit, credit, amount);
    OneStep(raw, debit, credit, amount);
    TransferOk(fr, debit, credit, amount);
    TransferSums(fr, debit, credit, amount, credit);
    forall ref | ref in RefsOf(fr) ensures Problem(t, fr.tenant, ref) == None {
      TransferSums(fr, debit, credit, amount, ref);
    }
    NoProblem(t, fr.tenant, RefsOf(fr));
    var loaded := LoadedAll(t, fr.tenant, RefsOf(fr));
    var j :| 0 <= j < |RefsOf(fr)| && RefsOf(fr)[j] == credit;
    assert Overdrawn(fr, loaded[j], RefsOf(fr)[j]);
  }

  lemma {:induction false} EmptyHeldOverdrawn(t: Table, fr: FlowReq, debit: BalRef, amount: int)
    requires HasAccounts(t) && Transfers(fr, debit, RefTo(HELD), amount) && amount > 0 && debit != RefTo(HELD)
    requires fr.tenant == "t" && Position(t, "t", RefTo(HELD)) < amount
    ensures Overdrawn(fr, LoadedAt(t, "t", RefTo(HELD)), RefTo(HELD))
  {
    hide Sum, AllEntries, RefsOf, Transfers, AccountId;
    TransferSums(fr, debit, RefTo(HELD), amount, RefTo(HELD));
  }

  /** In this run from an empty table a commit of 6 reads its reservation while 6 are outstanding; then
      another call commits those 6; then the first one reads the balances and fails for insufficient funds,
      which neither order of the two calls alone would give. Its row has moved from version 2 to 3. */
  lemma {:induction false} StaleRowFails(gen: nat -> string) returns (actions: seq<Action>, id: string)
    requires Injective(gen)
    ensures Run(map[], actions).Some? && 1 in Run(map[], actions).value.live
    ensures var s := Run(map[], actions).value; var x := s.live[1];
            && x.req == Commit(id, "2", SHOP, 6) && x.local == Finished(Fail(InsufficientFunds))
            && x.log != [] && x.log[0].0 == ResK("t", id)
            && x.log[0].1.Some? && x.log[0].1.value.ResItem?
            && x.log[0].1.value.reservation.outstanding == 6 && x.log[0].1.value.resVersion == 2
            && ResK("t", id) in s.table && s.table[ResK("t", id)].ResItem? && s.table[ResK("t", id)].resVersion == 3
            && LedgerInv(s.table) && HoldsOk(s.table) && ReservedLaw(s.table, "t", RefTo(HELD))
  {
    hide Stage, Reached, Injective, Takes, NextPost, Position, Outstanding, IdOf, PostedBy, FlowSpec, RowAt, Run,
      LedgerInv, HoldsOk, WayOf, Moved, Sound, Drive, Feed, Alone;
    var t, env0, before, a0;
    t, a0, id, env0, before := CommittedFour(gen);
    ReachedHistory(a0, t);
    var envA, envB := Turn(gen, 4), Turn(gen, 3);
    var first, second := Commit(id, "2", SHOP, 6), Commit(id, "3", SHOP, 6);
    var k := id + ":commit:1";
    var keys, events, marks := {"fund", "rsv:create", k}, {"funded", "rsv:reserve", k}, {"rsv"};
    StageParts(t, gen, envB.base, keys, events, marks);
    RowReservation(t, id, 6, 2);
    var row := HeldRow(t[ResK("t", id)].reservation, 2);
    var a2 := ReadRow(a0, t, id, envA);
    var u := OtherCommits(t, gen, id, envB);
    TakesParts(second, envB, t, u);
    var a3 := AloneIsRun(map[], a2, 0, second, envB);
    var at := (_: nat) => u;
    var x := Run(map[], a3).value.live[1];
    actions := ReadOn(map[], a3, 1, at, 0);
    StageParts(u, gen, envB.base + DRAWS, keys + {id + ":commit:3"}, events + {id + ":commit:3"}, marks);
    SecondLook(u, gen, envB.base + DRAWS, keys + {id + ":commit:3"}, events + {id + ":commit:3"}, marks, id, row,
      envA, at);
  }

  lemma {:induction false} ReadRow(actions: seq<Action>, t: Table, id: string, env: Env) returns (longer: seq<Action>)
    requires Reached(actions, t) && RowAt(t, id, 6, 2)
    ensures Run(map[], longer).Some?
    ensures var s := Run(map[], longer).value;
            && s.table == t && s.live.Keys == {1}
            && s.live[1].req == Commit(id, "2", SHOP, 6) && s.live[1].env == env
            && s.live[1].log == [(ResK("t", id), Some(t[ResK("t", id)]))]
            && s.live[1].local == WantDestination(HeldRow(t[ResK("t", id)].reservation, 2))
  {
    hide Run, IdOf;
    var r := Commit(id, "2", SHOP, 6);
    RunSnoc(map[], actions, BeginTx(1, r, env));
    var next := actions + [BeginTx(1, r, env)];
    assert Run(map[], next).value.live == map[1 := TxRec(r, env, WantReservation, [])];
    RunSnoc(map[], next, ReadItem(1));
    longer := next + [ReadItem(1)];
  }

  lemma {:induction false} OtherCommits(t: Table, gen: nat -> string, id: string, env: Env) returns (u: Table)
    requires Injective(gen) && env == Turn(gen, 3)
    requires var k := id + ":commit:1";
             Stage(t, gen, env.base, {"fund", "rsv:create", k}, {"funded", "rsv:reserve", k}, {"rsv"})
    requires Holding(t, 6, 6) && RowAt(t, id, 6, 2)
    ensures Takes(Commit(id, "3", SHOP, 6), env, t, u) && Holding(u, 0, 0)
    ensures var k, k' := id + ":commit:1", id + ":commit:3";
            var keys, events := {"fund", "rsv:create", k} + {k'}, {"funded", "rsv:reserve", k} + {k'};
            Stage(u, gen, env.base + DRAWS, keys, events, {"rsv"})
    ensures ResK("t", id) in u && u[ResK("t", id)].ResItem? && u[ResK("t", id)].resVersion == 3
  {
    hide Stage, Injective, Takes, NextPost, Position, Outstanding, IdOf, PostedBy, FlowSpec, RowAt;
    var r := Commit(id, "3", SHOP, 6);
    var k, k' := id + ":commit:1", id + ":commit:3";
    var keys, events, marks := {"fund", "rsv:create", k}, {"funded", "rsv:reserve", k}, {"rsv"};
    CommitWay(t, gen, env.base, keys, events, marks, id, "3", SHOP, 6, 6, 2);
    NewKeys(id, "3");
    FourAccounts();
    RowReservation(t, id, 6, 2);
    TransferIsNext(r, env, t, WayOf(r, t).raw, WayOf(r, t).row, SHOP, HELD, 6, keys, events, marks);
    u := Committed(r, env, t, keys, events, marks);
    var fr := PostedBy(r, env, t).value;
    assert fr.key == k' && fr.steps[0].eventId == k' && marks + MarksOf(r) == marks;
    CommitEffect(env, t, u, id, "3", 6, 6, 2, 6);
  }

  /** The rest of the first call, on the table the second one left. */
  lemma {:induction false} SecondLook(u: Table, gen: nat -> string, n: nat, keys: set<string>, events: set<string>,
      marks: set<string>, id: string, row: HeldRow, env: Env, at: nat -> Table)
    requires Stage(u, gen, n, keys, events, marks) && Constant(at, u) && Holding(u, 0, 0)
    requires keys == {"fund", "rsv:create", id + ":commit:1"} + {id + ":commit:3"}
    requires row.res.id == id && row.res.tenantId == "t" && ReservedRef(row.res) == RefTo(HELD)
    ensures Drive(Commit(id, "2", SHOP, 6), env, WantDestination(row), at, 0).0 == Finished(Fail(InsufficientFunds))
  {
    hide Stage, Drive, FlowSpec, Position, Outstanding, Overdrawn, Problem, KnownFlow, LoadedAt, BeginFlow, Sound;
    var r := Commit(id, "2", SHOP, 6);
    var raw := CommitFlow(r, row.res, IdOf(SHOP));
    StageAccount(u, SHOP, gen, n, keys, events, marks);
    StageAccount(u, HELD, gen, n, keys, events, marks);
    StageAccounts(u, gen, n, keys, events, marks);
    FourAccounts();
    DestinationRead(r, env, row, at, 0);
    assert at(0) == u;
    BeginAlone(r, env, raw, Some(row), u, at, 1);
    SecondFlow(r, row, raw);
    NewKeys(id, "2");
    KeyUnknown(u, gen, n, keys, events, marks, raw.key);
    TransferParsed(raw, RefTo(SHOP), RefTo(HELD), 6);
    EmptyHeldOverdrawn(u, Parsed(raw), RefTo(SHOP), 6);
    TransferOverdraws(env, raw, u, RefTo(SHOP), RefTo(HELD), 6);
  }

  lemma {:induction false} SecondFlow(r: Request, row: HeldRow, raw: FlowReq)
    requires r.CommitReservation? && r.amount == 6 && r.key == "2" && r.tenant == "t"
    requires ReservedRef(row.res) == RefTo(HELD) && raw == CommitFlow(r, row.res, IdOf(SHOP))
    ensures Transfers(raw, RefTo(SHOP), RefTo(HELD), 6) && raw.tenant == "t" && Parsed(raw).tenant == "t"
    ensures raw.key == row.res.id + ":commit:2" && raw.steps[0].eventId != ""
  {
    hide IdOf;
  }

  lemma {:induction false} StageAccounts(t: Table, gen: nat -> string, n: nat, keys: set<string>, events: set<string>,
      marks: set<string>)
    requires Stage(t, gen, n, keys, events, marks)
    ensures At(t, gen, n, keys, events, marks) && HasAccounts(t) && Sound(t)
  {
    hide At, LedgerInv, HoldsOk, HasAccounts;
    LedgerIsSound(t);
  }
}
