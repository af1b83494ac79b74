/** The stages of a run in which all handlers draw their ids from one sequence: what is in the table after
    each posting, and that the next one commits. */
module Stages {
  import opened Ledger
  import opened Keys
  import opened Items
  import opened Ordering
  import opened Handlers
  import opened Writes
  import opened Serializability
  import opened Atomic
  import opened Journals
  import opened Effects
  import opened Limits
  import opened Books
  import opened Acceptance
  import opened Completeness
  import opened Reachable
  import opened Holds
  import opened Reserved

  // ------------------------------------------------------------------------------------------
  // Where a run stands
  // ------------------------------------------------------------------------------------------

  ghost predicate Injective(gen: nat -> string) {
    forall i: nat, j: nat :: gen(i) == gen(j) ==> i == j
  }

  ghost predicate Below(gen: nat -> string, n: nat, id: string) {
    exists m: nat :: m < n && id == gen(m)
  }

  /** All ids in `t` were drawn before draw `n`; all flow keys, events and reservation keys are known. */
  predicate KeyOk(k: Key, keys: set<string>, events: set<string>, marks: set<string>) {
    match k
    case FIdempK(_, key) => key in keys
    case EvtK(e) => e in events
    case RIdempK(_, key) => key in marks
    case _ => true
  }

  ghost predicate IdOk(k: Key, gen: nat -> string, n: nat) {
    match k
    case JrnK(_, id) => Below(gen, n, id)
    case FlowK(_, id) => Below(gen, n, id)
    case ObxK(id) => Below(gen, n, id)
    case ResK(_, id) => Below(gen, n, id)
    case _ => true
  }

  ghost predicate At(t: Table, gen: nat -> string, n: nat, keys: set<string>, events: set<string>, marks: set<string>) {
    forall k | k in t :: KeyOk(k, keys, events, marks) && IdOk(k, gen, n)
  }

  /** A posting of one journal with two entries, under a key, event and reservation key not yet used. */
  ghost predicate NextPost(r: Request, env: Env, t: Table, keys: set<string>, events: set<string>, marks: set<string>) {
    && PostedBy(r, env, t).Some?
    && var fr := PostedBy(r, env, t).value;
       && |fr.steps| == 1 && |fr.steps[0].entries| == 2
       && fr.key !in keys && fr.steps[0].eventId !in events
       && (r.CreateReservation? ==> r.key !in marks)
  }

  const DRAWS := 10

  lemma {:induction false} FreshId(gen: nat -> string, n: nat, m: nat)
    requires Injective(gen) && m >= n
    ensures !Below(gen, n, gen(m))
  {
  }

  lemma {:induction false} OneStepBase(fr: FlowReq)
    requires |fr.steps| == 1 && |fr.steps[0].entries| == 2
    ensures StepBase(fr.steps, 0) == 1 && StepBase(fr.steps, 1) == 6
  {
  }

  /** The keys of such a posting. */
  lemma {:induction false} OneStepKeys(env: Env, fr: FlowReq, k: Key)
    requires |fr.steps| == 1 && |fr.steps[0].entries| == 2 && k in FlowKeys(env, fr) && !k.BalK?
    ensures k == JrnK(fr.tenant, env.Id(1)) || k == ObxK(env.Id(5)) || k == EvtK(fr.steps[0].eventId)
            || k == FlowK(fr.tenant, env.Id(0)) || k == FIdempK(fr.tenant, fr.key)
  {
    hide RefsOf, StepBase;
    OneStepBase(fr);
    assert JournalKeys(env, fr, 1) == {JournalKey(env, fr, 0)} by {
      assert JournalKeys(env, fr, 0) == {};
    }
    assert OutboxKeys(env, fr, 1) == {OutboxKey(env, fr, 0)} by {
      assert OutboxKeys(env, fr, 0) == {};
    }
    assert EventIds(fr.steps, 1) == {fr.steps[0].eventId} by {
      assert EventIds(fr.steps, 0) == {};
    }
    OtherKinds(EventIds(fr.steps, 1), fr.tenant, RefsOf(fr));
  }

  lemma {:induction false} OneStepItems(fr: FlowReq)
    requires |fr.steps| == 1 && |fr.steps[0].entries| == 2
    ensures FlowItems(fr) <= 10
  {
    assert EventIds(fr.steps, 0) == {} && |EventIds(fr.steps, 1)| <= 1;
    FewRefs(AllEntries(fr.steps));
    assert fr.steps[..0] == [];
    assert AllEntries(fr.steps) == fr.steps[0].entries;
  }

  lemma {:induction false} FewRefs(es: seq<Entry>)
    ensures |Refs(es)| <= |es|
  {
    if es != [] {
      FewRefs(es[..|es| - 1]);
      InsertLength(RefOf(es[|es| - 1]), Refs(es[..|es| - 1]));
    }
  }

  lemma {:induction false} InsertLength(r: BalRef, rs: seq<BalRef>)
    ensures |Insert(r, rs)| <= |rs| + 1
  {
    if rs != [] {
      InsertLength(r, rs[1..]);
    }
  }

  lemma {:induction false} FewIds(r: Request, env: Env, t: Table)
    requires PostedBy(r, env, t).Some?
    requires var fr := PostedBy(r, env, t).value; |fr.steps| == 1 && |fr.steps[0].entries| == 2
    ensures WayOf(r, t).Flows? && !FlowSpec(env, WayOf(r, t).raw, t).FlowFail?
    ensures UsedOf(FlowSpec(env, WayOf(r, t).raw, t)) == 6
  {
    hide WayOf, FlowSpec, StepBase, ParseSteps;
    UsedIs(env, WayOf(r, t).raw, t);
    OneStepBase(PostedBy(r, env, t).value);
  }

  /** It commits. */
  lemma {:induction false} PostCommits(r: Request, env: Env, t: Table, keys: set<string>, events: set<string>,
      marks: set<string>)
      returns (u: Table)
    requires Sound(t) && Injective(env.gen) && At(t, env.gen, env.base, keys, events, marks)
        && NextPost(r, env, t, keys, events, marks)
    ensures Takes(r, env, t, u)
  {
    hide Takes, WayOf, FlowSpec, FlowKeys, TailKeys, FlowItems, Sound, PostedBy, Below;
    var fr := PostedBy(r, env, t).value;
    FewIds(r, env, t);
    var fres := FlowSpec(env, WayOf(r, t).raw, t);
    OneStepItems(fr);
    forall k | k in FlowKeys(env, fr) && !k.BalK? ensures k !in t {
      OneStepKeys(env, fr, k);
      NewIds(env, 0);
      NewIds(env, 1);
      NewIds(env, 5);
    }
    forall k | k in TailKeys(r, env, WayOf(r, t).row, fres) && !(Updates(r) && k.ResK?) ensures k !in t {
      NewIds(env, 6);
      NewIds(env, 7);
      TailIs(r, env, WayOf(r, t).row, fres, k);
    }
    CommitsIff(r, env, t);
    assert Committable(r, env, t);
    u :| Takes(r, env, t, u);
  }

  lemma {:induction false} NewIds(env: Env, m: nat)
    requires Injective(env.gen)
    ensures !Below(env.gen, env.base, env.Id(m))
  {
    FreshId(env.gen, env.base, env.base + m);
  }

  lemma {:induction false} TailIs(r: Request, env: Env, row: Option<HeldRow>, fres: FlowResult, k: Key)
    requires !fres.FlowFail? && k in TailKeys(r, env, row, fres)
    ensures || (r.CreateReservation? && (k == ResK(r.tenant, env.Id(UsedOf(fres))) || k == RIdempK(r.tenant, r.key)
        || k == ObxK(env.Id(UsedOf(fres) + 1))))
            || (Updates(r) && row.Some? && (k == ResK(TenantOf(r), row.value.res.id)
              || k == ObxK(env.Id(UsedOf(fres)))))
  {
    hide UsedOf;
  }

  function MarksOf(r: Request): set<string> {
    if r.CreateReservation? then {r.key} else {}
  }

  /** And leaves the run one posting further. */
  lemma {:induction false} PostMoves(r: Request, env: Env, t: Table, u: Table, keys: set<string>, events: set<string>,
      marks: set<string>)
    requires Takes(r, env, t, u) && At(t, env.gen, env.base, keys, events, marks)
        && NextPost(r, env, t, keys, events, marks)
    ensures var fr := PostedBy(r, env, t).value;
            At(u, env.gen, env.base + DRAWS, keys + {fr.key}, events + {fr.steps[0].eventId}, marks + MarksOf(r))
  {
    hide Takes, WayOf, FlowSpec, FlowKeys, TailKeys, FlowItems, PostedBy, AllHold, StepAll;
    var fr := PostedBy(r, env, t).value;
    FewIds(r, env, t);
    var fres := FlowSpec(env, WayOf(r, t).raw, t);
    TakesIs(r, env, t, u);
    PostedKeys(r, env, t);
    if Updates(r) {
      WayRowIs(r, t);
      RowStored(r, env, t, u);
    }
    forall k | k in u ensures KeyOk(k, keys + {fr.key}, events + {fr.steps[0].eventId}, marks + MarksOf(r))
        && IdOk(k, env.gen, env.base + DRAWS) {
      if k in t {
        assert KeyOk(k, keys, events, marks) && IdOk(k, env.gen, env.base);
        IdOkLater(k, env.gen, env.base, env.base + DRAWS);
      } else {
        assert k in FlowKeys(env, fr) || k in TailKeys(r, env, WayOf(r, t).row, fres);
        if k in FlowKeys(env, fr) {
          if !k.BalK? {
            OneStepKeys(env, fr, k);
          }
        } else {
          TailIs(r, env, WayOf(r, t).row, fres, k);
        }
        Drawn(env, 0);
        Drawn(env, 1);
        Drawn(env, 5);
        Drawn(env, 6);
        Drawn(env, 7);
      }
    }
  }

  lemma {:induction false} Drawn(env: Env, m: nat)
    requires m < DRAWS
    ensures Below(env.gen, env.base + DRAWS, env.Id(m))
  {
    assert env.base + m < env.base + DRAWS;
  }

  lemma {:induction false} IdOkLater(k: Key, gen: nat -> string, n: nat, n': nat)
    requires IdOk(k, gen, n) && n <= n'
    ensures IdOk(k, gen, n')
  {
  }

  lemma {:induction false} RowStored(r: Request, env: Env, t: Table, u: Table)
    requires Takes(r, env, t, u) && Updates(r) && RowOf(r, t).Some?
    ensures ResK(TenantOf(r), RowOf(r, t).value.res.id) in t
  {
    hide Alone;
    RowNamed(r, env, t, u);
    RowIs(r, t);
  }

  lemma {:induction false} PostedKeys(r: Request, env: Env, t: Table)
    requires PostedBy(r, env, t).Some?
    ensures WayOf(r, t).Flows? && !FlowSpec(env, WayOf(r, t).raw, t).FlowFail?
    ensures AddAll(Empty, StepAll(r, env, t)).puts.Keys
         == FlowKeys(env, PostedBy(r, env, t).value)
           + TailKeys(r, env, WayOf(r, t).row, FlowSpec(env, WayOf(r, t).raw, t))
  {
    hide WayOf, FlowSpec, FlowKeys, TailKeys, FlowWrites, AddAll, TailWrites, RefsOf, KeySet;
    var way := WayOf(r, t);
    var fres := FlowSpec(env, way.raw, t);
    var fr := Parsed(way.raw);
    PostedIs(env, way.raw, t);
    var loaded := LoadedAll(t, fr.tenant, RefsOf(fr));
    FlowKeysAre(env, fr, loaded);
    TailKeysAre(r, env, way.row, fres);
    KeySetConcat(FlowWrites(env, fr, loaded), TailWrites(r, env, way.row, fres));
    EmptyValid();
    AddAllValid(Empty, StepAll(r, env, t));
  }

  lemma {:induction false} TakesKeepsSound(r: Request, env: Env, t: Table, u: Table)
    requires Takes(r, env, t, u)
    ensures Sound(u)
  {
    hide Alone, Sound, Inv, Run;
    EmptyRun(t);
    var longer := AloneIsRun(t, [], 0, r, env);
    RunKeepsInv(t, longer);
    InvIsSound(t, Run(t, longer).value);
  }

  // ------------------------------------------------------------------------------------------
  // The accounts
  // ------------------------------------------------------------------------------------------

  const CASH := CreateAccount("t", "c", "1", "cash", "USD", NormalDebit, false)
  const HELD := CreateAccount("t", "h", "1", "held", "USD", NormalDebit, false)
  const SHOP := CreateAccount("t", "s", "1", "shop", "USD", NormalDebit, false)
  const BANK := CreateAccount("t", "b", "1", "bank", "USD", NormalDebit, true)

  function IdOf(r: Request): string
    requires r.CreateAccount?
  {
    NewAccount(r).id
  }

  function RefTo(r: Request): BalRef
    requires r.CreateAccount?
  {
    BalRef(IdOf(r), "USD")
  }

  lemma {:induction false} IdStarts(r: Request)
    requires r.CreateAccount? && r.ownerType != ""
    ensures IdOf(r) != "" && IdOf(r)[0] == r.ownerType[0]
  {
  }

  lemma {:induction false} FourAccounts()
    ensures IdOf(CASH) != IdOf(HELD) && IdOf(CASH) != IdOf(SHOP) && IdOf(CASH) != IdOf(BANK)
    ensures IdOf(HELD) != IdOf(SHOP) && IdOf(HELD) != IdOf(BANK) && IdOf(SHOP) != IdOf(BANK)
    ensures IdOf(CASH) != "" && IdOf(HELD) != "" && IdOf(SHOP) != "" && IdOf(BANK) != ""
  {
    hide IdOf;
    IdStarts(CASH);
    IdStarts(HELD);
    IdStarts(SHOP);
    IdStarts(BANK);
  }

  predicate HasAccount(t: Table, r: Request)
    requires r.CreateAccount?
  {
    Lookup(t, AccK(NewAccount(r).tenantId, IdOf(r))) == Some(AccItem(NewAccount(r)))
  }

  predicate HasAccounts(t: Table) {
    HasAccount(t, CASH) && HasAccount(t, HELD) && HasAccount(t, SHOP) && HasAccount(t, BANK)
  }

  ghost predicate OnlyAccounts(t: Table) {
    forall k | k in t :: k.AccK? || k.AccUK?
  }

  /** Creating an account whose keys are free commits. */
  lemma {:induction false} AccountCommits(r: Request, env: Env, t: Table) returns (u: Table)
    requires r.CreateAccount? && Sound(t) && OnlyAccounts(t)
    requires AccK(r.tenant, IdOf(r)) !in t && AccUK(r.tenant, r.ownerType, r.ownerId, r.accountType, r.currency) !in t
    ensures Takes(r, env, t, u) && Sound(u) && OnlyAccounts(u) && HasAccount(u, r)
    ensures u.Keys == t.Keys + {AccK(r.tenant, IdOf(r)),
        AccUK(r.tenant, r.ownerType, r.ownerId, r.accountType, r.currency)}
  {
    hide Takes, AddAll, AccountId, Sound, Written;
    var ws := AccountWrites(NewAccount(r));
    u := AccountTakes(r, env, t);
    TakesKeepsSound(r, env, t, u);
    StepAccount(r, env, t, u, r.tenant, IdOf(r));
    EmptyValid();
    AddAllValid(Empty, ws);
    PairKeys(ws[0], ws[1]);
    WrittenKeys(t, AddAll(Empty, ws));
  }

  lemma {:induction false} AccountTakes(r: Request, env: Env, t: Table) returns (u: Table)
    requires r.CreateAccount? && Sound(t)
    requires AccK(r.tenant, IdOf(r)) !in t && AccUK(r.tenant, r.ownerType, r.ownerId, r.accountType, r.currency) !in t
    ensures Takes(r, env, t, u) && u == Written(t, AddAll(Empty, AccountWrites(NewAccount(r))))
  {
    hide Alone, Written, AddAll, AllHold, AccountId, Sound;
    var ws := AccountWrites(NewAccount(r));
    assert ws == [ws[0], ws[1]];
    TwoWrites(t, ws[0], ws[1]);
    AloneIs(r, env, t);
    u := Written(t, AddAll(Empty, ws));
  }

  lemma {:induction false} WrittenKeys(t: Table, b: Buffer)
    ensures Written(t, b).Keys == t.Keys + b.puts.Keys
  {
  }

  // ------------------------------------------------------------------------------------------
  // The stages of the story
  // ------------------------------------------------------------------------------------------

  /** All invariants, the four accounts, and how far the run has come. */
  ghost predicate Stage(t: Table, gen: nat -> string, n: nat, keys: set<string>, events: set<string>,
      marks: set<string>) {
    && At(t, gen, n, keys, events, marks)
    && LedgerInv(t) && HoldsOk(t) && HasAccounts(t)
  }

  lemma {:induction false} StageAccount(t: Table, r: Request, gen: nat -> string, n: nat, keys: set<string>,
      events: set<string>, marks: set<string>)
    requires Stage(t, gen, n, keys, events, marks) && r in {CASH, HELD, SHOP, BANK}
    ensures Problem(t, "t", RefTo(r)) == None && LoadedAt(t, "t", RefTo(r)).account == NewAccount(r)
    ensures DebitNormal(t, "t", RefTo(r)) && Sound(t)
  {
    hide At, LedgerInv, HoldsOk, AccountId;
    LedgerIsSound(t);
  }

  lemma {:induction false} StageMoves(r: Request, env: Env, t: Table, u: Table, keys: set<string>,
      events: set<string>, marks: set<string>)
    requires Stage(t, env.gen, env.base, keys, events, marks) && Takes(r, env, t, u) && Injective(env.gen)
        && !r.CreateAccount?
    requires NextPost(r, env, t, keys, events, marks)
    ensures var fr := PostedBy(r, env, t).value;
            Stage(u, env.gen, env.base + DRAWS, keys + {fr.key}, events + {fr.steps[0].eventId}, marks + MarksOf(r))
  {
    hide Takes, At, LedgerInv, NextPost, HoldOk, PostedBy, AccountId;
    PostMoves(r, env, t, u, keys, events, marks);
    TakesKeepsSound(r, env, t, u);
    StepLedger(r, env, t, u);
    forall k ensures HoldOk(u, k) {
      StepHold(r, env, t, u, k);
    }
    forall a | a in {CASH, HELD, SHOP, BANK} ensures HasAccount(u, a) {
      StepAccount(r, env, t, u, NewAccount(a).tenantId, IdOf(a));
    }
  }

  /** A transfer between two of the accounts, under a new key, is such a posting. */
  lemma {:induction false} TransferIsNext(r: Request, env: Env, t: Table, raw: FlowReq, row: Option<HeldRow>,
      debit: Request, credit: Request, amount: int, keys: set<string>, events: set<string>, marks: set<string>)
    requires Stage(t, env.gen, env.base, keys, events, marks)
    requires debit in {CASH, HELD, SHOP, BANK} && credit in {CASH, HELD, SHOP, BANK}
    requires WayOf(r, t) == Flows(raw, row) && raw.tenant == "t"
        && Transfers(raw, RefTo(debit), RefTo(credit), amount) && amount > 0
    requires raw.key !in keys && raw.steps[0].eventId !in events && raw.steps[0].eventId != ""
    requires r.CreateReservation? ==> r.key !in marks
    requires debit != BANK && (credit == BANK || Position(t, "t", RefTo(credit)) >= amount)
    ensures NextPost(r, env, t, keys, events, marks) && PostedBy(r, env, t) == Some(Parsed(raw))
  {
    hide WayOf, FlowSpec, Transfers, Problem, DebitNormal, KnownFlow, Overdrawn, LoadedAt, Position, LedgerInv,
      HoldsOk, HasAccounts, At;
    StageAccount(t, debit, env.gen, env.base, keys, events, marks);
    StageAccount(t, credit, env.gen, env.base, keys, events, marks);
    FourAccounts();
    KeyUnknown(t, env.gen, env.base, keys, events, marks, raw.key);
    TransferParsed(raw, RefTo(debit), RefTo(credit), amount);
    OneStep(raw, RefTo(debit), RefTo(credit), amount);
    TwoEntries(Parsed(raw), RefTo(debit), RefTo(credit), amount);
    StageSolvent(t, env.gen, env.base, keys, events, marks);
    forall ref | ref == RefTo(debit) || ref == RefTo(credit)
        ensures !Overdrawn(Parsed(raw), LoadedAt(t, "t", ref), ref) {
      if ref == RefTo(credit) && credit == BANK {
        BankMayOverdraw(Parsed(raw), LoadedAt(t, "t", ref), ref);
      } else if ref == RefTo(credit) {
        TransferSolvent(t, Parsed(raw), RefTo(debit), RefTo(credit), amount, ref);
      } else {
        DebitSolvent(t, Parsed(raw), RefTo(debit), RefTo(credit), amount);
      }
    }
    TransferPostsIf(env, raw, t, RefTo(debit), RefTo(credit), amount);
  }

  lemma {:induction false} StageSolvent(t: Table, gen: nat -> string, n: nat, keys: set<string>, events: set<string>,
      marks: set<string>)
    requires Stage(t, gen, n, keys, events, marks)
    ensures Solvent(t)
  {
    hide At, HoldsOk, HasAccounts, Sound, BalancesAddUp, BooksBalance, Solvent;
  }

  lemma {:induction false} BankMayOverdraw(fr: FlowReq, l: Loaded, ref: BalRef)
    requires l.account.allowNegative
    ensures !Overdrawn(fr, l, ref)
  {
  }

  lemma {:induction false} TwoEntries(fr: FlowReq, debit: BalRef, credit: BalRef, amount: int)
    requires Transfers(fr, debit, credit, amount)
    ensures |fr.steps| == 1 && |fr.steps[0].entries| == 2
  {
  }

  lemma {:induction false} KeyUnknown(t: Table, gen: nat -> string, n: nat, keys: set<string>, events: set<string>,
      marks: set<string>, key: string)
    requires At(t, gen, n, keys, events, marks) && key !in keys
    ensures KnownFlow(t, "t", key) == None
  {
    hide IdOk;
    assert FIdempK("t", key) in t ==> KeyOk(FIdempK("t", key), keys, events, marks);
  }
}
