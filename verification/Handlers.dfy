/** The flow and reservation handlers (internal/service) as step machines: which item a handler reads
    next, what it does with the answer, and what it finally buffers and returns. A handler is
    deterministic apart from the answers to its reads, so this is the specification against which the
    imperative handlers of module `Service` are proved. */
module Handlers {
  import opened Ledger
  import opened Keys
  import opened Items
  import opened Ordering

  /** What one handler call draws from the server: the ids `NewID` yields from call number `base` on,
      and the clock. */
  datatype Env = Env(gen: nat -> string, base: nat, now: int) {
    function Id(n: nat): string {
      gen(base + n)
    }
  }

  datatype FlowReq = FlowReq(tenant: string, flowType: string, key: string, steps: seq<StepInput>)

  datatype Request =
    | CreateAccount(tenant: string, ownerType: string, ownerId: string, accountType: string, currency: string,
      normalBalance: NormalBalance, allowNegative: bool)
    | ExecuteFlow(flow: FlowReq)
    | CreateReservation(tenant: string, key: string, source: string, reserved: string, currency: string, amount: int,
      expiresAt: Option<int>)
    | CommitReservation(tenant: string, reservation: string, key: string, destination: string, amount: int)
    | ReleaseReservation(tenant: string, reservation: string, key: string, amount: int)
    | ExpireReservation(tenant: string, reservation: string)

  datatype StepResult = StepResult(stepId: string, journalId: string)

  datatype Response =
    | AccountResponse(account: Account)
    | FlowResponse(flowRunId: string, status: FlowStatus, results: seq<StepResult>)
    | ReservationResponse(reservation: Reservation)
    | NoResponse

  /** A handler either fails before committing, or commits `writes` and answers `resp`. */
  datatype Outcome = Fail(code: Code) | Done(writes: seq<Write>, resp: Response)

  // ------------------------------------------------------------------------------------------
  // Parsing the submitted steps
  // ------------------------------------------------------------------------------------------

  /** ParseAmount admits positive amounts only; a text that is no number counts as not positive. */
  predicate AmountsOk(steps: seq<StepInput>) {
    forall i, j | 0 <= i < |steps| && 0 <= j < |steps[i].entries| :: steps[i].entries[j].amount > 0
  }

  /** Anything but CREDIT is taken as DEBIT. */
  function ParseEntry(e: Entry): Entry {
    e.(direction := if e.direction == Credit then Credit else Debit)
  }

  function ParseStep(s: StepInput): StepInput {
    s.(entries := seq(|s.entries|, i requires 0 <= i < |s.entries| => ParseEntry(s.entries[i])))
  }

  function ParseSteps(steps: seq<StepInput>): seq<StepInput> {
    seq(|steps|, i requires 0 <= i < |steps| => ParseStep(steps[i]))
  }

  // ------------------------------------------------------------------------------------------
  // What a fresh flow posts
  // ------------------------------------------------------------------------------------------

  /** Debits (or credits) of `es` on one balance. */
  function Sum(es: seq<Entry>, r: BalRef, debit: bool): int {
    if es == [] then 0
    else
      var e := es[|es| - 1];
      Sum(es[..|es| - 1], r, debit) + if RefOf(e) == r && (e.direction == Debit) == debit then e.amount else 0
  }

  lemma {:induction false} SumSnoc(es: seq<Entry>, e: Entry, r: BalRef, debit: bool)
    ensures Sum(es + [e], r, debit)
         == Sum(es, r, debit) + if RefOf(e) == r && (e.direction == Debit) == debit then e.amount else 0
  {
    assert (es + [e])[..|es|] == es;
  }

  /** A balance as the flow loaded it, with its account. */
  datatype Loaded = Loaded(account: Account, debits: int, credits: int, version: int, existed: bool)

  function RefsOf(fr: FlowReq): seq<BalRef> {
    Refs(AllEntries(fr.steps))
  }

  function FinalDebits(fr: FlowReq, l: Loaded, r: BalRef): int {
    l.debits + Sum(AllEntries(fr.steps), r, true)
  }

  function FinalCredits(fr: FlowReq, l: Loaded, r: BalRef): int {
    l.credits + Sum(AllEntries(fr.steps), r, false)
  }

  predicate Overdrawn(fr: FlowReq, l: Loaded, r: BalRef) {
    !l.account.allowNegative
    && NormalizedBalance(l.account.normalBalance, FinalDebits(fr, l, r), FinalCredits(fr, l, r)) < 0
  }

  /** Ids drawn before step `i`: one for the flow, and per step one for the journal, each entry, the
      step row and the outbox event. */
  function StepBase(steps: seq<StepInput>, i: nat): nat
    requires i <= |steps|
  {
    if i == 0 then 1 else StepBase(steps, i - 1) + |steps[i - 1].entries| + 3
  }

  function FlowId(env: Env): string {
    env.Id(0)
  }

  function JournalId(env: Env, fr: FlowReq, i: nat): string
    requires i < |fr.steps|
  {
    env.Id(StepBase(fr.steps, i))
  }

  function JournalOf(env: Env, fr: FlowReq, i: nat, m: nat): Journal
    requires i < |fr.steps| && m <= |fr.steps[i].entries|
  {
    Journal(JournalId(env, fr, i), fr.tenant, FlowId(env), fr.steps[i].eventId, fr.steps[i].entries[..m])
  }

  function StepRow(env: Env, fr: FlowReq, i: nat): FlowStep
    requires i < |fr.steps|
  {
    var s := fr.steps[i];
    FlowStep(env.Id(StepBase(fr.steps, i) + |s.entries| + 1), s.stepId, JournalId(env, fr, i))
  }

  function StepRows(env: Env, fr: FlowReq, n: nat): (rows: seq<FlowStep>)
    requires n <= |fr.steps|
    ensures |rows| == n
    ensures forall i | 0 <= i < n :: rows[i] == StepRow(env, fr, i)
  {
    if n == 0 then [] else StepRows(env, fr, n - 1) + [StepRow(env, fr, n - 1)]
  }

  function EventOf(env: Env, fr: FlowReq, i: nat): Event
    requires i < |fr.steps|
  {
    var s := fr.steps[i];
    Event(env.Id(StepBase(fr.steps, i) + |s.entries| + 2), fr.tenant, FlowId(env),
      fr.flowType + "." + s.stepId, FlowId(env) + ":" + s.stepId)
  }

  function RunOf(env: Env, fr: FlowReq, status: FlowStatus): FlowRun {
    FlowRun(FlowId(env), fr.tenant, fr.flowType, fr.key, status)
  }

  function Fresh(k: Key, item: Item): Write {
    Write(k, item, NotExists)
  }

  function FlowWrite(env: Env, fr: FlowReq, status: FlowStatus, n: nat): Write
    requires n <= |fr.steps|
  {
    Fresh(FlowK(fr.tenant, FlowId(env)), FlowItem(RunOf(env, fr, status), StepRows(env, fr, n)))
  }

  function OpenWrites(env: Env, fr: FlowReq): seq<Write> {
    [FlowWrite(env, fr, Running, 0), Fresh(FIdempK(fr.tenant, fr.key), FIdempItem(FlowId(env)))]
  }

  function JournalWrite(env: Env, fr: FlowReq, i: nat, m: nat): Write
    requires i < |fr.steps| && m <= |fr.steps[i].entries|
  {
    Fresh(JrnK(fr.tenant, JournalId(env, fr, i)), JrnItem(JournalOf(env, fr, i, m)))
  }

  function EntryWrites(env: Env, fr: FlowReq, i: nat, m: nat): seq<Write>
    requires i < |fr.steps| && m <= |fr.steps[i].entries|
  {
    if m == 0 then [] else EntryWrites(env, fr, i, m - 1) + [JournalWrite(env, fr, i, m)]
  }

  function EventMarker(env: Env, fr: FlowReq, i: nat): Write
    requires i < |fr.steps|
  {
    Fresh(EvtK(fr.steps[i].eventId), EvtItem(JournalId(env, fr, i)))
  }

  function OutboxWrite(e: Event): Write {
    Fresh(ObxK(e.id), ObxItem(e))
  }

  function StepWrites(env: Env, fr: FlowReq, i: nat): seq<Write>
    requires i < |fr.steps|
  {
    [JournalWrite(env, fr, i, 0), EventMarker(env, fr, i)]
    + EntryWrites(env, fr, i, |fr.steps[i].entries|)
    + [FlowWrite(env, fr, Running, i + 1), OutboxWrite(EventOf(env, fr, i))]
  }

  function StepsWrites(env: Env, fr: FlowReq, n: nat): seq<Write>
    requires n <= |fr.steps|
  {
    if n == 0 then [] else StepsWrites(env, fr, n - 1) + StepWrites(env, fr, n - 1)
  }

  function BalKey(tenant: string, r: BalRef): Key {
    BalK(tenant, r.account, r.currency)
  }

  function BalWrite(fr: FlowReq, l: Loaded, r: BalRef): Write {
    Write(BalKey(fr.tenant, r),
      BalItem(FinalDebits(fr, l, r), FinalCredits(fr, l, r), l.version + 1),
      if l.existed then VersionEquals(l.version) else NotExists)
  }

  function BalWrites(fr: FlowReq, loaded: seq<Loaded>, n: nat): (ws: seq<Write>)
    requires n <= |loaded| && n <= |RefsOf(fr)|
    ensures |ws| == n
    ensures forall i | 0 <= i < n :: ws[i] == BalWrite(fr, loaded[i], RefsOf(fr)[i])
  {
    if n == 0 then [] else BalWrites(fr, loaded, n - 1) + [BalWrite(fr, loaded[n - 1], RefsOf(fr)[n - 1])]
  }

  /** All `put` calls of a fresh flow, in call order. */
  function FlowWrites(env: Env, fr: FlowReq, loaded: seq<Loaded>): seq<Write>
    requires |loaded| == |RefsOf(fr)|
  {
    OpenWrites(env, fr)
    + StepsWrites(env, fr, |fr.steps|)
    + BalWrites(fr, loaded, |loaded|)
    + [FlowWrite(env, fr, Completed, |fr.steps|)]
  }

  datatype FlowResult =
    | FlowFail(code: Code)
    | FlowReplay(run: FlowRun, steps: seq<FlowStep>)
    | FlowPosted(writes: seq<Write>, run: FlowRun, steps: seq<FlowStep>, used: nat)

  predicate StepOk(s: StepInput) {
    JournalOk(s.eventId, s.entries)
  }

  /** Journals are validated first, then overdrafts checked on the final balances. */
  function Post(env: Env, fr: FlowReq, loaded: seq<Loaded>): FlowResult
    requires |loaded| == |RefsOf(fr)|
  {
    if exists i | 0 <= i < |fr.steps| :: !StepOk(fr.steps[i]) then FlowFail(UnbalancedJournal)
    else if exists i | 0 <= i < |loaded| :: Overdrawn(fr, loaded[i], RefsOf(fr)[i]) then FlowFail(InsufficientFunds)
    else FlowPosted(FlowWrites(env, fr, loaded), RunOf(env, fr, Completed), StepRows(env, fr, |fr.steps|),
        StepBase(fr.steps, |fr.steps|))
  }

  // ------------------------------------------------------------------------------------------
  // The flow's reads
  // ------------------------------------------------------------------------------------------

  /** Where a flow stands between two reads. */
  datatype FlowLocal =
    | WantMarker
    | WantFlow(flowId: string)
    | WantSteps(run: FlowRun)
    | WantAccount(loaded: seq<Loaded>)
    | WantBalance(loaded: seq<Loaded>, account: Account)
    | WantProbe(loaded: seq<Loaded>, account: Account)
    | FlowEnd(res: FlowResult)

  predicate FlowWf(fr: FlowReq, l: FlowLocal) {
    match l
    case WantAccount(loaded) => |loaded| < |RefsOf(fr)|
    case WantBalance(loaded, _) => |loaded| < |RefsOf(fr)|
    case WantProbe(loaded, _) => |loaded| < |RefsOf(fr)|
    case _ => true
  }

  function FlowWant(fr: FlowReq, l: FlowLocal): Key
    requires FlowWf(fr, l) && !l.FlowEnd?
  {
    match l
    case WantMarker => FIdempK(fr.tenant, fr.key)
    case WantFlow(id) => FlowK(fr.tenant, id)
    case WantSteps(run) => FlowK(fr.tenant, run.id)
    case WantAccount(loaded) => AccK(fr.tenant, RefsOf(fr)[|loaded|].account)
    case WantBalance(loaded, _) => BalKey(fr.tenant, RefsOf(fr)[|loaded|])
    case WantProbe(loaded, _) => BalKey(fr.tenant, RefsOf(fr)[|loaded|])
  }

  function Loading(env: Env, fr: FlowReq, loaded: seq<Loaded>): (l: FlowLocal)
    requires |loaded| <= |RefsOf(fr)|
    ensures FlowWf(fr, l)
  {
    if |loaded| == |RefsOf(fr)| then FlowEnd(Post(env, fr, loaded)) else WantAccount(loaded)
  }

  /** GetBalance: a missing row reads as zero with version zero. */
  function BalanceRead(v: Option<Item>): (int, int, int) {
    if v.Some? && v.value.BalItem? then (v.value.debits, v.value.credits, v.value.version) else (0, 0, 0)
  }

  function FlowFeed(env: Env, fr: FlowReq, l: FlowLocal, v: Option<Item>): (l': FlowLocal)
    requires FlowWf(fr, l) && !l.FlowEnd?
    ensures FlowWf(fr, l')
  {
    match l
    case WantMarker =>
      if v.Some? && v.value.FIdempItem? then WantFlow(v.value.flowRunId) else Loading(env, fr, [])
    case WantFlow(_) =>
      if v.Some? && v.value.FlowItem? then
        if v.value.run.status != Completed then FlowEnd(FlowFail(FlowConflict)) else WantSteps(v.value.run)
      else Loading(env, fr, [])
    case WantSteps(run) =>
      FlowEnd(FlowReplay(run, if v.Some? && v.value.FlowItem? then v.value.steps else []))
    case WantAccount(loaded) =>
      if v.Some? && v.value.AccItem? then
        var a := v.value.account;
        if a.status != AccountStatus.Active then FlowEnd(FlowFail(InvalidAccountStatus))
        else if a.currency != RefsOf(fr)[|loaded|].currency then FlowEnd(FlowFail(AccountCurrencyMismatch))
        else WantBalance(loaded, a)
      else FlowEnd(FlowFail(AccountNotFound))
    case WantBalance(loaded, a) =>
      var (d, c, ver) := BalanceRead(v);
      if ver != 0 || d != 0 || c != 0 then Loading(env, fr, loaded + [Loaded(a, d, c, ver, true)])
      else WantProbe(loaded, a)
    case WantProbe(loaded, a) =>
      Loading(env, fr, loaded + [Loaded(a, 0, 0, 0, v.Some?)])
  }

  function FlowRank(fr: FlowReq, l: FlowLocal): nat
    requires FlowWf(fr, l)
  {
    var n := |RefsOf(fr)|;
    match l
    case WantMarker => 3 * n + 4
    case WantFlow(_) => 3 * n + 3
    case WantSteps(_) => 1
    case WantAccount(loaded) => 3 * (n - |loaded|) + 1
    case WantBalance(loaded, _) => 3 * (n - |loaded|)
    case WantProbe(loaded, _) => 3 * (n - |loaded|) - 1
    case FlowEnd(_) => 0
  }

  /** The flow run to its end when the table is `at(i)` at the store's i-th request, the next one being
      request `n`. Also yields the number of the request after the last. */
  function FlowDrive(env: Env, fr: FlowReq, l: FlowLocal, at: nat -> Table, n: nat): (FlowLocal, nat)
    requires FlowWf(fr, l)
    decreases FlowRank(fr, l)
  {
    if l.FlowEnd? then (l, n)
    else FlowDrive(env, fr, FlowFeed(env, fr, l, Lookup(at(n), FlowWant(fr, l))), at, n + 1)
  }

  // ------------------------------------------------------------------------------------------
  // Whole handlers
  // ------------------------------------------------------------------------------------------

  /** A reservation row as the handler read it. */
  datatype HeldRow = HeldRow(res: Reservation, version: int)

  datatype Local =
    | WantReservationMarker
    | WantReplayed(reservationId: string)
    | WantReservation
    | WantDestination(held: HeldRow)
    | InFlow(fr: FlowReq, row: Option<HeldRow>, fl: FlowLocal)
    | Finished(out: Outcome)

  predicate Wf(l: Local) {
    l.InFlow? ==> FlowWf(l.fr, l.fl) && !l.fl.FlowEnd?
  }

  function TenantOf(r: Request): string {
    if r.ExecuteFlow? then r.flow.tenant else r.tenant
  }

  function AccountId(ownerType: string, ownerId: string, accountType: string, currency: string): string {
    ownerType + ":" + ownerId + ":" + accountType + ":" + currency
  }

  function NewAccount(r: Request): Account
    requires r.CreateAccount?
  {
    Account(AccountId(r.ownerType, r.ownerId, r.accountType, r.currency), r.tenant, r.ownerType, r.ownerId,
      r.accountType, r.currency, r.normalBalance, r.allowNegative, AccountStatus.Active)
  }

  function AccountWrites(a: Account): seq<Write> {
    [Fresh(AccK(a.tenantId, a.id), AccItem(a)),
     Fresh(AccUK(a.tenantId, a.ownerType, a.ownerId, a.accountType, a.currency), AccUItem(a.id))]
  }

  /** One journal that debits `debit` and credits `credit`. */
  function Transfer(stepId: string, eventId: string, debit: string, credit: string, currency: string,
      amount: int): seq<StepInput> {
    [StepInput(stepId, eventId, [Entry(debit, currency, Debit, amount), Entry(credit, currency, Credit, amount)])]
  }

  function CreateFlow(r: Request): FlowReq
    requires r.CreateReservation?
  {
    FlowReq(r.tenant, "CREATE_RESERVATION", r.key + ":create",
      Transfer("reserve", r.key + ":reserve", r.reserved, r.source, r.currency, r.amount))
  }

  function CommitFlow(r: Request, res: Reservation, destination: string): FlowReq
    requires r.CommitReservation?
  {
    FlowReq(r.tenant, "COMMIT_RESERVATION", res.id + ":commit:" + r.key,
      Transfer("commit", res.id + ":commit:" + r.key, destination, res.reservedAccountId, res.currency, r.amount))
  }

  function ReleaseFlow(r: Request, res: Reservation): FlowReq
    requires r.ReleaseReservation?
  {
    FlowReq(r.tenant, "RELEASE_RESERVATION", res.id + ":release:" + r.key,
      Transfer("release", res.id + ":release:" + r.key, res.sourceAccountId, res.reservedAccountId, res.currency,
        r.amount))
  }

  function ExpireFlow(r: Request, res: Reservation): FlowReq
    requires r.ExpireReservation?
  {
    FlowReq(r.tenant, "EXPIRE_RESERVATION", res.id + ":expire",
      Transfer("expire", res.id + ":expire", res.sourceAccountId, res.reservedAccountId, res.currency, res.outstanding))
  }

  function NewReservation(r: Request, id: string, flowRunId: string, now: int): Reservation
    requires r.CreateReservation?
  {
    Reservation(id, r.tenant, r.key, r.source, r.reserved, r.currency, r.amount, r.amount, 0, 0, Held, r.expiresAt,
      flowRunId, now)
  }

  function Committing(res: Reservation, amount: int): Reservation {
    res.(outstanding := res.outstanding - amount, committed := res.committed + amount,
         status := if res.outstanding - amount == 0 then Committed else Partial)
  }

  function Releasing(res: Reservation, amount: int): Reservation {
    res.(outstanding := res.outstanding - amount, released := res.released + amount,
         status := if res.outstanding - amount == 0 then Released else Partial)
  }

  function Expiring(res: Reservation): Reservation {
    res.(outstanding := res.outstanding - res.outstanding, released := res.released + res.outstanding,
      status := Expired)
  }

  function CreatedEvent(id: string, res: Reservation): Event {
    Event(id, res.tenantId, res.id, "RESERVATION_CREATED", res.id + ":created")
  }

  /** The row update and outbox event that end a commit, release or expiry. */
  function UpdateWrites(r: Request, row: HeldRow, after: Reservation, e: Event): seq<Write> {
    [Write(ResK(TenantOf(r), row.res.id), ReservationToItem(after, row.version + 1), VersionEquals(row.version)),
     OutboxWrite(e)]
  }

  function Results(steps: seq<FlowStep>): seq<StepResult> {
    seq(|steps|, i requires 0 <= i < |steps| => StepResult(steps[i].stepId, steps[i].journalId))
  }

  /** What the handler does once its inner flow has ended. */
  function After(r: Request, env: Env, row: Option<HeldRow>, res: FlowResult): Outcome {
    if res.FlowFail? then Fail(res.code)
    else
      var writes := if res.FlowPosted? then res.writes else [];
      var used := if res.FlowPosted? then res.used else 0;
      match r
      case CreateAccount(_, _, _, _, _, _, _) => Fail(Internal)
      case ExecuteFlow(_) => Done(writes, FlowResponse(res.run.id, res.run.status, Results(res.steps)))
      case CreateReservation(t, key, _, _, _, _, _) =>
        var rsv := NewReservation(r, env.Id(used), res.run.id, env.now);
        Done(writes + [Fresh(ResK(t, rsv.id), ReservationToItem(rsv, 1)),
                       Fresh(RIdempK(t, key), RIdempItem(rsv.id)),
                       OutboxWrite(CreatedEvent(env.Id(used + 1), rsv))],
             ReservationResponse(rsv))
      case CommitReservation(_, _, key, _, amount) =>
        if row == None then Fail(Internal)
        else
          var was := row.value.res;
          var rsv := Committing(was, amount);
          Done(writes + UpdateWrites(r, row.value, rsv,
                 Event(env.Id(used), was.tenantId, was.id, "RESERVATION_COMMITTED", was.id + ":committed:" + key)),
               ReservationResponse(rsv))
      case ReleaseReservation(_, _, key, amount) =>
        if row == None then Fail(Internal)
        else
          var was := row.value.res;
          var rsv := Releasing(was, amount);
          Done(writes + UpdateWrites(r, row.value, rsv,
                 Event(env.Id(used), was.tenantId, was.id, "RESERVATION_RELEASED", was.id + ":released:" + key)),
               ReservationResponse(rsv))
      case ExpireReservation(_, _) =>
        if row == None then Fail(Internal)
        else
          var was := row.value.res;
          Done(writes + UpdateWrites(r, row.value, Expiring(was),
                 Event(env.Id(used), was.tenantId, was.id, "RESERVATION_EXPIRED", was.id + ":expired")),
               NoResponse)
  }

  function Lift(r: Request, env: Env, fr: FlowReq, row: Option<HeldRow>, fl: FlowLocal): (l: Local)
    requires FlowWf(fr, fl)
    ensures Wf(l)
  {
    if fl.FlowEnd? then Finished(After(r, env, row, fl.res)) else InFlow(fr, row, fl)
  }

  /** Entering executeFlowInTx: the steps are parsed before anything is read. */
  function FlowStart(raw: FlowReq): FlowLocal {
    if AmountsOk(raw.steps) then WantMarker else FlowEnd(FlowFail(UnbalancedJournal))
  }

  function Parsed(raw: FlowReq): FlowReq {
    raw.(steps := ParseSteps(raw.steps))
  }

  function BeginFlow(r: Request, env: Env, raw: FlowReq, row: Option<HeldRow>): (l: Local)
    ensures Wf(l)
  {
    Lift(r, env, Parsed(raw), row, FlowStart(raw))
  }

  function Start(r: Request, env: Env): (l: Local)
    ensures Wf(l)
  {
    match r
    case CreateAccount(_, _, _, _, _, _, _) =>
      Finished(Done(AccountWrites(NewAccount(r)), AccountResponse(NewAccount(r))))
    case ExecuteFlow(raw) => BeginFlow(r, env, raw, None)
    case CreateReservation(_, _, _, _, _, amount, _) =>
      if amount <= 0 then Finished(Fail(ReservationAmountExceeds)) else WantReservationMarker
    case CommitReservation(_, _, _, _, amount) =>
      if amount <= 0 then Finished(Fail(ReservationAmountExceeds)) else WantReservation
    case ReleaseReservation(_, _, _, amount) =>
      if amount <= 0 then Finished(Fail(ReservationAmountExceeds)) else WantReservation
    case ExpireReservation(_, _) => WantReservation
  }

  function ReservationIdOf(r: Request): string {
    match r
    case CommitReservation(_, id, _, _, _) => id
    case ReleaseReservation(_, id, _, _) => id
    case ExpireReservation(_, id) => id
    case _ => ""
  }

  function Want(r: Request, l: Local): Key
    requires Wf(l) && !l.Finished?
  {
    match l
    case WantReservationMarker => RIdempK(TenantOf(r), if r.CreateReservation? then r.key else "")
    case WantReplayed(id) => ResK(TenantOf(r), id)
    case WantReservation => ResK(TenantOf(r), ReservationIdOf(r))
    case WantDestination(_) => AccK(TenantOf(r), if r.CommitReservation? then r.destination else "")
    case InFlow(fr, _, fl) => FlowWant(fr, fl)
  }

  /** What commit, release and expiry decide from the reservation row alone. */
  function OnReservation(r: Request, env: Env, row: HeldRow): (l: Local)
    ensures Wf(l)
  {
    var res := row.res;
    match r
    case CommitReservation(_, _, _, _, amount) =>
      if Closed(res.status) then Finished(Fail(ReservationClosed))
      else if amount > res.outstanding then Finished(Fail(ReservationAmountExceeds))
      else WantDestination(row)
    case ReleaseReservation(_, _, _, amount) =>
      if Closed(res.status) then Finished(Fail(ReservationClosed))
      else if amount > res.outstanding then Finished(Fail(ReservationAmountExceeds))
      else BeginFlow(r, env, ReleaseFlow(r, res), Some(row))
    case ExpireReservation(_, _) =>
      if Closed(res.status) || res.outstanding == 0 then Finished(Done([], NoResponse))
      else BeginFlow(r, env, ExpireFlow(r, res), Some(row))
    case _ => Finished(Fail(Internal))
  }

  function Feed(r: Request, env: Env, l: Local, v: Option<Item>): (l': Local)
    requires Wf(l) && !l.Finished?
    ensures Wf(l')
  {
    match l
    case WantReservationMarker =>
      if v.Some? && v.value.RIdempItem? then WantReplayed(v.value.reservationId)
      else if r.CreateReservation? then BeginFlow(r, env, CreateFlow(r), None)
      else Finished(Fail(Internal))
    case WantReplayed(_) =>
      if v.Some? && v.value.ResItem? then Finished(Done([], ReservationResponse(v.value.reservation)))
      else Finished(Fail(ReservationNotFound))
    case WantReservation =>
      if v.Some? && v.value.ResItem? then OnReservation(r, env, HeldRow(v.value.reservation, v.value.resVersion))
      else Finished(Fail(ReservationNotFound))
    case WantDestination(row) =>
      if v.Some? && v.value.AccItem? then
        var dst := v.value.account;
        if dst.currency != row.res.currency then Finished(Fail(ReservationCurrencyMismatch))
        else if r.CommitReservation? then BeginFlow(r, env, CommitFlow(r, row.res, dst.id), Some(row))
        else Finished(Fail(Internal))
      else Finished(Fail(AccountNotFound))
    case InFlow(fr, row, fl) => Lift(r, env, fr, row, FlowFeed(env, fr, fl, v))
  }

  function Phase(l: Local): nat {
    match l
    case WantReservationMarker => 3
    case WantReservation => 3
    case WantDestination(_) => 2
    case WantReplayed(_) => 1
    case InFlow(_, _, _) => 1
    case Finished(_) => 0
  }

  function Rank(l: Local): nat
    requires Wf(l)
  {
    if l.InFlow? then FlowRank(l.fr, l.fl) else 0
  }

  lemma {:induction false} FeedDecreases(r: Request, env: Env, l: Local, v: Option<Item>)
    requires Wf(l) && !l.Finished?
    ensures var l' := Feed(r, env, l, v);
            Phase(l') < Phase(l) || (Phase(l') == Phase(l) && Rank(l') < Rank(l))
  {
    hide RefsOf, Post, After, ParseSteps, AmountsOk;
  }

  /** The whole handler, as `FlowDrive` is the flow. */
  function Drive(r: Request, env: Env, l: Local, at: nat -> Table, n: nat): (out: (Local, nat))
    requires Wf(l)
    ensures out.0.Finished?
    decreases Phase(l), Rank(l)
  {
    if l.Finished? then (l, n)
    else
      FeedDecreases(r, env, l, Lookup(at(n), Want(r, l)));
      Drive(r, env, Feed(r, env, l, Lookup(at(n), Want(r, l))), at, n + 1)
  }

  lemma {:induction false} FlowFeedDecreases(env: Env, fr: FlowReq, l: FlowLocal, v: Option<Item>)
    requires FlowWf(fr, l) && !l.FlowEnd?
    ensures FlowRank(fr, FlowFeed(env, fr, l, v)) < FlowRank(fr, l)
  {
    hide RefsOf, Post;
  }

  lemma {:induction false} FlowDriveEnds(env: Env, fr: FlowReq, l: FlowLocal, at: nat -> Table, n: nat)
    requires FlowWf(fr, l)
    ensures FlowDrive(env, fr, l, at, n).0.FlowEnd?
    decreases FlowRank(fr, l)
  {
    hide RefsOf, Post, FlowRank, FlowFeed;
    if !l.FlowEnd? {
      FlowFeedDecreases(env, fr, l, Lookup(at(n), FlowWant(fr, l)));
      FlowDriveEnds(env, fr, FlowFeed(env, fr, l, Lookup(at(n), FlowWant(fr, l))), at, n + 1);
    }
  }

  /** A handler inside its flow runs the flow to the end and then `After`. */
  lemma {:induction false} DriveLift(r: Request, env: Env, fr: FlowReq, row: Option<HeldRow>, fl: FlowLocal,
      at: nat -> Table, n: nat)
    requires FlowWf(fr, fl)
    ensures FlowDrive(env, fr, fl, at, n).0.FlowEnd?
    ensures Drive(r, env, Lift(r, env, fr, row, fl), at, n)
         == (Finished(After(r, env, row, FlowDrive(env, fr, fl, at, n).0.res)), FlowDrive(env, fr, fl, at, n).1)
    decreases FlowRank(fr, fl)
  {
    hide RefsOf, Post, After, BeginFlow, OnReservation, CreateFlow, CommitFlow, FlowRank, FlowFeed, FlowWant;
    FlowDriveEnds(env, fr, fl, at, n);
    if !fl.FlowEnd? {
      FlowFeedDecreases(env, fr, fl, Lookup(at(n), FlowWant(fr, fl)));
      DriveLift(r, env, fr, row, FlowFeed(env, fr, fl, Lookup(at(n), FlowWant(fr, fl))), at, n + 1);
    }
  }

  // ------------------------------------------------------------------------------------------
  // The complete call
  // ------------------------------------------------------------------------------------------

  /** A handler call from begin to commit: its answer and, when it sent a write request, the table that
      request left behind. Read-only outcomes send none. */
  datatype CallResult = CallResult(answer: Result<Response>, wrote: Option<Table>)

  function Conclude(out: Outcome, at: nat -> Table, m: nat): CallResult {
    match out
    case Fail(code) => CallResult(Err(code), None)
    case Done(writes, resp) =>
      var b := AddAll(Empty, writes);
      if |b.puts| == 0 || |b.puts| > MAX_TX_ITEMS then
        CallResult(if |b.puts| == 0 then Ok(resp) else Err(FlowTooLarge), None)
      else
        var (err, t) := CommitOn(at(m), b);
        CallResult(if err == None then Ok(resp) else Err(err.value), Some(t))
  }

  function Call(r: Request, env: Env, at: nat -> Table, n: nat): CallResult {
    var (l, m) := Drive(r, env, Start(r, env), at, n);
    Conclude(l.out, at, m)
  }
}
