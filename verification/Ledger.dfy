/** Domain types and accounting rules (internal/ledger). Amounts are exact: an `int` counts units of
    10^-18, the scale of the DECIMAL(38, 18) columns. */
module Ledger {

  datatype Option<+T> = None | Some(value: T)

  /** The domain error codes a flow or reservation handler can return; `Internal` stands for an
      error that carries no domain code. */
  datatype Code =
    | InsufficientFunds | AccountNotFound | AccountCurrencyMismatch | UnbalancedJournal
    | FlowConflict | InvalidAccountStatus | SerializationRetryExhausted | ReservationNotFound
    | ReservationClosed | ReservationAmountExceeds | ReservationCurrencyMismatch | FlowTooLarge
    | Internal

  datatype Result<+T> = Ok(value: T) | Err(code: Code)

  /** `Unspecified` is any other direction text, or the unset protobuf value. */
  datatype Direction = Debit | Credit | Unspecified

  datatype Entry = Entry(accountId: string, currency: string, direction: Direction, amount: int)

  datatype Journal = Journal(id: string, tenantId: string, flowRunId: string, eventId: string, entries: seq<Entry>)

  datatype NormalBalance = NormalDebit | NormalCredit

  datatype AccountStatus = Active | Frozen | ClosedAccount

  datatype Account = Account(
    id: string, tenantId: string, ownerType: string, ownerId: string, accountType: string,
    currency: string, normalBalance: NormalBalance, allowNegative: bool, status: AccountStatus)

  datatype FlowStatus = Running | Completed | Failed

  datatype FlowStep = FlowStep(id: string, stepId: string, journalId: string)

  datatype FlowRun = FlowRun(id: string, tenantId: string, flowType: string, idempotencyKey: string, status: FlowStatus)

  /** What callers submit per step: a step id and the journal to post. */
  datatype StepInput = StepInput(stepId: string, eventId: string, entries: seq<Entry>)

  datatype ReservationStatus = Held | Partial | Committed | Released | Expired

  datatype Reservation = Reservation(
    id: string, tenantId: string, idempotencyKey: string, sourceAccountId: string,
    reservedAccountId: string, currency: string, original: int, outstanding: int, committed: int,
    released: int, status: ReservationStatus, expiresAt: Option<int>, flowRunId: string,
    createdAt: int)

  /** Terminal statuses: no further transition is allowed. */
  predicate Closed(s: ReservationStatus) {
    s == Committed || s == Released || s == Expired
  }

  function NormalizedBalance(nb: NormalBalance, debits: int, credits: int): int {
    if nb == NormalCredit then credits - debits else debits - credits
  }

  // ------------------------------------------------------------------------------------------
  // Journal validation
  // ------------------------------------------------------------------------------------------

  function Signed(e: Entry): int {
    if e.direction == Credit then -e.amount else e.amount
  }

  /** Debits minus credits of `es` in one currency. */
  function Net(es: seq<Entry>, currency: string): int {
    if es == [] then 0
    else
      var e := es[|es| - 1];
      Net(es[..|es| - 1], currency) + if e.currency == currency then Signed(e) else 0
  }

  predicate EntryOk(e: Entry) {
    e.accountId != "" && e.currency != "" && e.direction != Unspecified && e.amount > 0
  }

  /** The core accounting rule, stated outright: entries exist, each is well formed, and every
      currency balances. Balancing is asked only of currencies that occur; by `NetAbsent` the others
      balance too. */
  predicate JournalOk(eventId: string, es: seq<Entry>) {
    && eventId != ""
    && es != []
    && (forall i | 0 <= i < |es| :: EntryOk(es[i]))
    && (forall i | 0 <= i < |es| :: Net(es, es[i].currency) == 0)
  }

  lemma {:induction false} NetAbsent(es: seq<Entry>, currency: string)
    requires forall i | 0 <= i < |es| :: es[i].currency != currency
    ensures Net(es, currency) == 0
  {
    if es != [] {
      NetAbsent(es[..|es| - 1], currency);
    }
  }

  /** A valid journal balances in every currency whatsoever. */
  lemma {:induction false} ValidJournalBalances(eventId: string, es: seq<Entry>, currency: string)
    requires JournalOk(eventId, es)
    ensures Net(es, currency) == 0
  {
    if i :| 0 <= i < |es| && es[i].currency == currency {
      assert Net(es, es[i].currency) == 0;
    } else {
      NetAbsent(es, currency);
    }
  }

  /** What `es` posts on one side in one currency. */
  function Side(es: seq<Entry>, currency: string, side: Direction): int {
    if es == [] then 0
    else
      var e := es[|es| - 1];
      Side(es[..|es| - 1], currency, side) + if e.currency == currency && e.direction == side then e.amount else 0
  }

  lemma {:induction false} NetIsSides(es: seq<Entry>, currency: string)
    requires forall i | 0 <= i < |es| :: es[i].direction != Unspecified
    ensures Net(es, currency) == Side(es, currency, Debit) - Side(es, currency, Credit)
  {
    if es != [] {
      NetIsSides(es[..|es| - 1], currency);
    }
  }

  /** As much debited as credited, in every currency there is. */
  ghost predicate Balanced(es: seq<Entry>) {
    forall currency :: Side(es, currency, Debit) == Side(es, currency, Credit)
  }

  predicate Complete(e: Entry) {
    e.accountId != "" && e.currency != "" && (e.direction == Debit || e.direction == Credit) && e.amount > 0
  }

  /** The rule in terms of debits and credits, for every currency there is. */
  lemma {:induction false} JournalOkIff(eventId: string, es: seq<Entry>)
    ensures JournalOk(eventId, es) <==> eventId != "" && |es| > 0 && (forall e | e in es :: Complete(e)) && Balanced(es)
  {
    hide Net, Side;
    if i :| 0 <= i < |es| && !EntryOk(es[i]) {
      assert es[i] in es;
    } else {
      forall currency ensures Net(es, currency) == Side(es, currency, Debit) - Side(es, currency, Credit) {
        NetIsSides(es, currency);
      }
      if JournalOk(eventId, es) {
        forall currency ensures Side(es, currency, Debit) == Side(es, currency, Credit) {
          ValidJournalBalances(eventId, es, currency);
        }
      }
    }
  }

  /** What the map of running sums holds after the entries `es`. */
  ghost predicate SumsOf(sums: map<string, int>, es: seq<Entry>) {
    && (forall n | 0 <= n < |es| :: es[n].currency in sums)
    && (forall c | c in sums :: sums[c] == Net(es, c) && exists n :: 0 <= n < |es| && es[n].currency == c)
  }

  lemma {:induction false} SumsStep(sums: map<string, int>, es: seq<Entry>, e: Entry)
    requires SumsOf(sums, es)
    ensures SumsOf(sums[e.currency := (if e.currency in sums then sums[e.currency] else 0) + Signed(e)], es + [e])
  {
    var es' := es + [e];
    assert es'[..|es|] == es;
    if e.currency !in sums {
      NetAbsent(es, e.currency);
    }
    var sums' := sums[e.currency := (if e.currency in sums then sums[e.currency] else 0) + Signed(e)];
    forall c | c in sums'
      ensures sums'[c] == Net(es', c) && exists n :: 0 <= n < |es'| && es'[n].currency == c
    {
      if c == e.currency {
        assert es'[|es|].currency == c;
      } else {
        var n :| 0 <= n < |es| && es[n].currency == c;
        assert es'[n].currency == c;
      }
    }
    forall n | 0 <= n < |es'| ensures es'[n].currency in sums' {
      assert n < |es| ==> es'[n] == es[n];
    }
  }

  lemma {:induction false} EmptySums()
    ensures SumsOf(map[], [])
  {
  }

  /** Journal.Validate: one pass that accumulates signed sums per currency, then a pass over the sums
      in arbitrary map order. */
  method Validate(j: Journal) returns (ok: bool)
    ensures ok <==> JournalOk(j.eventId, j.entries)
  {
    hide Net, SumsOf;
    EmptySums();
    if j.eventId == "" { return false; }
    if |j.entries| == 0 { return false; }
    var sums: map<string, int> := map[];
    var i := 0;
    while i < |j.entries|
      invariant 0 <= i <= |j.entries|
      invariant forall n | 0 <= n < i :: EntryOk(j.entries[n])
      invariant SumsOf(sums, j.entries[..i])
    {
      var e := j.entries[i];
      if e.accountId == "" || e.currency == "" { return false; }
      if e.direction == Unspecified { return false; }
      if e.amount <= 0 { return false; }
      var signed := e.amount;
      if e.direction == Credit { signed := -signed; }
      SumsStep(sums, j.entries[..i], e);
      assert j.entries[..i] + [e] == j.entries[..i + 1];
      sums := sums[e.currency := (if e.currency in sums then sums[e.currency] else 0) + signed];
      i := i + 1;
    }
    assert j.entries[..i] == j.entries;
    ok := AllZero(sums, j.entries);
  }

  /** The second pass: the sums are ranged over in arbitrary order, and any non-zero one fails. */
  method AllZero(sums: map<string, int>, ghost es: seq<Entry>) returns (ok: bool)
    requires SumsOf(sums, es)
    ensures ok <==> forall i | 0 <= i < |es| :: Net(es, es[i].currency) == 0
  {
    var left := sums.Keys;
    while left != {}
      invariant left <= sums.Keys
      invariant forall c | c in sums && c !in left :: sums[c] == 0
    {
      var c :| c in left;
      if sums[c] != 0 {
        return false;
      }
      left := left - {c};
    }
    return true;
  }
}
