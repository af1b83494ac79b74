/** What every committed handler keeps: each balance is the sum of the posted entries, every tenant's books
    balance in every currency, and no account that disallows negatives is overdrawn. */
module Books {
  import opened Ledger
  import opened Keys
  import opened Items
  import opened Ordering
  import opened Handlers
  import opened Writes
  import opened Serializability
  import opened Atomic
  import opened Journals
  import opened Effects
  import opened Sums

  // ------------------------------------------------------------------------------------------
  // Balances are the sums of the posted entries
  // ------------------------------------------------------------------------------------------

  /** What the journal stored under `k` posts to one balance on one side. */
  function JournalPosts(t: Table, k: Key, tenant: string, ref: BalRef, debit: bool): int {
    if k in t && k.JrnK? && k.tenant == tenant && t[k].JrnItem? then Sum(t[k].journal.entries, ref, debit) else 0
  }

  /** All posted entries of one balance on one side, summed over every stored journal. */
  ghost function PostedTotal(t: Table, tenant: string, ref: BalRef, debit: bool): int {
    SumOver(t.Keys, (k: Key) => JournalPosts(t, k, tenant, ref, debit))
  }

  ghost predicate BalancesAddUp(t: Table) {
    forall tenant, ref {:trigger BalKey(tenant, ref)} ::
      var (d, c, _) := BalanceRead(Lookup(t, BalKey(tenant, ref)));
      d == PostedTotal(t, tenant, ref, true) && c == PostedTotal(t, tenant, ref, false)
  }

  lemma {:induction false} SumConcat(xs: seq<Entry>, ys: seq<Entry>, ref: BalRef, debit: bool)
    ensures Sum(xs + ys, ref, debit) == Sum(xs, ref, debit) + Sum(ys, ref, debit)
  {
    if ys == [] {
      assert xs + ys == xs;
    } else {
      var n := |ys| - 1;
      assert (xs + ys)[..|xs + ys| - 1] == xs + ys[..n];
      SumConcat(xs, ys[..n], ref, debit);
    }
  }

  lemma {:induction false} SumAbsent(es: seq<Entry>, ref: BalRef, debit: bool)
    requires forall e | e in es :: RefOf(e) != ref
    ensures Sum(es, ref, debit) == 0
  {
    if es != [] {
      SumAbsent(es[..|es| - 1], ref, debit);
    }
  }

  lemma {:induction false} SumUnlisted(fr: FlowReq, ref: BalRef, debit: bool)
    requires ref !in RefsOf(fr)
    ensures Sum(AllEntries(fr.steps), ref, debit) == 0
  {
    RefsSorted(AllEntries(fr.steps));
    SumAbsent(AllEntries(fr.steps), ref, debit);
  }

  function JournalKeys(env: Env, fr: FlowReq, n: nat): set<Key>
    requires n <= |fr.steps|
  {
    if n == 0 then {} else JournalKeys(env, fr, n - 1) + {JournalKey(env, fr, n - 1)}
  }

  lemma {:induction false} JournalKeysAre(env: Env, fr: FlowReq, n: nat, k: Key)
    requires n <= |fr.steps|
    ensures k in JournalKeys(env, fr, n) <==> exists i: nat :: i < n && k == JournalKey(env, fr, i)
  {
    hide JournalId;
    if n > 0 {
      JournalKeysAre(env, fr, n - 1, k);
    }
  }

  /** The new journals together post the flow's entries. */
  lemma {:induction false} NewJournalsPost(u: Table, env: Env, fr: FlowReq, n: nat, tenant: string, ref: BalRef,
      debit: bool)
    requires n <= |fr.steps| && DistinctIds(env)
    requires forall i: nat | i < |fr.steps| ::
        Lookup(u, JournalKey(env, fr, i)) == Some(JrnItem(FullJournal(env, fr, i)))
    ensures SumOver(JournalKeys(env, fr, n), (k: Key) => JournalPosts(u, k, tenant, ref, debit))
         == if tenant == fr.tenant then Sum(AllEntries(fr.steps[..n]), ref, debit) else 0
  {
    hide JournalId, DistinctIds, Sum;
    if n > 0 {
      NewJournalsPost(u, env, fr, n - 1, tenant, ref, debit);
      var k := JournalKey(env, fr, n - 1);
      JournalKeysAre(env, fr, n - 1, k);
      if k in JournalKeys(env, fr, n - 1) {
        var i: nat :| i < n - 1 && k == JournalKey(env, fr, i);
        JournalIdsDistinct(env, fr, i, n - 1);
      }
      SumInsert(JournalKeys(env, fr, n - 1), (k: Key) => JournalPosts(u, k, tenant, ref, debit), k);
      assert Lookup(u, k) == Some(JrnItem(FullJournal(env, fr, n - 1)));
      var es := fr.steps[n - 1].entries;
      assert es[..|es|] == es;
      assert fr.steps[..n][..n - 1] == fr.steps[..n - 1];
      SumConcat(AllEntries(fr.steps[..n - 1]), es, ref, debit);
    } else {
      NoEntries(ref, debit);
    }
  }

  lemma {:induction false} NoEntries(ref: BalRef, debit: bool)
    ensures Sum(AllEntries([]), ref, debit) == 0
    ensures forall steps: seq<StepInput> :: steps[..0] == []
  {
  }

  /** A committed handler raises the posted total of a balance by exactly what its flow posts there. */
  lemma {:induction false} StepPosts(r: Request, env: Env, t: Table, u: Table, tenant: string, ref: BalRef, debit: bool)
    requires Takes(r, env, t, u) && DistinctIds(env)
    ensures var p := PostedBy(r, env, t);
            PostedTotal(u, tenant, ref, debit) == PostedTotal(t, tenant, ref, debit)
              + if p.Some? && p.value.tenant == tenant then Sum(AllEntries(p.value.steps), ref, debit) else 0
  {
    hide Takes, PostedBy, Sum, JournalId, FullJournal, DistinctIds, AllEntries;
    var p := PostedBy(r, env, t);
    var f, g := (k: Key) => JournalPosts(t, k, tenant, ref, debit), (k: Key) => JournalPosts(u, k, tenant, ref, debit);
    KeysKept(r, env, t, u);
    forall k | k in t ensures f(k) == g(k) {
      if k.JrnK? {
        StepJournal(r, env, t, u, k);
      }
    }
    SumAgree(t.Keys, f, g);
    var added := if p.Some? then JournalKeys(env, p.value, |p.value.steps|) else {};
    if p.Some? {
      forall i: nat | i < |p.value.steps|
        ensures Lookup(u, JournalKey(env, p.value, i)) == Some(JrnItem(FullJournal(env, p.value, i)))
            && JournalKey(env, p.value, i) !in t
      {
        StepJournal(r, env, t, u, JournalKey(env, p.value, i));
      }
      NewJournalsPost(u, env, p.value, |p.value.steps|, tenant, ref, debit);
      assert p.value.steps[..|p.value.steps|] == p.value.steps;
    } else {
      SumZero({}, g);
    }
    forall k | k in added ensures k in u && k !in t {
      JournalKeysAre(env, p.value, |p.value.steps|, k);
    }
    forall k | k in u.Keys - (t.Keys + added) ensures g(k) == 0 {
      if k.JrnK? {
        StepJournal(r, env, t, u, k);
        if p.Some? {
          JournalKeysAre(env, p.value, |p.value.steps|, k);
        }
      }
    }
    SumUnion(t.Keys, added, g);
    SumWiden(t.Keys + added, u.Keys, g);
  }

  /** Rows are never removed. */
  lemma {:induction false} KeysKept(r: Request, env: Env, t: Table, u: Table)
    requires Takes(r, env, t, u)
    ensures t.Keys <= u.Keys
  {
    hide StepAll, Takes, AllHold;
    TakesIs(r, env, t, u);
  }

  lemma {:induction false} StepAddsUp(r: Request, env: Env, t: Table, u: Table)
    requires Takes(r, env, t, u) && DistinctIds(env) && BalancesAddUp(t)
    ensures BalancesAddUp(u)
  {
    hide Takes, PostedBy, Sum, DistinctIds, AllEntries, PostedTotal, RefsOf;
    var p := PostedBy(r, env, t);
    forall tenant, ref {:trigger BalKey(tenant, ref)}
      ensures var (d, c, _) := BalanceRead(Lookup(u, BalKey(tenant, ref)));
              d == PostedTotal(u, tenant, ref, true) && c == PostedTotal(u, tenant, ref, false)
    {
      StepBalance(r, env, t, u, tenant, ref);
      StepPosts(r, env, t, u, tenant, ref, true);
      StepPosts(r, env, t, u, tenant, ref, false);
      if p.Some? && p.value.tenant == tenant && ref !in RefsOf(p.value) {
        SumUnlisted(p.value, ref, true);
        SumUnlisted(p.value, ref, false);
      }
    }
  }

  // ------------------------------------------------------------------------------------------
  // Debits equal credits
  // ------------------------------------------------------------------------------------------

  function RowNet(t: Table, k: Key, tenant: string, currency: string): int {
    if k in t && k.BalK? && k.tenant == tenant && k.currency == currency && t[k].BalItem?
      then t[k].debits - t[k].credits else 0
  }

  /** All posted debits less all posted credits of one tenant in one currency, over every balance row. */
  ghost function BooksNet(t: Table, tenant: string, currency: string): int {
    SumOver(t.Keys, (k: Key) => RowNet(t, k, tenant, currency))
  }

  ghost predicate BooksBalance(t: Table) {
    forall tenant, currency :: BooksNet(t, tenant, currency) == 0
  }

  lemma {:induction false} NetConcat(xs: seq<Entry>, ys: seq<Entry>, currency: string)
    ensures Net(xs + ys, currency) == Net(xs, currency) + Net(ys, currency)
  {
    if ys == [] {
      assert xs + ys == xs;
    } else {
      var n := |ys| - 1;
      assert (xs + ys)[..|xs + ys| - 1] == xs + ys[..n];
      NetConcat(xs, ys[..n], currency);
    }
  }

  lemma {:induction false} StepsNet(steps: seq<StepInput>, currency: string)
    requires forall i | 0 <= i < |steps| :: StepOk(steps[i])
    ensures Net(AllEntries(steps), currency) == 0
    ensures forall e | e in AllEntries(steps) :: e.direction != Unspecified && e.amount > 0
  {
    if steps != [] {
      var n := |steps| - 1;
      StepsNet(steps[..n], currency);
      ValidJournalBalances(steps[n].eventId, steps[n].entries, currency);
      NetConcat(AllEntries(steps[..n]), steps[n].entries, currency);
    }
  }

  /** The share of one balance in the net of `es`. */
  function Share(es: seq<Entry>, k: Key, tenant: string, currency: string): int {
    if k.BalK? && k.tenant == tenant && k.currency == currency
    then Sum(es, BalRef(k.account, k.currency), true) - Sum(es, BalRef(k.account, k.currency), false) else 0
  }

  /** The net of a list of entries, spread over the balances it touches. */
  lemma {:induction false} NetSpread(s: set<Key>, es: seq<Entry>, tenant: string, currency: string)
    requires forall e | e in es :: e.direction != Unspecified && BalKey(tenant, RefOf(e)) in s
    ensures SumOver(s, (k: Key) => Share(es, k, tenant, currency)) == Net(es, currency)
  {
    if es == [] {
      SumZero(s, (k: Key) => Share(es, k, tenant, currency));
    } else {
      var n := |es| - 1;
      var e := es[n];
      assert es == es[..n] + [e];
      NetSpread(s, es[..n], tenant, currency);
      var f, h := (k: Key) => Share(es[..n], k, tenant, currency), (k: Key) => Share(es, k, tenant, currency);
      var g := (k: Key) => if k == BalKey(tenant, RefOf(e)) && e.currency == currency then Signed(e) else 0;
      assert e in es;
      SumSplit(s, f, g, h);
      SumPoint(s, g, BalKey(tenant, RefOf(e)));
    }
  }

  lemma {:induction false} StepBooks(r: Request, env: Env, t: Table, u: Table, tenant: string, currency: string)
    requires Takes(r, env, t, u)
    ensures BooksNet(u, tenant, currency) == BooksNet(t, tenant, currency)
  {
    hide Takes, PostedBy, Sum, RefsOf, AllEntries, Net, Signed, StepOk, Problem, Overdrawn;
    var p := PostedBy(r, env, t);
    KeysKept(r, env, t, u);
    var f, h := (k: Key) => RowNet(t, k, tenant, currency), (k: Key) => RowNet(u, k, tenant, currency);
    SumWiden(t.Keys, u.Keys, f);
    if p.Some? && p.value.tenant == tenant {
      var fr := p.value;
      var es := AllEntries(fr.steps);
      var g := (k: Key) => Share(es, k, tenant, currency);
      PostedOk(r, env, t);
      StepsNet(fr.steps, currency);
      forall k | k in u.Keys ensures h(k) == f(k) + g(k) {
        if k.BalK? {
          RowShare(r, env, t, u, k, tenant, currency);
        }
      }
      SumSplit(u.Keys, f, g, h);
      forall e | e in es ensures BalKey(tenant, RefOf(e)) in u.Keys {
        ListedRef(fr, e);
        StepBalance(r, env, t, u, tenant, RefOf(e));
      }
      NetSpread(u.Keys, es, tenant, currency);
    } else {
      forall k | k in u.Keys ensures h(k) == f(k) {
        if k.BalK? {
          StepBalance(r, env, t, u, k.tenant, BalRef(k.account, k.currency));
        }
      }
      SumAgree(u.Keys, f, h);
    }
  }

  lemma {:induction false} ListedRef(fr: FlowReq, e: Entry)
    requires e in AllEntries(fr.steps)
    ensures RefOf(e) in RefsOf(fr)
  {
    RefsSorted(AllEntries(fr.steps));
  }

  lemma {:induction false} RowShare(r: Request, env: Env, t: Table, u: Table, k: Key, tenant: string, currency: string)
    requires Takes(r, env, t, u) && k.BalK? && k in u
    requires PostedBy(r, env, t).Some? && PostedBy(r, env, t).value.tenant == tenant
    ensures RowNet(u, k, tenant, currency)
         == RowNet(t, k, tenant, currency) + Share(AllEntries(PostedBy(r, env, t).value.steps), k, tenant, currency)
  {
    hide Takes, PostedBy, Sum, RefsOf, AllEntries;
    var ref := BalRef(k.account, k.currency);
    StepBalance(r, env, t, u, k.tenant, ref);
    SoundRow(t, r, env, u, k);
    if ref !in RefsOf(PostedBy(r, env, t).value) {
      SumUnlisted(PostedBy(r, env, t).value, ref, true);
      SumUnlisted(PostedBy(r, env, t).value, ref, false);
    }
  }

  lemma {:induction false} SoundRow(t: Table, r: Request, env: Env, u: Table, k: Key)
    requires Takes(r, env, t, u)
    ensures k in t && k.BalK? ==> t[k].BalItem? && t[k].version >= 1
  {
    hide Alone;
    assert k in t ==> Typed(k, t[k]);
  }

  // ------------------------------------------------------------------------------------------
  // Solvency
  // ------------------------------------------------------------------------------------------

  /** A balance row belongs to an existing account of its currency, is a sum of amounts, and is not
      overdrawn unless its account may be. */
  predicate RowSolvent(t: Table, tenant: string, ref: BalRef) {
    var a := Lookup(t, AccK(tenant, ref.account));
    var b := Lookup(t, BalKey(tenant, ref));
    b.Some? ==>
      && a.Some? && a.value.AccItem? && a.value.account.currency == ref.currency
      && b.value.BalItem? && b.value.debits >= 0 && b.value.credits >= 0
      && (!a.value.account.allowNegative
        ==> NormalizedBalance(a.value.account.normalBalance, b.value.debits, b.value.credits) >= 0)
  }

  ghost predicate Solvent(t: Table) {
    forall tenant, ref :: RowSolvent(t, tenant, ref)
  }

  lemma {:induction false} SumPositive(es: seq<Entry>, ref: BalRef, debit: bool)
    requires forall e | e in es :: e.amount > 0
    ensures Sum(es, ref, debit) >= 0
  {
    if es != [] {
      SumPositive(es[..|es| - 1], ref, debit);
    }
  }

  lemma {:induction false} StepSolvent(r: Request, env: Env, t: Table, u: Table, tenant: string, ref: BalRef)
    requires Takes(r, env, t, u) && RowSolvent(t, tenant, ref)
    ensures RowSolvent(u, tenant, ref)
  {
    hide Takes, PostedBy, Sum, RefsOf, AllEntries, StepOk, NewAccount;
    StepAccount(r, env, t, u, tenant, ref.account);
    StepBalance(r, env, t, u, tenant, ref);
    var p := PostedBy(r, env, t);
    if p.Some? && p.value.tenant == tenant && ref in RefsOf(p.value) {
      PostedOk(r, env, t);
      StepsNet(p.value.steps, "");
      SumPositive(AllEntries(p.value.steps), ref, true);
      SumPositive(AllEntries(p.value.steps), ref, false);
      SoundRow(t, r, env, u, BalKey(tenant, ref));
    }
  }
}
