/** When a flow runs out of funds, said by debits and credits: a strict debit-normal account must keep at least
    as much debited as credited, a strict credit-normal one the other way round. */
module Funds {
  import opened Ledger
  import opened Keys
  import opened Items
  import opened Ordering
  import opened Handlers
  import opened Atomic
  import opened Effects
  import opened Books
  import opened Reserved

  /** An account that may stand at these sums. */
  predicate MayStand(a: Account, debits: int, credits: int) {
    || a.allowNegative
    || match a.normalBalance
       case NormalDebit => debits >= credits
       case NormalCredit => credits >= debits
  }

  lemma {:induction false} OverdrawnIs(fr: FlowReq, l: Loaded, ref: BalRef)
    ensures Overdrawn(fr, l, ref) <==>
              !MayStand(l.account, l.debits + Sum(AllEntries(fr.steps), ref, true),
                l.credits + Sum(AllEntries(fr.steps), ref, false))
  {
    hide Sum, AllEntries;
  }

  /** The account `ref` as the flow finds it may stand at what the flow's entries leave on it. */
  predicate Affords(t: Table, fr: FlowReq, ref: BalRef) {
    var a := Lookup(t, AccK(fr.tenant, ref.account));
    var (d, c, _) := BalanceRead(Lookup(t, BalKey(fr.tenant, ref)));
    var es := AllEntries(fr.steps);
    a.Some? && a.value.AccItem? ==> MayStand(a.value.account, d + Sum(es, ref, true), c + Sum(es, ref, false))
  }

  lemma {:induction false} AffordsIs(t: Table, fr: FlowReq, ref: BalRef)
    requires Problem(t, fr.tenant, ref) == None
    ensures Affords(t, fr, ref) <==> !Overdrawn(fr, LoadedAt(t, fr.tenant, ref), ref)
  {
    hide Sum, AllEntries, Overdrawn;
    OverdrawnIs(fr, LoadedAt(t, fr.tenant, ref), ref);
  }

  /** A valid flow under a new key between usable accounts is posted if all of them may stand at what it leaves,
      and otherwise refused for insufficient funds. */
  lemma {:induction false} FundsDecide(env: Env, raw: FlowReq, t: Table)
    requires AmountsOk(raw.steps) && KnownFlow(t, raw.tenant, raw.key) == None
    requires forall i | 0 <= i < |Parsed(raw).steps| :: StepOk(Parsed(raw).steps[i])
    requires forall ref | ref in RefsOf(Parsed(raw)) :: Problem(t, raw.tenant, ref) == None
    ensures if forall ref | ref in RefsOf(Parsed(raw)) :: Affords(t, Parsed(raw), ref)
            then FlowSpec(env, raw, t).FlowPosted? else FlowSpec(env, raw, t) == FlowFail(InsufficientFunds)
  {
    hide AmountsOk, KnownFlow, StepOk, RefsOf, Problem, Affords, Overdrawn, LoadedAt, ParseSteps, Post, FirstProblem;
    var fr := Parsed(raw);
    NoProblem(t, fr.tenant, RefsOf(fr));
    var loaded := LoadedAll(t, fr.tenant, RefsOf(fr));
    assert FlowSpec(env, raw, t) == Post(env, fr, loaded);
    forall i | 0 <= i < |loaded| ensures Overdrawn(fr, loaded[i], RefsOf(fr)[i]) <==> !Affords(t, fr, RefsOf(fr)[i]) {
      AffordsIs(t, fr, RefsOf(fr)[i]);
    }
    PostDecides(env, fr, loaded, t);
  }

  lemma {:induction false} PostDecides(env: Env, fr: FlowReq, loaded: seq<Loaded>, t: Table)
    requires |loaded| == |RefsOf(fr)| && forall i | 0 <= i < |fr.steps| :: StepOk(fr.steps[i])
    requires forall i | 0 <= i < |loaded| :: Overdrawn(fr, loaded[i], RefsOf(fr)[i]) <==> !Affords(t, fr, RefsOf(fr)[i])
    ensures if forall ref | ref in RefsOf(fr) :: Affords(t, fr, ref)
            then Post(env, fr, loaded).FlowPosted? else Post(env, fr, loaded) == FlowFail(InsufficientFunds)
  {
    hide StepOk, RefsOf, Affords, Overdrawn, FlowWrites, RunOf, StepRows, StepBase;
    if ref :| ref in RefsOf(fr) && !Affords(t, fr, ref) {
      var i :| 0 <= i < |RefsOf(fr)| && RefsOf(fr)[i] == ref;
      assert Overdrawn(fr, loaded[i], RefsOf(fr)[i]);
    }
  }

  /** The strict account `ref` of tenant `tenant`, on its normal side. */
  predicate StrictOn(t: Table, tenant: string, ref: BalRef, side: NormalBalance) {
    var a := Lookup(t, AccK(tenant, ref.account));
    a.Some? && a.value.AccItem? && !a.value.account.allowNegative && a.value.account.normalBalance == side
  }

  lemma {:induction false} TransferAffords(t: Table, fr: FlowReq, debit: BalRef, credit: BalRef, amount: int)
    requires Transfers(fr, debit, credit, amount) && amount > 0 && Solvent(t) && debit != credit
    requires Problem(t, fr.tenant, debit) == None && Problem(t, fr.tenant, credit) == None
    ensures Affords(t, fr, debit) <==>
              (StrictOn(t, fr.tenant, debit, NormalCredit) ==> amount <= -Position(t, fr.tenant, debit))
    ensures Affords(t, fr, credit) <==>
              (StrictOn(t, fr.tenant, credit, NormalDebit) ==> amount <= Position(t, fr.tenant, credit))
  {
    hide Sum, AllEntries, Transfers;
    TransferSums(fr, debit, credit, amount, debit);
    TransferSums(fr, debit, credit, amount, credit);
    assert RowSolvent(t, fr.tenant, debit) && RowSolvent(t, fr.tenant, credit);
  }

  /** A transfer under a new key between usable accounts: a strict credit-normal account can be debited by at
      most its credits less its debits, a strict debit-normal one credited by at most its debits less its
      credits; nothing else limits it. */
  lemma {:induction false} TransferVerdict(env: Env, raw: FlowReq, t: Table, debit: BalRef, credit: BalRef, amount: int)
    requires Transfers(raw, debit, credit, amount) && amount > 0 && raw.steps[0].eventId != "" && Solvent(t)
    requires debit.account != "" && credit.account != "" && debit.currency == credit.currency != "" && debit != credit
    requires KnownFlow(t, raw.tenant, raw.key) == None
    requires Problem(t, raw.tenant, debit) == None && Problem(t, raw.tenant, credit) == None
    ensures if (StrictOn(t, raw.tenant, debit, NormalCredit) ==> amount <= -Position(t, raw.tenant, debit))
               && (StrictOn(t, raw.tenant, credit, NormalDebit) ==> amount <= Position(t, raw.tenant, credit))
            then FlowSpec(env, raw, t).FlowPosted? else FlowSpec(env, raw, t) == FlowFail(InsufficientFunds)
  {
    hide Transfers, Problem, KnownFlow, StepOk, RefsOf, AmountsOk, ParseStep, Solvent, Affords, Position, StrictOn,
      FlowSpec;
    var fr := Parsed(raw);
    TransferParsed(raw, debit, credit, amount);
    OneStep(fr, debit, credit, amount);
    OneStep(raw, debit, credit, amount);
    TransferOk(fr, debit, credit, amount);
    TransferAffords(t, fr, debit, credit, amount);
    forall ref ensures ref in RefsOf(fr) <==> ref == debit || ref == credit {
      TransferSums(fr, debit, credit, amount, ref);
    }
    FundsDecide(env, raw, t);
  }
}
