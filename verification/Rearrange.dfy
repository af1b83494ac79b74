/** A flow means the same in whatever order its steps, and the entries of a step, are listed. */
module Rearrange {
  import opened Ledger
  import opened Keys
  import opened Items
  import opened Ordering
  import opened Handlers
  import opened Writes
  import opened Atomic
  import opened Effects
  import opened Books
  import opened Journals
  import opened Limits
  import opened Acceptance

  function Without<T>(s: seq<T>, j: nat): seq<T>
    requires j < |s|
  {
    s[..j] + s[j + 1..]
  }

  lemma {:induction false} WithoutBag<T>(s: seq<T>, j: nat)
    requires j < |s|
    ensures multiset(s) == multiset(Without(s, j)) + multiset{s[j]}
  {
    assert s == s[..j] + [s[j]] + s[j + 1..];
  }

  /** The last element of one list, found in a rearrangement of it. */
  lemma {:induction false} FindLast<T>(xs: seq<T>, ys: seq<T>) returns (j: nat)
    requires multiset(xs) == multiset(ys) && xs != []
    ensures j < |ys| && ys[j] == xs[|xs| - 1]
    ensures multiset(xs[..|xs| - 1]) == multiset(Without(ys, j))
  {
    var x := xs[|xs| - 1];
    assert xs == xs[..|xs| - 1] + [x];
    assert x in multiset(ys);
    j :| 0 <= j < |ys| && ys[j] == x;
    WithoutBag(ys, j);
    assert multiset(xs[..|xs| - 1]) == multiset(xs) - multiset{x};
    assert multiset(Without(ys, j)) == multiset(ys) - multiset{x};
  }

  lemma {:induction false} SameLength<T>(xs: seq<T>, ys: seq<T>)
    requires multiset(xs) == multiset(ys)
    ensures |xs| == |ys| && forall x :: x in xs <==> x in ys
  {
    assert |multiset(xs)| == |xs| && |multiset(ys)| == |ys|;
    forall x ensures x in xs <==> x in ys {
      assert x in xs <==> x in multiset(xs);
      assert x in ys <==> x in multiset(ys);
    }
  }

  // ------------------------------------------------------------------------------------------
  // Entries
  // ------------------------------------------------------------------------------------------

  lemma {:induction false} SumRearranged(xs: seq<Entry>, ys: seq<Entry>, ref: BalRef, debit: bool)
    requires multiset(xs) == multiset(ys)
    ensures Sum(xs, ref, debit) == Sum(ys, ref, debit)
  {
    if xs == [] {
      SameLength(xs, ys);
    } else {
      var j := FindLast(xs, ys);
      SumRearranged(xs[..|xs| - 1], Without(ys, j), ref, debit);
      assert ys == ys[..j] + ([ys[j]] + ys[j + 1..]);
      SumConcat(ys[..j], [ys[j]] + ys[j + 1..], ref, debit);
      SumConcat([ys[j]], ys[j + 1..], ref, debit);
      SumConcat(ys[..j], ys[j + 1..], ref, debit);
      assert [ys[j]][..0] == [];
    }
  }

  lemma {:induction false} NetRearranged(xs: seq<Entry>, ys: seq<Entry>, currency: string)
    requires multiset(xs) == multiset(ys)
    ensures Net(xs, currency) == Net(ys, currency)
  {
    if xs == [] {
      SameLength(xs, ys);
    } else {
      var j := FindLast(xs, ys);
      NetRearranged(xs[..|xs| - 1], Without(ys, j), currency);
      assert ys == ys[..j] + ([ys[j]] + ys[j + 1..]);
      NetConcat(ys[..j], [ys[j]] + ys[j + 1..], currency);
      NetConcat([ys[j]], ys[j + 1..], currency);
      NetConcat(ys[..j], ys[j + 1..], currency);
      assert [ys[j]][..0] == [];
    }
  }

  lemma {:induction false} RefsRearranged(xs: seq<Entry>, ys: seq<Entry>)
    requires multiset(xs) == multiset(ys)
    ensures Refs(xs) == Refs(ys)
  {
    SameLength(xs, ys);
    RefsSorted(xs);
    RefsSorted(ys);
    forall r ensures r in Refs(xs) <==> r in Refs(ys) {
    }
    IncreasingUnique(Refs(xs), Refs(ys));
  }

  /** Validation looks at the entries of a journal, not at their order. */
  lemma {:induction false} JournalRearranged(eventId: string, xs: seq<Entry>, ys: seq<Entry>)
    requires multiset(xs) == multiset(ys) && JournalOk(eventId, xs)
    ensures JournalOk(eventId, ys)
  {
    SameLength(xs, ys);
    forall i | 0 <= i < |ys| ensures EntryOk(ys[i]) && Net(ys, ys[i].currency) == 0 {
      assert ys[i] in xs;
      var j :| 0 <= j < |xs| && xs[j] == ys[i];
      assert EntryOk(xs[j]) && Net(xs, xs[j].currency) == 0;
      NetRearranged(xs, ys, ys[i].currency);
    }
  }

  lemma {:induction false} ParseRearranged(x: StepInput, y: StepInput)
    requires multiset(x.entries) == multiset(y.entries)
    ensures multiset(ParseStep(x).entries) == multiset(ParseStep(y).entries)
    decreases |x.entries|
  {
    if x.entries == [] {
      SameLength(x.entries, y.entries);
      assert ParseStep(x).entries == [] && ParseStep(y).entries == [];
    } else {
      var n := |x.entries| - 1;
      var j := FindLast(x.entries, y.entries);
      var x', y' := x.(entries := x.entries[..n]), y.(entries := Without(y.entries, j));
      ParseRearranged(x', y');
      assert ParseStep(x).entries == ParseStep(x').entries + [ParseEntry(x.entries[n])];
      assert ParseStep(y').entries == Without(ParseStep(y).entries, j);
      WithoutBag(ParseStep(y).entries, j);
    }
  }

  // ------------------------------------------------------------------------------------------
  // Steps
  // ------------------------------------------------------------------------------------------

  /** A step without the order of its entries. */
  datatype View = View(stepId: string, eventId: string, entries: multiset<Entry>)

  function ViewOf(s: StepInput): View {
    View(s.stepId, s.eventId, multiset(s.entries))
  }

  function Views(steps: seq<StepInput>): (vs: seq<View>)
    ensures |vs| == |steps| && forall i | 0 <= i < |vs| :: vs[i] == ViewOf(steps[i])
  {
    seq(|steps|, i requires 0 <= i < |steps| => ViewOf(steps[i]))
  }

  /** The same steps in another order, each with its entries in another order. */
  ghost predicate Rearranged(xs: seq<StepInput>, ys: seq<StepInput>) {
    multiset(Views(xs)) == multiset(Views(ys))
  }

  lemma {:induction false} RearrangedLast(xs: seq<StepInput>, ys: seq<StepInput>) returns (j: nat)
    requires Rearranged(xs, ys) && xs != []
    ensures j < |ys| && ViewOf(ys[j]) == ViewOf(xs[|xs| - 1])
    ensures Rearranged(xs[..|xs| - 1], Without(ys, j))
  {
    j := FindLast(Views(xs), Views(ys));
    assert Views(xs)[..|xs| - 1] == Views(xs[..|xs| - 1]);
    assert Without(Views(ys), j) == Views(Without(ys, j));
  }

  lemma {:induction false} EntriesConcat(xs: seq<StepInput>, ys: seq<StepInput>)
    ensures AllEntries(xs + ys) == AllEntries(xs) + AllEntries(ys)
  {
    if ys == [] {
      assert xs + ys == xs;
    } else {
      var n := |ys| - 1;
      assert (xs + ys)[..|xs + ys| - 1] == xs + ys[..n];
      EntriesConcat(xs, ys[..n]);
    }
  }

  lemma {:induction false} EntriesWithout(ys: seq<StepInput>, j: nat)
    requires j < |ys|
    ensures multiset(AllEntries(ys)) == multiset(AllEntries(Without(ys, j))) + multiset(ys[j].entries)
  {
    assert ys == ys[..j] + ([ys[j]] + ys[j + 1..]);
    EntriesConcat(ys[..j], [ys[j]] + ys[j + 1..]);
    EntriesConcat([ys[j]], ys[j + 1..]);
    EntriesConcat(ys[..j], ys[j + 1..]);
    assert [ys[j]][..0] == [];
    assert AllEntries([ys[j]]) == ys[j].entries;
  }

  lemma {:induction false} EntriesRearranged(xs: seq<StepInput>, ys: seq<StepInput>)
    requires Rearranged(xs, ys)
    ensures multiset(AllEntries(xs)) == multiset(AllEntries(ys))
  {
    if xs == [] {
      SameLength(Views(xs), Views(ys));
    } else {
      var j := RearrangedLast(xs, ys);
      EntriesRearranged(xs[..|xs| - 1], Without(ys, j));
      EntriesWithout(ys, j);
    }
  }

  /** Every step has its counterpart. */
  lemma {:induction false} Counterpart(xs: seq<StepInput>, ys: seq<StepInput>, i: nat) returns (j: nat)
    requires Rearranged(xs, ys) && i < |xs|
    ensures j < |ys| && ViewOf(ys[j]) == ViewOf(xs[i])
  {
    SameLength(Views(xs), Views(ys));
    assert Views(xs)[i] in Views(ys);
    j :| 0 <= j < |Views(ys)| && Views(ys)[j] == Views(xs)[i];
  }

  lemma {:induction false} RearrangedBack(xs: seq<StepInput>, ys: seq<StepInput>)
    requires Rearranged(xs, ys)
    ensures Rearranged(ys, xs)
  {
  }

  lemma {:induction false} StepsOkRearranged(xs: seq<StepInput>, ys: seq<StepInput>)
    requires Rearranged(xs, ys) && forall i | 0 <= i < |xs| :: StepOk(xs[i])
    ensures forall i | 0 <= i < |ys| :: StepOk(ys[i])
  {
    hide JournalOk, Rearranged;
    RearrangedBack(xs, ys);
    forall i | 0 <= i < |ys| ensures StepOk(ys[i]) {
      var j := Counterpart(ys, xs, i);
      assert StepOk(xs[j]);
      JournalRearranged(xs[j].eventId, xs[j].entries, ys[i].entries);
    }
  }

  lemma {:induction false} AmountsOkRearranged(xs: seq<StepInput>, ys: seq<StepInput>)
    requires Rearranged(xs, ys) && AmountsOk(xs)
    ensures AmountsOk(ys)
  {
    RearrangedBack(xs, ys);
    forall i, m | 0 <= i < |ys| && 0 <= m < |ys[i].entries| ensures ys[i].entries[m].amount > 0 {
      var j := Counterpart(ys, xs, i);
      SameLength(ys[i].entries, xs[j].entries);
      assert ys[i].entries[m] in xs[j].entries;
    }
  }

  lemma {:induction false} ParseStepsRearranged(xs: seq<StepInput>, ys: seq<StepInput>)
    requires Rearranged(xs, ys)
    ensures Rearranged(ParseSteps(xs), ParseSteps(ys))
  {
    if xs == [] {
      SameLength(Views(xs), Views(ys));
      assert ParseSteps(xs) == [] && ParseSteps(ys) == [];
    } else {
      var n := |xs| - 1;
      var j := RearrangedLast(xs, ys);
      ParseStepsRearranged(xs[..n], Without(ys, j));
      ParseRearranged(xs[n], ys[j]);
      assert Views(ParseSteps(xs)) == Views(ParseSteps(xs[..n])) + [ViewOf(ParseStep(xs[n]))];
      assert Views(ParseSteps(Without(ys, j))) == Without(Views(ParseSteps(ys)), j);
      WithoutBag(Views(ParseSteps(ys)), j);
    }
  }

  // ------------------------------------------------------------------------------------------
  // Flows
  // ------------------------------------------------------------------------------------------

  /** Two submissions that differ in order only. */
  ghost predicate Alike(x: FlowReq, y: FlowReq) {
    y == x.(steps := y.steps) && Rearranged(x.steps, y.steps)
  }

  /** What a flow does to balances does not depend on the order it is listed in. */
  lemma {:induction false} FinalsAlike(x: FlowReq, y: FlowReq, l: Loaded, ref: BalRef)
    requires Alike(x, y)
    ensures RefsOf(x) == RefsOf(y)
    ensures FinalDebits(x, l, ref) == FinalDebits(y, l, ref) && FinalCredits(x, l, ref) == FinalCredits(y, l, ref)
    ensures Overdrawn(x, l, ref) <==> Overdrawn(y, l, ref)
  {
    hide Sum, AllEntries, Refs, Rearranged;
    EntriesRearranged(x.steps, y.steps);
    RefsRearranged(AllEntries(x.steps), AllEntries(y.steps));
    SumRearranged(AllEntries(x.steps), AllEntries(y.steps), ref, true);
    SumRearranged(AllEntries(x.steps), AllEntries(y.steps), ref, false);
  }

  /** Same verdict: both fail with the same code, both replay the same flow, or both post. */
  predicate SameVerdict(x: FlowResult, y: FlowResult) {
    match x
    case FlowFail(code) => y == FlowFail(code)
    case FlowReplay(run, steps) => y == FlowReplay(run, steps)
    case FlowPosted(_, _, _, _) => y.FlowPosted?
  }

  lemma {:induction false} PostAlike(env: Env, x: FlowReq, y: FlowReq, loaded: seq<Loaded>)
    requires Alike(x, y) && |loaded| == |RefsOf(x)|
    ensures RefsOf(x) == RefsOf(y)
    ensures SameVerdict(Post(env, x, loaded), Post(env, y, loaded))
  {
    hide RefsOf, Rearranged, Overdrawn, StepOk, FlowWrites, RunOf, StepRows, StepBase;
    FinalsAlike(x, y, Loaded(NoAccount, 0, 0, 0, false), BalRef("", ""));
    StepsAlike(x.steps, y.steps);
    forall i | 0 <= i < |loaded| ensures Overdrawn(x, loaded[i], RefsOf(x)[i])
        <==> Overdrawn(y, loaded[i], RefsOf(x)[i]) {
      FinalsAlike(x, y, loaded[i], RefsOf(x)[i]);
    }
  }

  lemma {:induction false} StepsAlike(xs: seq<StepInput>, ys: seq<StepInput>)
    requires Rearranged(xs, ys)
    ensures (exists i | 0 <= i < |xs| :: !StepOk(xs[i])) <==> (exists i | 0 <= i < |ys| :: !StepOk(ys[i]))
  {
    hide StepOk, Rearranged;
    RearrangedBack(xs, ys);
    if !exists i | 0 <= i < |xs| :: !StepOk(xs[i]) {
      StepsOkRearranged(xs, ys);
    }
    if !exists i | 0 <= i < |ys| :: !StepOk(ys[i]) {
      StepsOkRearranged(ys, xs);
    }
  }

  lemma {:induction false} ParsedAlike(x: FlowReq, y: FlowReq)
    requires Alike(x, y)
    ensures Alike(Parsed(x), Parsed(y)) && (AmountsOk(x.steps) <==> AmountsOk(y.steps))
  {
    hide AmountsOk, ParseSteps, Rearranged;
    ParseStepsRearranged(x.steps, y.steps);
    RearrangedBack(x.steps, y.steps);
    if AmountsOk(x.steps) {
      AmountsOkRearranged(x.steps, y.steps);
    }
    if AmountsOk(y.steps) {
      AmountsOkRearranged(y.steps, x.steps);
    }
  }

  /** On any table, two submissions that differ in order only get the same verdict before the commit. */
  lemma {:induction false} FlowAlike(env: Env, x: FlowReq, y: FlowReq, t: Table)
    requires Alike(x, y)
    ensures SameVerdict(FlowSpec(env, x, t), FlowSpec(env, y, t))
  {
    hide AmountsOk, ParseSteps, Rearranged, RefsOf, Post, LoadedAll, FirstProblem, KnownFlow, ParseStep;
    ParsedAlike(x, y);
    FinalsAlike(Parsed(x), Parsed(y), Loaded(NoAccount, 0, 0, 0, false), BalRef("", ""));
    PostAlike(env, Parsed(x), Parsed(y), LoadedAll(t, x.tenant, RefsOf(Parsed(x))));
  }

  // ------------------------------------------------------------------------------------------
  // Up to the commit
  // ------------------------------------------------------------------------------------------

  /** No stored row has an id that the call is going to draw. */
  ghost predicate FreshIds(env: Env, t: Table) {
    && (forall m: nat, tenant :: JrnK(tenant, env.Id(m)) !in t)
    && (forall m: nat, tenant :: FlowK(tenant, env.Id(m)) !in t)
    && (forall m: nat :: ObxK(env.Id(m)) !in t)
  }

  lemma {:induction false} EventIdsAre(steps: seq<StepInput>, n: nat, e: string)
    requires n <= |steps|
    ensures e in EventIds(steps, n) <==> exists i :: 0 <= i < n && steps[i].eventId == e
  {
    if n > 0 {
      EventIdsAre(steps, n - 1, e);
    }
  }

  lemma {:induction false} EventsWithin(xs: seq<StepInput>, ys: seq<StepInput>)
    requires Rearranged(xs, ys)
    ensures EventIds(xs, |xs|) <= EventIds(ys, |ys|)
  {
    hide Rearranged, EventIds;
    forall e | e in EventIds(xs, |xs|) ensures e in EventIds(ys, |ys|) {
      EventIdsAre(xs, |xs|, e);
      EventIdsAre(ys, |ys|, e);
      var i :| 0 <= i < |xs| && xs[i].eventId == e;
      var j := Counterpart(xs, ys, i);
    }
  }

  lemma {:induction false} EventsAlike(xs: seq<StepInput>, ys: seq<StepInput>)
    requires Rearranged(xs, ys)
    ensures EventIds(xs, |xs|) == EventIds(ys, |ys|) && |xs| == |ys|
  {
    RearrangedBack(xs, ys);
    SameLength(Views(xs), Views(ys));
    hide Rearranged, EventIds;
    EventsWithin(xs, ys);
    EventsWithin(ys, xs);
  }

  lemma {:induction false} NewIds(env: Env, fr: FlowReq, t: Table, n: nat)
    requires FreshIds(env, t) && n <= |fr.steps|
    ensures JournalKeys(env, fr, n) !! t.Keys && OutboxKeys(env, fr, n) !! t.Keys
  {
    if n > 0 {
      NewIds(env, fr, t, n - 1);
    }
  }

  /** With fresh ids, what a flow would create is new as soon as its key and events are. */
  lemma {:induction false} NewRowsIff(env: Env, fr: FlowReq, t: Table)
    requires FreshIds(env, t)
    ensures (forall k | k in FlowKeys(env, fr) && !k.BalK? :: k !in t)
            <==> FIdempK(fr.tenant, fr.key) !in t && forall e | e in EventIds(fr.steps, |fr.steps|) :: EvtK(e) !in t
  {
    hide RefsOf, JournalKeys, OutboxKeys, EventIds, StepBase;
    var n := |fr.steps|;
    NewIds(env, fr, t, n);
    assert FlowK(fr.tenant, FlowId(env)) !in t;
    assert FIdempK(fr.tenant, fr.key) in FlowKeys(env, fr);
    forall e | e in EventIds(fr.steps, n) ensures EvtK(e) in FlowKeys(env, fr) {
      assert EvtK(e) in EventKeys(EventIds(fr.steps, n));
    }
    OtherKinds(EventIds(fr.steps, n), fr.tenant, RefsOf(fr));
  }

  lemma {:induction false} SensibleAlike(env: Env, x: FlowReq, y: FlowReq, t: Table)
    requires Alike(x, y)
    ensures Sensible(x, t) <==> Sensible(y, t)
  {
    hide Sensible, FlowSpec, Alike;
    FlowAlike(env, x, y, t);
    PostsIffSensible(env, x, t);
    PostsIffSensible(env, y, t);
  }

  /** One order of a flow is posted if and only if every other order of it would be, by a call that draws
      fresh ids. */
  lemma {:induction false} TakesAlike(env: Env, x: FlowReq, y: FlowReq, t: Table)
    requires Alike(x, y) && Sound(t) && DistinctIds(env) && FreshIds(env, t)
    ensures (exists u :: Takes(Request.ExecuteFlow(x), env, t, u))
        <==> (exists v :: Takes(Request.ExecuteFlow(y), env, t, v))
  {
    hide Takes, Sensible, FlowKeys, EventIds, RefsOf, ParseSteps, Rearranged, DistinctIds, FreshIds;
    PostedIffAcceptable(x, env, t);
    PostedIffAcceptable(y, env, t);
    SensibleAlike(env, x, y, t);
    ParsedAlike(x, y);
    EventsAlike(Parsed(x).steps, Parsed(y).steps);
    FinalsAlike(Parsed(x), Parsed(y), Loaded(NoAccount, 0, 0, 0, false), BalRef("", ""));
    NewRowsIff(env, Parsed(x), t);
    NewRowsIff(env, Parsed(y), t);
  }

  /** And then both leave the same balance rows. */
  lemma {:induction false} BalancesAlike(env: Env, x: FlowReq, y: FlowReq, t: Table, u: Table) returns (v: Table)
    requires Alike(x, y) && DistinctIds(env) && FreshIds(env, t)
    requires Takes(Request.ExecuteFlow(x), env, t, u)
    ensures Takes(Request.ExecuteFlow(y), env, t, v)
    ensures forall tenant, ref :: Lookup(u, BalKey(tenant, ref)) == Lookup(v, BalKey(tenant, ref))
  {
    hide Takes, DistinctIds, FreshIds, Alike;
    TakesSound(Request.ExecuteFlow(x), env, t, u);
    TakesAlike(env, x, y, t);
    v :| Takes(Request.ExecuteFlow(y), env, t, v);
    forall tenant, ref ensures Lookup(u, BalKey(tenant, ref)) == Lookup(v, BalKey(tenant, ref)) {
      BalanceAlike(env, x, y, t, u, v, tenant, ref);
    }
  }

  lemma {:induction false} BalanceAlike(env: Env, x: FlowReq, y: FlowReq, t: Table, u: Table, v: Table,
      tenant: string, ref: BalRef)
    requires Alike(x, y)
    requires Takes(Request.ExecuteFlow(x), env, t, u) && Takes(Request.ExecuteFlow(y), env, t, v)
    ensures Lookup(u, BalKey(tenant, ref)) == Lookup(v, BalKey(tenant, ref))
  {
    hide Takes, RefsOf, Rearranged, ParseSteps, FlowSpec, Sum, AllEntries, LoadedAt;
    StepBalance(Request.ExecuteFlow(x), env, t, u, tenant, ref);
    StepBalance(Request.ExecuteFlow(y), env, t, v, tenant, ref);
    FlowAlike(env, x, y, t);
    ParsedAlike(x, y);
    FinalsAlike(Parsed(x), Parsed(y), LoadedAt(t, tenant, ref), ref);
  }
}
