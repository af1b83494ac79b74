/** What the writes of a flow or a handler contain, key by key. */
module FlowFacts {
  import opened Ledger
  import opened Keys
  import opened Items
  import opened Ordering
  import opened Handlers

  /** Keys written while the steps of a flow are applied. */
  predicate StepKind(k: Key) {
    k.JrnK? || k.EvtK? || k.FlowK? || k.ObxK?
  }

  ghost predicate StepKinds(ws: seq<Write>) {
    forall w | w in ws :: StepKind(w.key) && w.cond == NotExists
  }

  lemma {:induction false} EntryWritesKinds(env: Env, fr: FlowReq, i: nat, m: nat)
    requires i < |fr.steps| && m <= |fr.steps[i].entries|
    ensures forall w | w in EntryWrites(env, fr, i, m) ::
              exists n: nat :: n <= |fr.steps[i].entries| && w == JournalWrite(env, fr, i, n)
  {
    if m > 0 {
      EntryWritesKinds(env, fr, i, m - 1);
    }
  }

  lemma {:induction false} StepWritesKinds(env: Env, fr: FlowReq, i: nat)
    requires i < |fr.steps|
    ensures StepKinds(StepWrites(env, fr, i))
  {
    EntryWritesKinds(env, fr, i, |fr.steps[i].entries|);
  }

  lemma {:induction false} StepsWritesKinds(env: Env, fr: FlowReq, n: nat)
    requires n <= |fr.steps|
    ensures StepKinds(StepsWrites(env, fr, n))
  {
    if n > 0 {
      StepsWritesKinds(env, fr, n - 1);
      StepWritesKinds(env, fr, n - 1);
    }
  }

  /** A key of another kind that is neither the flow marker nor a balance is left alone by a flow. */
  lemma {:induction false} FlowLeavesAlone(env: Env, fr: FlowReq, loaded: seq<Loaded>, k: Key)
    requires |loaded| == |RefsOf(fr)|
    requires !StepKind(k) && !k.FIdempK? && !k.BalK?
    ensures forall w | w in FlowWrites(env, fr, loaded) :: w.key != k
    ensures FirstCond(FlowWrites(env, fr, loaded), k) == None
    ensures LastItem(FlowWrites(env, fr, loaded), k) == None
  {
    hide RefsOf, StepsWrites, RunOf, StepRows, FirstCond, LastItem;
    StepsWritesKinds(env, fr, |fr.steps|);
    forall w | w in FlowWrites(env, fr, loaded) ensures w.key != k {
      assert w in OpenWrites(env, fr) || w in StepsWrites(env, fr, |fr.steps|) || w in BalWrites(fr, loaded, |loaded|)
          || w == FlowWrite(env, fr, Completed, |fr.steps|);
    }
    NotWritten(FlowWrites(env, fr, loaded), k);
  }

  function CondOf(l: Loaded): Cond {
    if l.existed then VersionEquals(l.version) else NotExists
  }

  lemma {:induction false} BalKeysDistinct(fr: FlowReq, i: nat, j: nat)
    requires i < |RefsOf(fr)| && j < |RefsOf(fr)|
        && BalKey(fr.tenant, RefsOf(fr)[i]) == BalKey(fr.tenant, RefsOf(fr)[j])
    ensures i == j
  {
    hide Refs, RefLess, AllEntries;
    RefsSorted(AllEntries(fr.steps));
    assert RefsOf(fr) == Refs(AllEntries(fr.steps));
    IncreasingDistinct(RefsOf(fr), i, j);
  }

  lemma {:induction false} BalWritesAt(fr: FlowReq, loaded: seq<Loaded>, j: nat)
    requires |loaded| == |RefsOf(fr)| && j < |loaded|
    ensures FirstCond(BalWrites(fr, loaded, |loaded|), BalKey(fr.tenant, RefsOf(fr)[j])) == Some(CondOf(loaded[j]))
    ensures LastItem(BalWrites(fr, loaded, |loaded|), BalKey(fr.tenant, RefsOf(fr)[j]))
        == Some(BalWrite(fr, loaded[j], RefsOf(fr)[j]).item)
  {
    hide RefsOf, FinalDebits, FinalCredits, FirstCond, LastItem, BalWrites;
    var ws := BalWrites(fr, loaded, |loaded|);
    forall a, b | 0 <= a < b < |ws| ensures ws[a].key != ws[b].key {
      if ws[a].key == ws[b].key {
        BalKeysDistinct(fr, a, b);
      }
    }
    DistinctWrites(ws, j);
  }

  lemma {:induction false} BalWritesElsewhere(fr: FlowReq, loaded: seq<Loaded>, k: Key)
    requires |loaded| == |RefsOf(fr)|
    requires !k.BalK? || k.tenant != fr.tenant || BalRef(k.account, k.currency) !in RefsOf(fr)
    ensures forall w | w in BalWrites(fr, loaded, |loaded|) :: w.key != k
  {
    forall w | w in BalWrites(fr, loaded, |loaded|) ensures w.key != k {
      var i :| 0 <= i < |loaded| && w == BalWrites(fr, loaded, |loaded|)[i];
      assert RefsOf(fr)[i] in RefsOf(fr);
    }
  }

  /** The parts of a flow's writes around the balance block. */
  function FlowHead(env: Env, fr: FlowReq): seq<Write> {
    OpenWrites(env, fr) + StepsWrites(env, fr, |fr.steps|)
  }

  function FlowLast(env: Env, fr: FlowReq): seq<Write> {
    [FlowWrite(env, fr, Completed, |fr.steps|)]
  }

  lemma {:induction false} HeadLeavesAlone(env: Env, fr: FlowReq, k: Key)
    requires !StepKind(k) && !k.FIdempK?
    ensures FirstCond(FlowHead(env, fr), k) == None && LastItem(FlowHead(env, fr), k) == None
  {
    StepsWritesKinds(env, fr, |fr.steps|);
    forall w | w in FlowHead(env, fr) ensures w.key != k {
      assert w in OpenWrites(env, fr) || w in StepsWrites(env, fr, |fr.steps|);
    }
    NotWritten(FlowHead(env, fr), k);
  }

  lemma {:induction false} LastLeavesAlone(env: Env, fr: FlowReq, k: Key)
    requires !k.FlowK?
    ensures FirstCond(FlowLast(env, fr), k) == None && LastItem(FlowLast(env, fr), k) == None
  {
    NotWritten(FlowLast(env, fr), k);
  }

  lemma {:induction false} OpenMarker(env: Env, fr: FlowReq, k: Key)
    requires k.FIdempK?
    ensures FirstCond(OpenWrites(env, fr), k) == if k == FIdempK(fr.tenant, fr.key) then Some(NotExists) else None
    ensures LastItem(OpenWrites(env, fr), k) == if k == FIdempK(fr.tenant, fr.key) then Some(FIdempItem(FlowId(env)))
        else None
  {
    var o := OpenWrites(env, fr);
    NotWritten(o[..1], k);
  }

  lemma {:induction false} HeadMarker(env: Env, fr: FlowReq, k: Key)
    requires k.FIdempK?
    ensures FirstCond(FlowHead(env, fr), k) == if k == FIdempK(fr.tenant, fr.key) then Some(NotExists) else None
    ensures LastItem(FlowHead(env, fr), k) == if k == FIdempK(fr.tenant, fr.key) then Some(FIdempItem(FlowId(env)))
        else None
  {
    OpenMarker(env, fr, k);
    StepsWritesKinds(env, fr, |fr.steps|);
    NotWritten(StepsWrites(env, fr, |fr.steps|), k);
    FirstCondConcat(OpenWrites(env, fr), StepsWrites(env, fr, |fr.steps|), k);
    LastItemConcat(OpenWrites(env, fr), StepsWrites(env, fr, |fr.steps|), k);
  }

  lemma {:induction false} FlowSplit(env: Env, fr: FlowReq, loaded: seq<Loaded>, k: Key)
    requires |loaded| == |RefsOf(fr)|
    ensures FlowWrites(env, fr, loaded) == FlowHead(env, fr) + (BalWrites(fr, loaded, |loaded|) + FlowLast(env, fr))
    ensures FirstCond(FlowWrites(env, fr, loaded), k)
         == if FirstCond(FlowHead(env, fr), k).Some? then FirstCond(FlowHead(env, fr), k)
            else if FirstCond(BalWrites(fr, loaded, |loaded|), k).Some?
              then FirstCond(BalWrites(fr, loaded, |loaded|), k)
            else FirstCond(FlowLast(env, fr), k)
    ensures LastItem(FlowWrites(env, fr, loaded), k)
         == if LastItem(FlowLast(env, fr), k).Some? then LastItem(FlowLast(env, fr), k)
            else if LastItem(BalWrites(fr, loaded, |loaded|), k).Some? then LastItem(BalWrites(fr, loaded, |loaded|), k)
            else LastItem(FlowHead(env, fr), k)
  {
    var tail := BalWrites(fr, loaded, |loaded|) + FlowLast(env, fr);
    assert FlowWrites(env, fr, loaded) == FlowHead(env, fr) + tail;
    FirstCondConcat(FlowHead(env, fr), tail, k);
    FirstCondConcat(BalWrites(fr, loaded, |loaded|), FlowLast(env, fr), k);
    LastItemConcat(FlowHead(env, fr), tail, k);
    LastItemConcat(BalWrites(fr, loaded, |loaded|), FlowLast(env, fr), k);
  }

  /** Every balance a flow loaded is written back under the condition of its load. */
  lemma {:induction false} FlowWritesBalance(env: Env, fr: FlowReq, loaded: seq<Loaded>, j: nat)
    requires |loaded| == |RefsOf(fr)| && j < |loaded|
    ensures FirstCond(FlowWrites(env, fr, loaded), BalKey(fr.tenant, RefsOf(fr)[j])) == Some(CondOf(loaded[j]))
    ensures LastItem(FlowWrites(env, fr, loaded), BalKey(fr.tenant, RefsOf(fr)[j]))
        == Some(BalWrite(fr, loaded[j], RefsOf(fr)[j]).item)
  {
    var k := BalKey(fr.tenant, RefsOf(fr)[j]);
    FlowSplit(env, fr, loaded, k);
    BalWritesAt(fr, loaded, j);
    HeadLeavesAlone(env, fr, k);
    LastLeavesAlone(env, fr, k);
  }

  lemma {:induction false} FlowSkipsBalance(env: Env, fr: FlowReq, loaded: seq<Loaded>, k: Key)
    requires |loaded| == |RefsOf(fr)|
    requires k.BalK? && (k.tenant != fr.tenant || BalRef(k.account, k.currency) !in RefsOf(fr))
    ensures FirstCond(FlowWrites(env, fr, loaded), k) == None
    ensures LastItem(FlowWrites(env, fr, loaded), k) == None
  {
    hide RefsOf, StepsWrites, RunOf, StepRows, FirstCond, LastItem;
    StepsWritesKinds(env, fr, |fr.steps|);
    BalWritesElsewhere(fr, loaded, k);
    forall w | w in FlowWrites(env, fr, loaded) ensures w.key != k {
      assert w in OpenWrites(env, fr) || w in StepsWrites(env, fr, |fr.steps|) || w in BalWrites(fr, loaded, |loaded|)
          || w == FlowWrite(env, fr, Completed, |fr.steps|);
    }
    NotWritten(FlowWrites(env, fr, loaded), k);
  }

  /** The idempotency marker is written exactly once, as a new item. */
  lemma {:induction false} FlowWritesMarker(env: Env, fr: FlowReq, loaded: seq<Loaded>, k: Key)
    requires |loaded| == |RefsOf(fr)| && k.FIdempK?
    ensures FirstCond(FlowWrites(env, fr, loaded), k) == if k == FIdempK(fr.tenant, fr.key) then Some(NotExists)
        else None
    ensures LastItem(FlowWrites(env, fr, loaded), k) == if k == FIdempK(fr.tenant, fr.key)
        then Some(FIdempItem(FlowId(env))) else None
  {
    FlowSplit(env, fr, loaded, k);
    BalWritesElsewhere(fr, loaded, k);
    NotWritten(BalWrites(fr, loaded, |loaded|), k);
    LastLeavesAlone(env, fr, k);
    HeadMarker(env, fr, k);
  }
}
