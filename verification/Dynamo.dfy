/** The buffered transaction of the DynamoDB backend (internal/repo/dynamo/tx.go), over a store whose
    table other writers change between any two of its requests. */
module Dynamo {
  import opened Ledger
  import opened Keys
  import opened Items
  import opened Handlers

  /** One client's view of the table. `at(i)` is the table its i-th request finds; nothing relates
      successive tables, so any interference is covered. */
  class Store {
    const at: nat -> Table
    var requests: nat
    /** The table the client's last write request left behind. */
    var wrote: Option<Table>

    constructor (at: nat -> Table)
      ensures this.at == at && requests == 0 && wrote == None
    {
      this.at := at;
      requests := 0;
      wrote := None;
    }

    /** A strongly consistent read of one item. */
    method GetItem(k: Key) returns (v: Option<Item>)
      modifies this`requests
      ensures v == Lookup(at(old(requests)), k)
      ensures requests == old(requests) + 1
    {
      v := Lookup(at(requests), k);
      requests := requests + 1;
    }

    /** TransactWriteItems: all puts, or none and the failed conditions by position. */
    method TransactWriteItems(items: seq<Write>) returns (reasons: Option<seq<bool>>)
      modifies this
      ensures requests == old(requests) + 1
      ensures var t := at(old(requests));
              if forall i | 0 <= i < |items| :: CondHolds(t, items[i].key, items[i].cond)
              then reasons == None && wrote == Some(PutAll(t, items))
              else reasons.Some? && |reasons.value| == |items| && wrote == Some(t)
                   && forall i | 0 <= i < |items| :: reasons.value[i] == !CondHolds(t, items[i].key, items[i].cond)
    {
      var t := at(requests);
      requests := requests + 1;
      var flags: seq<bool> := [];
      var failed := false;
      for i := 0 to |items|
        invariant |flags| == i && (forall j | 0 <= j < i :: flags[j] == !CondHolds(t, items[j].key, items[j].cond))
        invariant failed <==> exists j | 0 <= j < i :: !CondHolds(t, items[j].key, items[j].cond)
      {
        var holds := CondHolds(t, items[i].key, items[i].cond);
        flags := flags + [!holds];
        failed := failed || !holds;
      }
      if failed {
        wrote := Some(t);
        return Some(flags);
      }
      var u := t;
      for i := 0 to |items|
        invariant u == PutAll(t, items[..i])
      {
        u := u[items[i].key := items[i].item];
        assert items[..i + 1][..i] == items[..i];
      }
      assert items[..|items|] == items;
      wrote := Some(u);
      return None;
    }
  }

  function PutAll(t: Table, items: seq<Write>): Table {
    if items == [] then t else PutAll(t, items[..|items| - 1])[items[|items| - 1].key := items[|items| - 1].item]
  }

  /** The request built from a buffer, in buffer order. */
  function PutRequest(b: Buffer, k: Key): Write
    requires k in b.puts
  {
    Write(k, b.puts[k].item, b.puts[k].cond)
  }

  lemma {:induction false} PutAllLookup(t: Table, b: Buffer, items: seq<Write>, k: Key)
    requires forall i | 0 <= i < |items| :: items[i].key in b.puts && items[i] == PutRequest(b, items[i].key)
    ensures Lookup(PutAll(t, items), k)
         == if exists i | 0 <= i < |items| :: items[i].key == k then Some(b.puts[k].item) else Lookup(t, k)
  {
    if items != [] {
      var n := |items| - 1;
      PutAllLookup(t, b, items[..n], k);
      if items[n].key != k && exists i | 0 <= i < |items| :: items[i].key == k {
        var i :| 0 <= i < |items| && items[i].key == k;
        assert items[..n][i].key == k;
      }
    }
  }

  /** Putting the buffer's items in order writes the buffer. */
  lemma {:induction false} PutAllIsWritten(t: Table, b: Buffer, items: seq<Write>)
    requires b.Valid() && |items| == |b.order|
    requires forall i | 0 <= i < |items| :: b.order[i] in b.puts && items[i] == PutRequest(b, b.order[i])
    ensures PutAll(t, items) == Written(t, b)
    ensures (forall i | 0 <= i < |items| :: CondHolds(t, items[i].key, items[i].cond)) <==> AllHold(t, b)
  {
    forall k ensures Lookup(PutAll(t, items), k) == Lookup(Written(t, b), k) {
      PutAllLookup(t, b, items, k);
      if k in b.puts {
        assert k in b.order;
        var i :| 0 <= i < |b.order| && b.order[i] == k;
        assert items[i].key == k;
      }
    }
    SameLookups(PutAll(t, items), Written(t, b));
    if forall i | 0 <= i < |items| :: CondHolds(t, items[i].key, items[i].cond) {
      forall k | k in b.puts ensures CondHolds(t, k, b.puts[k].cond) {
        assert k in b.order;
        var i :| 0 <= i < |b.order| && b.order[i] == k;
        assert items[i].key == k;
      }
    }
  }

  lemma {:induction false} SameLookups(t: Table, u: Table)
    requires forall k :: Lookup(t, k) == Lookup(u, k)
    ensures t == u
  {
    assert forall k :: k in t <==> k in u by {
      forall k ensures k in t <==> k in u {
        assert Lookup(t, k) == Lookup(u, k);
      }
    }
    forall k | k in t ensures t[k] == u[k] {
      assert Lookup(t, k) == Lookup(u, k);
    }
  }

  // ------------------------------------------------------------------------------------------
  // The transaction
  // ------------------------------------------------------------------------------------------

  datatype TxBalance = TxBalance(debits: int, credits: int, readVersion: int, existed: bool)

  datatype FlowState = FlowState(run: FlowRun, steps: seq<FlowStep>)

  datatype ResState = ResState(res: Reservation, readVersion: int, existed: bool)

  datatype Overlays = Overlays(
    balances: map<Key, TxBalance>, flows: map<Key, FlowState>, journals: map<Key, Journal>,
    reservations: map<Key, ResState>, flowIdemp: map<Key, Key>)

  /** A buffered balance, flow, journal or reservation is the encoding of its overlay entry; a buffered
      account can be read back. */
  predicate Encodes(o: Overlays, k: Key, item: Item) {
    match k
    case BalK(_, _, _) =>
      k in o.balances
      && item == BalItem(o.balances[k].debits, o.balances[k].credits, o.balances[k].readVersion + 1)
    case FlowK(_, _) => k in o.flows && item == FlowItem(o.flows[k].run, o.flows[k].steps)
    case JrnK(_, _) => k in o.journals && item == JrnItem(o.journals[k])
    case ResK(_, _) =>
      k in o.reservations
      && item == ReservationToItem(o.reservations[k].res, if o.reservations[k].existed
        then o.reservations[k].readVersion + 1 else 1)
    case AccK(_, _) => item.AccItem?
    case _ => true
  }

  ghost predicate Consistent(puts: map<Key, Put>, o: Overlays) {
    && (forall k | k in puts :: Encodes(o, k, puts[k].item))
    && (forall k | k in o.flows :: k in puts)
    && (forall k | k in o.journals :: k in puts)
    && (forall k | k in o.reservations && k.ResK? && !o.reservations[k].existed :: k in puts)
    && (forall k | k in o.flowIdemp :: o.flowIdemp[k] in o.flows)
  }

  ghost predicate SameAt(o: Overlays, o': Overlays, l: Key) {
    && (l in o.balances <==> l in o'.balances) && (l in o.balances ==> o.balances[l] == o'.balances[l])
    && (l in o.flows <==> l in o'.flows) && (l in o.flows ==> o.flows[l] == o'.flows[l])
    && (l in o.journals <==> l in o'.journals) && (l in o.journals ==> o.journals[l] == o'.journals[l])
    && (l in o.reservations <==> l in o'.reservations)
    && (l in o.reservations ==> o.reservations[l] == o'.reservations[l])
  }

  /** Buffering one key together with its overlay entry keeps everything consistent. */
  lemma {:induction false} PutKeeps(puts: map<Key, Put>, o: Overlays, puts': map<Key, Put>, o': Overlays, k: Key)
    requires Consistent(puts, o) && k in puts' && puts' == puts[k := puts'[k]]
    requires forall l | l != k :: SameAt(o, o', l)
    requires Encodes(o', k, puts'[k].item)
    requires forall l | l in o'.flowIdemp :: o'.flowIdemp[l] in o'.flows
    ensures Consistent(puts', o')
  {
    hide ReservationToItem;
    forall l | l in puts' ensures Encodes(o', l, puts'[l].item) {
      if l != k {
        assert Encodes(o, l, puts[l].item) && SameAt(o, o', l);
      }
    }
    forall l | l in o'.flows ensures l in puts' {
      assert l != k ==> SameAt(o, o', l);
    }
    forall l | l in o'.journals ensures l in puts' {
      assert l != k ==> SameAt(o, o', l);
    }
    forall l | l in o'.reservations && l.ResK? && !o'.reservations[l].existed ensures l in puts' {
      assert l != k ==> SameAt(o, o', l);
    }
  }

  /** So does caching a row just read that is not buffered. */
  lemma {:induction false} LoadKeeps(puts: map<Key, Put>, o: Overlays, o': Overlays, k: Key)
    requires Consistent(puts, o) && k !in puts
    requires forall l | l != k :: SameAt(o, o', l)
    requires o'.flows == o.flows && o'.journals == o.journals && o'.flowIdemp == o.flowIdemp
    requires k.ResK? && k in o'.reservations ==> o'.reservations[k].existed
    ensures Consistent(puts, o')
  {
    hide ReservationToItem;
    forall l | l in puts ensures Encodes(o', l, puts[l].item) {
      assert Encodes(o, l, puts[l].item) && SameAt(o, o', l);
    }
    forall l | l in o'.reservations && l.ResK? && !o'.reservations[l].existed ensures l in puts {
      assert l != k ==> SameAt(o, o', l);
    }
  }

  lemma {:induction false} FlowIdempOk(puts: map<Key, Put>, o: Overlays)
    requires Consistent(puts, o)
    ensures forall l | l in o.flowIdemp :: o.flowIdemp[l] in o.flows
  {
  }

  lemma {:induction false} AliasFlow(puts: map<Key, Put>, o: Overlays, i: Key, k: Key)
    requires Consistent(puts, o) && k in o.flows
    ensures Consistent(puts, o.(flowIdemp := o.flowIdemp[i := k]))
  {
    hide ReservationToItem;
    var o' := o.(flowIdemp := o.flowIdemp[i := k]);
    forall l | l in puts ensures Encodes(o', l, puts[l].item) {
      assert Encodes(o, l, puts[l].item);
    }
  }

  lemma {:induction false} NotBuffered(puts: map<Key, Put>, o: Overlays, k: Key)
    requires Consistent(puts, o)
    ensures k.BalK? && k !in o.balances ==> k !in puts
    ensures k.ResK? && k !in o.reservations ==> k !in puts
  {
    assert k in puts ==> Encodes(o, k, puts[k].item);
  }

  class Tx {
    const store: Store
    var puts: map<Key, Put>
    var order: seq<Key>
    var balances: map<Key, TxBalance>
    var flows: map<Key, FlowState>
    var journals: map<Key, Journal>
    var flowIdemp: map<Key, Key>
    var reservations: map<Key, ResState>
    var done: bool
    /** Every `put` so far, in call order. */
    ghost var writes: seq<Write>

    function Buf(): Buffer
      reads this`puts, this`order
    {
      Buffer(puts, order)
    }

    ghost function Over(): Overlays
      reads this
    {
      Overlays(balances, flows, journals, reservations, flowIdemp)
    }

    /** The buffer is the coalesced list of writes, and every overlay entry agrees with the buffered item. */
    ghost predicate Valid()
      reads this
    {
      Buf() == AddAll(Empty, writes) && Consistent(puts, Over())
    }

    /** Nothing read, nothing buffered. */
    ghost predicate Clean()
      reads this
    {
      puts == map[] && order == [] && balances == map[] && flows == map[] && journals == map[]
      && flowIdemp == map[] && reservations == map[] && writes == [] && !done
    }

    /** BeginFlowTx. */
    constructor (store: Store)
      ensures Valid() && Clean() && this.store == store
    {
      this.store := store;
      puts, order, balances, flows := map[], [], map[], map[];
      journals, flowIdemp, reservations, done := map[], map[], map[], false;
      writes := [];
    }

    /** put: replaces the item of a buffered key and keeps its condition, else appends. */
    method PutItem(k: Key, item: Item, cond: Cond)
      requires Buf() == AddAll(Empty, writes)
      modifies this`puts, this`order, this`writes
      ensures writes == old(writes) + [Write(k, item, cond)]
      ensures Buf() == AddAll(Empty, writes)
      ensures k in puts && puts[k].item == item && puts == old(puts)[k := puts[k]]
    {
      AddAllSnoc(Empty, writes, Write(k, item, cond));
      if k in puts {
        puts := puts[k := Put(item, puts[k].cond)];
      } else {
        puts := puts[k := Put(item, cond)];
        order := order + [k];
      }
      writes := writes + [Write(k, item, cond)];
    }

    /** loadBalance: the overlay, else the store; a row that reads as all zero is probed for existence by
        a second read. */
    method LoadBalance(k: Key) returns (b: TxBalance)
      requires Valid() && k.BalK?
      modifies this`balances, store`requests
      ensures Valid()
      ensures k in balances && balances[k] == b && balances == old(balances)[k := b]
      ensures k in old(balances) ==> b == old(balances)[k] && store.requests == old(store.requests)
      ensures k !in old(balances) ==>
                var (d, c, ver) := BalanceRead(Lookup(store.at(old(store.requests)), k));
                if ver != 0 || d != 0 || c != 0
                then b == TxBalance(d, c, ver, true) && store.requests == old(store.requests) + 1
                else b == TxBalance(0, 0, 0, Lookup(store.at(old(store.requests) + 1), k).Some?)
                     && store.requests == old(store.requests) + 2
    {
      hide Consistent, Encodes, ReservationToItem, AddAll;
      if k in balances {
        return balances[k];
      }
      var v := store.GetItem(k);
      var (d, c, ver) := BalanceRead(v);
      var existed := ver != 0 || d != 0 || c != 0;
      if !existed {
        var probe := store.GetItem(k);
        existed := probe.Some?;
      }
      b := TxBalance(d, c, ver, existed);
      ghost var o := Over();
      NotBuffered(puts, o, k);
      balances := balances[k := b];
      LoadKeeps(puts, o, Over(), k);
    }

    /** LockBalance, and with it EnsureBalanceRow, which only drops the answer. */
    method LockBalance(tenant: string, account: string, currency: string) returns (d: int, c: int, ver: int)
      requires Valid()
      modifies this`balances, store`requests
      ensures Valid()
      ensures var k := BalK(tenant, account, currency);
              && k in balances && (d, c, ver) == (balances[k].debits, balances[k].credits, balances[k].readVersion)
              && balances == old(balances)[k := balances[k]]
              && (k in old(balances) ==> balances[k] == old(balances)[k] && store.requests == old(store.requests))
              && (k !in old(balances) ==>
                    var (d0, c0, v0) := BalanceRead(Lookup(store.at(old(store.requests)), k));
                    if v0 != 0 || d0 != 0 || c0 != 0
                    then balances[k] == TxBalance(d0, c0, v0, true) && store.requests == old(store.requests) + 1
                    else balances[k] == TxBalance(0, 0, 0, Lookup(store.at(old(store.requests) + 1), k).Some?)
                         && store.requests == old(store.requests) + 2)
    {
      var b := LoadBalance(BalK(tenant, account, currency));
      return b.debits, b.credits, b.readVersion;
    }

    /** UpdateBalance: a later LockBalance sees the new amounts; the put is conditional on the row being
        as it was first read. */
    method UpdateBalance(tenant: string, account: string, currency: string, debits: int, credits: int)
      requires Valid()
      modifies this`balances, this`puts, this`order, this`writes, store`requests
      ensures Valid()
      ensures var k := BalK(tenant, account, currency);
              && k in balances && balances[k].debits == debits && balances[k].credits == credits
              && (forall l | l != k ::
                    (l in balances <==> l in old(balances)) && (l in balances ==> balances[l] == old(balances)[l]))
              && (k in old(balances) ==>
                    store.requests == old(store.requests)
                    && balances[k] == old(balances)[k].(debits := debits, credits := credits))
              && (k !in old(balances) ==>
                    var (d0, c0, v0) := BalanceRead(Lookup(store.at(old(store.requests)), k));
                    if v0 != 0 || d0 != 0 || c0 != 0
                    then balances[k] == TxBalance(debits, credits, v0, true)
                      && store.requests == old(store.requests) + 1
                    else
                      && balances[k] == TxBalance(debits, credits, 0,
                        Lookup(store.at(old(store.requests) + 1), k).Some?)
                      && store.requests == old(store.requests) + 2)
              && writes == old(writes) + [Write(k, BalItem(debits, credits, balances[k].readVersion + 1),
                   if balances[k].existed then VersionEquals(balances[k].readVersion) else NotExists)]
    {
      hide Consistent, ReservationToItem, AddAll;
      var k := BalK(tenant, account, currency);
      var b := LoadBalance(k);
      ghost var o, p := Over(), puts;
      FlowIdempOk(p, o);
      balances := balances[k := b.(debits := debits, credits := credits)];
      var cond := if b.existed then VersionEquals(b.readVersion) else NotExists;
      PutItem(k, BalItem(debits, credits, b.readVersion + 1), cond);
      PutKeeps(p, o, puts, Over(), k);
    }

    /** GetAccount: a buffered account first, then the store. */
    method GetAccount(tenant: string, account: string) returns (a: Option<Account>)
      requires Valid()
      modifies store`requests
      ensures var k := AccK(tenant, account);
              if k in puts then puts[k].item.AccItem? && a == Some(puts[k].item.account)
                && store.requests == old(store.requests)
              else
                && store.requests == old(store.requests) + 1
                && var v := Lookup(store.at(old(store.requests)), k);
                   a == if v.Some? && v.value.AccItem? then Some(v.value.account) else None
    {
      hide ReservationToItem, AddAll;
      var k := AccK(tenant, account);
      assert k in puts ==> Encodes(Over(), k, puts[k].item);
      if k in puts {
        return Some(puts[k].item.account);
      }
      var v := store.GetItem(k);
      return if v.Some? && v.value.AccItem? then Some(v.value.account) else None;
    }

    method InsertAccount(a: Account)
      requires Valid()
      modifies this`puts, this`order, this`writes
      ensures Valid()
      ensures writes == old(writes) + AccountWrites(a)
    {
      hide Consistent, ReservationToItem, AddAll;
      ghost var p := puts;
      FlowIdempOk(p, Over());
      PutItem(AccK(a.tenantId, a.id), AccItem(a), NotExists);
      PutKeeps(p, Over(), puts, Over(), AccK(a.tenantId, a.id));
      p := puts;
      PutItem(AccUK(a.tenantId, a.ownerType, a.ownerId, a.accountType, a.currency), AccUItem(a.id), NotExists);
      PutKeeps(p, Over(), puts, Over(), AccUK(a.tenantId, a.ownerType, a.ownerId, a.accountType, a.currency));
      assert writes == old(writes) + AccountWrites(a);
    }

    method InsertFlowRun(f: FlowRun)
      requires Valid()
      modifies this`puts, this`order, this`writes, this`flows, this`flowIdemp
      ensures Valid()
      ensures flows == old(flows)[FlowK(f.tenantId, f.id) := FlowState(f, [])]
      ensures flowIdemp == old(flowIdemp)[FIdempK(f.tenantId, f.idempotencyKey) := FlowK(f.tenantId, f.id)]
      ensures writes == old(writes) + [Fresh(FlowK(f.tenantId, f.id), FlowItem(f, [])),
                                       Fresh(FIdempK(f.tenantId, f.idempotencyKey), FIdempItem(f.id))]
    {
      hide Consistent, ReservationToItem, AddAll;
      var k := FlowK(f.tenantId, f.id);
      var m := FIdempK(f.tenantId, f.idempotencyKey);
      ghost var o, p := Over(), puts;
      FlowIdempOk(p, o);
      flows := flows[k := FlowState(f, [])];
      PutItem(k, FlowItem(f, []), NotExists);
      PutKeeps(p, o, puts, Over(), k);
      o, p := Over(), puts;
      PutItem(m, FIdempItem(f.id), NotExists);
      PutKeeps(p, o, puts, Over(), m);
      AliasFlow(puts, Over(), m, k);
      flowIdemp := flowIdemp[m := k];
    }

    /** InsertFlowStep: appends to the overlaid flow and puts it again; fails without InsertFlowRun. */
    method InsertFlowStep(tenant: string, flowRunId: string, s: FlowStep) returns (ok: bool)
      requires Valid()
      modifies this`puts, this`order, this`writes, this`flows
      ensures Valid()
      ensures var k := FlowK(tenant, flowRunId);
              ok == (k in old(flows))
              && if ok then
                   var f := old(flows)[k];
                   flows == old(flows)[k := f.(steps := f.steps + [s])]
                   && writes == old(writes) + [Fresh(k, FlowItem(f.run, f.steps + [s]))]
                 else flows == old(flows) && writes == old(writes)
    {
      hide Consistent, ReservationToItem, AddAll;
      var k := FlowK(tenant, flowRunId);
      if k !in flows {
        return false;
      }
      ghost var o, p := Over(), puts;
      FlowIdempOk(p, o);
      var f := flows[k];
      flows := flows[k := f.(steps := f.steps + [s])];
      PutItem(k, FlowItem(f.run, f.steps + [s]), NotExists);
      PutKeeps(p, o, puts, Over(), k);
      return true;
    }

    method CompleteFlowRun(tenant: string, flowRunId: string) returns (ok: bool)
      requires Valid()
      modifies this`puts, this`order, this`writes, this`flows
      ensures Valid()
      ensures var k := FlowK(tenant, flowRunId);
              ok == (k in old(flows))
              && if ok then
                   var f := old(flows)[k];
                   flows == old(flows)[k := f.(run := f.run.(status := Completed))]
                   && writes == old(writes) + [Fresh(k, FlowItem(f.run.(status := Completed), f.steps))]
                 else flows == old(flows) && writes == old(writes)
    {
      hide Consistent, ReservationToItem, AddAll;
      var k := FlowK(tenant, flowRunId);
      if k !in flows {
        return false;
      }
      ghost var o, p := Over(), puts;
      FlowIdempOk(p, o);
      var f := flows[k];
      flows := flows[k := f.(run := f.run.(status := Completed))];
      PutItem(k, FlowItem(f.run.(status := Completed), f.steps), NotExists);
      PutKeeps(p, o, puts, Over(), k);
      return true;
    }

    /** GetFlowByIdempotency: a flow of this transaction first, then the marker and the flow row. */
    method GetFlowByIdempotency(tenant: string, key: string) returns (f: Option<FlowState>)
      requires Valid()
      modifies store`requests
      ensures var k := FIdempK(tenant, key);
              if k in flowIdemp then
                f == Some(flows[flowIdemp[k]]) && store.requests == old(store.requests)
              else
                var m := Lookup(store.at(old(store.requests)), k);
                if m.Some? && m.value.FIdempItem? then
                  && store.requests == old(store.requests) + 2
                  && var v := Lookup(store.at(old(store.requests) + 1), FlowK(tenant, m.value.flowRunId));
                     f == if v.Some? && v.value.FlowItem? then Some(FlowState(v.value.run, v.value.steps)) else None
                else f == None && store.requests == old(store.requests) + 1
    {
      var k := FIdempK(tenant, key);
      if k in flowIdemp {
        return Some(flows[flowIdemp[k]]);
      }
      var m := store.GetItem(k);
      if !(m.Some? && m.value.FIdempItem?) {
        return None;
      }
      var v := store.GetItem(FlowK(tenant, m.value.flowRunId));
      return if v.Some? && v.value.FlowItem? then Some(FlowState(v.value.run, v.value.steps)) else None;
    }

    method GetFlowSteps(tenant: string, flowRunId: string) returns (steps: seq<FlowStep>)
      requires Valid()
      modifies store`requests
      ensures var k := FlowK(tenant, flowRunId);
              if k in flows then steps == flows[k].steps && store.requests == old(store.requests)
              else
                && store.requests == old(store.requests) + 1
                && var v := Lookup(store.at(old(store.requests)), k);
                   steps == if v.Some? && v.value.FlowItem? then v.value.steps else []
    {
      var k := FlowK(tenant, flowRunId);
      if k in flows {
        return flows[k].steps;
      }
      var v := store.GetItem(k);
      return if v.Some? && v.value.FlowItem? then v.value.steps else [];
    }

    /** InsertJournal: the journal is buffered without entries, with its event marker. */
    method InsertJournal(j: Journal)
      requires Valid()
      modifies this`puts, this`order, this`writes, this`journals
      ensures Valid()
      ensures journals == old(journals)[JrnK(j.tenantId, j.id) := j.(entries := [])]
      ensures writes == old(writes) + [Fresh(JrnK(j.tenantId, j.id), JrnItem(j.(entries := []))),
                                       Fresh(EvtK(j.eventId), EvtItem(j.id))]
    {
      hide Consistent, ReservationToItem, AddAll;
      var k := JrnK(j.tenantId, j.id);
      ghost var o, p := Over(), puts;
      FlowIdempOk(p, o);
      journals := journals[k := j.(entries := [])];
      PutItem(k, JrnItem(j.(entries := [])), NotExists);
      PutKeeps(p, o, puts, Over(), k);
      p := puts;
      PutItem(EvtK(j.eventId), EvtItem(j.id), NotExists);
      PutKeeps(p, Over(), puts, Over(), EvtK(j.eventId));
    }

    method InsertEntry(tenant: string, journalId: string, e: Entry) returns (ok: bool)
      requires Valid()
      modifies this`puts, this`order, this`writes, this`journals
      ensures Valid()
      ensures var k := JrnK(tenant, journalId);
              ok == (k in old(journals))
              && if ok then
                   var j := old(journals)[k];
                   journals == old(journals)[k := j.(entries := j.entries + [e])]
                   && writes == old(writes) + [Fresh(k, JrnItem(j.(entries := j.entries + [e])))]
                 else journals == old(journals) && writes == old(writes)
    {
      hide Consistent, ReservationToItem, AddAll;
      var k := JrnK(tenant, journalId);
      if k !in journals {
        return false;
      }
      ghost var o, p := Over(), puts;
      FlowIdempOk(p, o);
      var j := journals[k];
      journals := journals[k := j.(entries := j.entries + [e])];
      PutItem(k, JrnItem(j.(entries := j.entries + [e])), NotExists);
      PutKeeps(p, o, puts, Over(), k);
      return true;
    }

    method InsertOutbox(e: Event)
      requires Valid()
      modifies this`puts, this`order, this`writes
      ensures Valid()
      ensures writes == old(writes) + [OutboxWrite(e)]
    {
      hide Consistent, ReservationToItem, AddAll;
      ghost var p := puts;
      FlowIdempOk(p, Over());
      PutItem(ObxK(e.id), ObxItem(e), NotExists);
      PutKeeps(p, Over(), puts, Over(), ObxK(e.id));
    }

    method InsertReservation(r: Reservation)
      requires Valid()
      modifies this`puts, this`order, this`writes, this`reservations
      ensures Valid()
      ensures reservations == old(reservations)[ResK(r.tenantId, r.id) := ResState(r, 0, false)]
      ensures writes == old(writes) + [Fresh(ResK(r.tenantId, r.id), ReservationToItem(r, 1)),
                                       Fresh(RIdempK(r.tenantId, r.idempotencyKey), RIdempItem(r.id))]
    {
      hide Consistent, ReservationToItem, AddAll;
      var k := ResK(r.tenantId, r.id);
      ghost var o, p := Over(), puts;
      FlowIdempOk(p, o);
      reservations := reservations[k := ResState(r, 0, false)];
      PutItem(k, ReservationToItem(r, 1), NotExists);
      PutKeeps(p, o, puts, Over(), k);
      p := puts;
      PutItem(RIdempK(r.tenantId, r.idempotencyKey), RIdempItem(r.id), NotExists);
      PutKeeps(p, Over(), puts, Over(), RIdempK(r.tenantId, r.idempotencyKey));
    }

    /** LockReservation: the overlay, else the store; None is the not-found error. */
    method LockReservation(tenant: string, id: string) returns (r: Option<Reservation>)
      requires Valid()
      modifies this`reservations, store`requests
      ensures Valid()
      ensures var k := ResK(tenant, id);
              if k in old(reservations) then
                r == Some(old(reservations)[k].res) && reservations == old(reservations)
                  && store.requests == old(store.requests)
              else
                && store.requests == old(store.requests) + 1
                && var v := Lookup(store.at(old(store.requests)), k);
                   if v.Some? && v.value.ResItem? then
                     r == Some(v.value.reservation)
                     && reservations == old(reservations)[k := ResState(v.value.reservation, v.value.resVersion, true)]
                   else r == None && reservations == old(reservations)
    {
      hide Consistent, ReservationToItem, AddAll;
      var k := ResK(tenant, id);
      if k in reservations {
        return Some(reservations[k].res);
      }
      var v := store.GetItem(k);
      if !(v.Some? && v.value.ResItem?) {
        return None;
      }
      ghost var o := Over();
      NotBuffered(puts, o, k);
      reservations := reservations[k := ResState(v.value.reservation, v.value.resVersion, true)];
      LoadKeeps(puts, o, Over(), k);
      return Some(v.value.reservation);
    }

    /** GetReservationByIdempotency: the overlay is searched in map order, then the marker is read.
        `missing` reports a marker without a reservation. */
    method GetReservationByIdempotency(tenant: string, key: string) returns (r: Option<Reservation>, missing: bool)
      requires Valid()
      modifies this`reservations, store`requests
      ensures Valid()
      ensures (exists k :: k in old(reservations) && Matches(old(reservations)[k].res, tenant, key)) ==>
                r.Some? && Matches(r.value, tenant, key) && !missing && store.requests == old(store.requests)
                && reservations == old(reservations)
      ensures (forall k | k in old(reservations) :: !Matches(old(reservations)[k].res, tenant, key)) ==>
                var n := old(store.requests);
                var m := Lookup(store.at(n), RIdempK(tenant, key));
                if m.Some? && m.value.RIdempItem? then
                  var k := ResK(tenant, m.value.reservationId);
                  if k in old(reservations) then
                    && r == Some(old(reservations)[k].res) && !missing
                    && store.requests == n + 1 && reservations == old(reservations)
                  else
                    && store.requests == n + 2
                    && var v := Lookup(store.at(n + 1), k);
                       if v.Some? && v.value.ResItem? then
                         && r == Some(v.value.reservation) && !missing
                         && reservations == old(reservations)[k :=
                           ResState(v.value.reservation, v.value.resVersion, true)]
                       else r == None && missing && reservations == old(reservations)
                else r == None && !missing && store.requests == n + 1 && reservations == old(reservations)
    {
      var left := reservations.Keys;
      while left != {}
        invariant left <= reservations.Keys
        invariant forall k | k in reservations && k !in left :: !Matches(reservations[k].res, tenant, key)
      {
        var k :| k in left;
        if reservations[k].res.tenantId == tenant && reservations[k].res.idempotencyKey == key {
          return Some(reservations[k].res), false;
        }
        left := left - {k};
      }
      var m := store.GetItem(RIdempK(tenant, key));
      if !(m.Some? && m.value.RIdempItem?) {
        return None, false;
      }
      r := LockReservation(tenant, m.value.reservationId);
      return r, r == None;
    }

    /** UpdateReservationAmounts: conditional on the version read, or still part of the insert when the
        reservation is new in this transaction. */
    method UpdateReservationAmounts(tenant: string, id: string, outstanding: int, committed: int, released: int,
        status: ReservationStatus) returns (ok: bool)
      requires Valid()
      modifies this`puts, this`order, this`writes, this`reservations
      ensures Valid()
      ensures var k := ResK(tenant, id);
              ok == (k in old(reservations))
              && if ok then
                   var rs := old(reservations)[k];
                   var res := rs.res.(outstanding := outstanding, committed := committed, released := released,
                                      status := status);
                   reservations == old(reservations)[k := rs.(res := res)]
                   && writes == old(writes)
                      + [if rs.existed then Write(k, ReservationToItem(res, rs.readVersion + 1),
                        VersionEquals(rs.readVersion))
                         else Fresh(k, ReservationToItem(res, 1))]
                 else reservations == old(reservations) && writes == old(writes)
    {
      hide Consistent, ReservationToItem, AddAll;
      var k := ResK(tenant, id);
      if k !in reservations {
        return false;
      }
      ghost var o, p := Over(), puts;
      FlowIdempOk(p, o);
      var rs := reservations[k];
      var res := rs.res.(outstanding := outstanding, committed := committed, released := released, status := status);
      reservations := reservations[k := rs.(res := res)];
      if rs.existed {
        PutItem(k, ReservationToItem(res, rs.readVersion + 1), VersionEquals(rs.readVersion));
      } else {
        PutItem(k, ReservationToItem(res, 1), NotExists);
      }
      PutKeeps(p, o, puts, Over(), k);
      return true;
    }

    /** Commit: at most one write request; its conditions, effect and error classification are those of
        `CommitOn` on the table that request finds. */
    method Commit() returns (err: Option<Code>)
      requires Valid()
      modifies this`done, store
      ensures done
      ensures old(done) ==> err == Some(Internal)
      ensures old(done) || |puts| == 0 || |puts| > MAX_TX_ITEMS ==>
                store.wrote == old(store.wrote) && store.requests == old(store.requests)
      ensures !old(done) && |puts| == 0 ==> err == None
      ensures !old(done) && |puts| > MAX_TX_ITEMS ==> err == Some(FlowTooLarge)
      ensures !old(done) && 0 < |puts| <= MAX_TX_ITEMS ==>
                store.requests == old(store.requests) + 1
                && (err, store.wrote) == (CommitOn(store.at(old(store.requests)), Buf()).0,
                  Some(CommitOn(store.at(old(store.requests)), Buf()).1))
    {
      if done {
        return Some(Internal);
      }
      done := true;
      var n := |puts|;
      if n == 0 {
        return None;
      }
      if n > MAX_TX_ITEMS {
        return Some(FlowTooLarge);
      }
      hide Consistent, AllHold, Written, PutAll, CondHolds, FirstFailure, AddAll, Buffer.Valid;
      ghost var t := store.at(store.requests);
      EmptyValid();
      AddAllValid(Empty, writes);
      var items := PutRequests();
      PutAllIsWritten(t, Buf(), items);
      var reasons := store.TransactWriteItems(items);
      if reasons == None {
        return None;
      }
      var code := FirstReason(t, items, reasons.value);
      return Some(code);
    }

    /** The put operations of the request, in insertion order. */
    method PutRequests() returns (items: seq<Write>)
      requires Buf().Valid()
      ensures |items| == |order|
      ensures forall j | 0 <= j < |items| :: order[j] in puts && items[j] == PutRequest(Buf(), order[j])
    {
      items := [];
      for i := 0 to |order|
        invariant |items| == i
        invariant forall j | 0 <= j < i :: order[j] in puts && items[j] == PutRequest(Buf(), order[j])
      {
        assert order[i] in order;
        items := items + [Write(order[i], puts[order[i]].item, puts[order[i]].cond)];
      }
    }

    /** Maps the first failed condition to its error. */
    method FirstReason(ghost t: Table, ghost items: seq<Write>, reasons: seq<bool>) returns (code: Code)
      requires |reasons| == |items| == |order|
      requires forall j | 0 <= j < |items| :: order[j] in puts && items[j] == PutRequest(Buf(), order[j])
      requires forall j | 0 <= j < |items| :: reasons[j] == !CondHolds(t, items[j].key, items[j].cond)
      ensures code == Classify(t, Buf())
    {
      hide CondHolds;
      for i := 0 to |reasons|
        invariant forall j | 0 <= j < i :: !reasons[j]
      {
        if reasons[i] {
          FirstFailureAt(t, Buf(), i);
          match puts[order[i]].cond {
            case VersionEquals(_) =>
              return SerializationRetryExhausted;
            case NotExists =>
              BalancePrefix(order[i]);
              if "BAL#" <= Encode(order[i]) {
                return SerializationRetryExhausted;
              }
              return FlowConflict;
            case NoCond =>
              return FlowConflict;
          }
        }
      }
      NoFailure(t, Buf());
      return Internal;
    }

    /** Rollback discards everything; the store is not contacted. */
    method Rollback()
      modifies this
      ensures done && Valid() && puts == map[] && writes == []
    {
      done := true;
      puts, order, balances, flows := map[], [], map[], map[];
      journals, flowIdemp, reservations := map[], map[], map[];
      writes := [];
    }
  }

  predicate Matches(r: Reservation, tenant: string, key: string) {
    r.tenantId == tenant && r.idempotencyKey == key
  }

  lemma {:induction false} NoFailure(t: Table, b: Buffer)
    requires forall j | 0 <= j < |b.order| :: b.order[j] in b.puts && CondHolds(t, b.order[j], b.puts[b.order[j]].cond)
    ensures FirstFailure(t, b, 0) == |b.order|
  {
    hide CondHolds;
  }
}
