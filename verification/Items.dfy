/** Stored items (internal/repo/dynamo/items.go), the write buffer, and what committing it does to the
    table (internal/repo/dynamo/tx.go). */
module Items {
  import opened Ledger
  import opened Keys

  datatype Event = Event(id: string, tenantId: string, aggregateId: string, eventType: string, idempotencyKey: string)

  /** Sort-key attributes of the two reservation indexes. */
  datatype ExpiryEntry = ExpiryEntry(expiresAt: int, tenant: string, reservation: string)

  datatype OwnerEntry = OwnerEntry(partition: string, createdAt: int, reservation: string)

  datatype Item =
    | AccItem(account: Account)
    | AccUItem(accountId: string)
    | BalItem(debits: int, credits: int, version: int)
    | JrnItem(journal: Journal)
    | EvtItem(journalId: string)
    | FlowItem(run: FlowRun, steps: seq<FlowStep>)
    | FIdempItem(flowRunId: string)
    | ObxItem(event: Event)
    | ResItem(reservation: Reservation, resVersion: int, byExpiry: Option<ExpiryEntry>, byOwner: Option<OwnerEntry>)
    | RIdempItem(reservationId: string)

  type Table = map<Key, Item>

  function Lookup(t: Table, k: Key): Option<Item> {
    if k in t then Some(t[k]) else None
  }

  /** The `version` attribute; only balance and reservation items carry one. */
  function VersionOf(item: Item): Option<int> {
    match item
    case BalItem(_, _, v) => Some(v)
    case ResItem(_, v, _, _) => Some(v)
    case _ => None
  }

  // ------------------------------------------------------------------------------------------
  // Reservation items and their index attributes
  // ------------------------------------------------------------------------------------------

  predicate Active(s: ReservationStatus) {
    s == Held || s == Partial
  }

  /** Position of the first colon, or the length when there is none. */
  function Colon(s: string): (i: nat)
    ensures i <= |s|
    ensures forall j | 0 <= j < i :: s[j] != ':'
    ensures i < |s| ==> s[i] == ':'
  {
    if s == "" then 0 else if s[0] == ':' then 0 else 1 + Colon(s[1..])
  }

  /** The first two colon-separated parts of an account id, or two empty strings when it has no colon. */
  function ParseAccountOwner(accountId: string): (string, string) {
    var i := Colon(accountId);
    if i == |accountId| then ("", "")
    else
      var rest := accountId[i + 1..];
      (accountId[..i], rest[..Colon(rest)])
  }

  function ReservationToItem(r: Reservation, version: int): Item {
    var (ownerType, ownerId) := ParseAccountOwner(r.sourceAccountId);
    ResItem(r, version,
      if Active(r.status) && r.expiresAt.Some? then Some(ExpiryEntry(r.expiresAt.value, r.tenantId, r.id)) else None,
      if Active(r.status) && ownerType != "" && ownerId != ""
      then Some(OwnerEntry(OwnerPartition(r.tenantId, ownerType, ownerId), r.createdAt, r.id)) else None)
  }

  // ------------------------------------------------------------------------------------------
  // The write buffer
  // ------------------------------------------------------------------------------------------

  datatype Cond = NoCond | NotExists | VersionEquals(v: int)

  datatype Put = Put(item: Item, cond: Cond)

  /** One call of the transaction's `put`. */
  datatype Write = Write(key: Key, item: Item, cond: Cond)

  datatype Buffer = Buffer(puts: map<Key, Put>, order: seq<Key>) {
    /** `order` lists the keys of `puts`, each exactly once. */
    ghost predicate Valid() {
      && (forall i, j | 0 <= i < j < |order| :: order[i] != order[j])
      && (forall k :: k in order <==> k in puts)
    }
  }

  const Empty := Buffer(map[], [])

  /** A key buffered before keeps its condition and position and gets the new item. */
  function Add(b: Buffer, w: Write): Buffer {
    if w.key in b.puts then Buffer(b.puts[w.key := Put(w.item, b.puts[w.key].cond)], b.order)
    else Buffer(b.puts[w.key := Put(w.item, w.cond)], b.order + [w.key])
  }

  function AddAll(b: Buffer, ws: seq<Write>): Buffer {
    if ws == [] then b else Add(AddAll(b, ws[..|ws| - 1]), ws[|ws| - 1])
  }

  lemma {:induction false} AddAllSnoc(b: Buffer, ws: seq<Write>, w: Write)
    ensures AddAll(b, ws + [w]) == Add(AddAll(b, ws), w)
  {
    assert (ws + [w])[..|ws|] == ws;
  }

  lemma {:induction false} AddAllConcat(b: Buffer, xs: seq<Write>, ys: seq<Write>)
    ensures AddAll(b, xs + ys) == AddAll(AddAll(b, xs), ys)
  {
    if ys == [] {
      assert xs + ys == xs;
    } else {
      var n := |ys| - 1;
      assert xs + ys == (xs + ys[..n]) + [ys[n]];
      AddAllSnoc(b, xs + ys[..n], ys[n]);
      AddAllConcat(b, xs, ys[..n]);
    }
  }

  function KeySet(ws: seq<Write>): set<Key> {
    set w | w in ws :: w.key
  }

  /** The buffer lists each key once, holds exactly the written keys, and only ever appends to its
      order. */
  lemma {:induction false} AddAllValid(b: Buffer, ws: seq<Write>)
    requires b.Valid()
    ensures AddAll(b, ws).Valid()
    ensures AddAll(b, ws).puts.Keys == b.puts.Keys + KeySet(ws)
    ensures b.order <= AddAll(b, ws).order
  {
    if ws != [] {
      var n := |ws| - 1;
      AddAllValid(b, ws[..n]);
      hide Add, Buffer.Valid;
      assert ws == ws[..n] + [ws[n]];
      assert KeySet(ws) == KeySet(ws[..n]) + {ws[n].key};
      AddValid(AddAll(b, ws[..n]), ws[n]);
    }
  }

  lemma {:induction false} AddValid(b: Buffer, w: Write)
    requires b.Valid()
    ensures Add(b, w).Valid() && Add(b, w).puts.Keys == b.puts.Keys + {w.key} && b.order <= Add(b, w).order
  {
    assert forall k :: k in Add(b, w).order <==> k in Add(b, w).puts;
  }

  lemma {:induction false} EmptyValid()
    ensures Empty.Valid()
  {
  }

  /** The condition a list of writes settles on for `k`: that of its first write to `k`. */
  function FirstCond(ws: seq<Write>, k: Key): Option<Cond> {
    if ws == [] then None
    else
      var before := FirstCond(ws[..|ws| - 1], k);
      var w := ws[|ws| - 1];
      if before.Some? then before else if w.key == k then Some(w.cond) else None
  }

  /** The item a list of writes leaves at `k`: that of its last write to `k`. */
  function LastItem(ws: seq<Write>, k: Key): Option<Item> {
    if ws == [] then None
    else if ws[|ws| - 1].key == k then Some(ws[|ws| - 1].item)
    else LastItem(ws[..|ws| - 1], k)
  }

  /** Coalescing, stated per key: first condition, last item. */
  lemma {:induction false} Coalesced(ws: seq<Write>, k: Key)
    ensures k in AddAll(Empty, ws).puts <==> FirstCond(ws, k).Some?
    ensures k in AddAll(Empty, ws).puts <==> LastItem(ws, k).Some?
    ensures k in AddAll(Empty, ws).puts
            ==> AddAll(Empty, ws).puts[k] == Put(LastItem(ws, k).value, FirstCond(ws, k).value)
  {
    if ws != [] {
      Coalesced(ws[..|ws| - 1], k);
    }
  }

  lemma {:induction false} LastItemConcat(xs: seq<Write>, ys: seq<Write>, k: Key)
    ensures LastItem(xs + ys, k) == if LastItem(ys, k).Some? then LastItem(ys, k) else LastItem(xs, k)
  {
    if ys == [] {
      assert xs + ys == xs;
    } else {
      var n := |ys| - 1;
      assert (xs + ys)[..|xs + ys| - 1] == xs + ys[..n];
      LastItemConcat(xs, ys[..n], k);
    }
  }

  lemma {:induction false} FirstCondConcat(xs: seq<Write>, ys: seq<Write>, k: Key)
    ensures FirstCond(xs + ys, k) == if FirstCond(xs, k).Some? then FirstCond(xs, k) else FirstCond(ys, k)
  {
    if ys == [] {
      assert xs + ys == xs;
    } else {
      var n := |ys| - 1;
      assert (xs + ys)[..|xs + ys| - 1] == xs + ys[..n];
      FirstCondConcat(xs, ys[..n], k);
    }
  }

  lemma {:induction false} NotWritten(ws: seq<Write>, k: Key)
    requires forall w | w in ws :: w.key != k
    ensures LastItem(ws, k) == None && FirstCond(ws, k) == None
  {
    if ws != [] {
      NotWritten(ws[..|ws| - 1], k);
    }
  }

  /** Among writes to distinct keys each one stands for itself. */
  lemma {:induction false} DistinctWrites(ws: seq<Write>, j: nat)
    requires j < |ws| && forall a, b | 0 <= a < b < |ws| :: ws[a].key != ws[b].key
    ensures FirstCond(ws, ws[j].key) == Some(ws[j].cond)
    ensures LastItem(ws, ws[j].key) == Some(ws[j].item)
  {
    var n := |ws| - 1;
    if j == n {
      NotWritten(ws[..n], ws[j].key);
    } else {
      DistinctWrites(ws[..n], j);
    }
  }

  /** First condition and last item are those of some writes to the key. */
  lemma {:induction false} Witnesses(ws: seq<Write>, k: Key)
    ensures FirstCond(ws, k).Some? <==> exists w :: w in ws && w.key == k
    ensures LastItem(ws, k).Some? <==> exists w :: w in ws && w.key == k
    ensures FirstCond(ws, k).Some? ==> exists w :: w in ws && w.key == k && w.cond == FirstCond(ws, k).value
    ensures LastItem(ws, k).Some? ==> exists w :: w in ws && w.key == k && w.item == LastItem(ws, k).value
  {
    if ws != [] {
      var n := |ws| - 1;
      Witnesses(ws[..n], k);
      assert ws == ws[..n] + [ws[n]];
      assert ws[n] in ws;
    }
  }

  // ------------------------------------------------------------------------------------------
  // Committing the buffer
  // ------------------------------------------------------------------------------------------

  const MAX_TX_ITEMS := 100

  predicate CondHolds(t: Table, k: Key, c: Cond) {
    match c
    case NoCond => true
    case NotExists => k !in t
    case VersionEquals(v) => k in t && VersionOf(t[k]) == Some(v)
  }

  predicate AllHold(t: Table, b: Buffer) {
    forall k | k in b.puts :: CondHolds(t, k, b.puts[k].cond)
  }

  function Written(t: Table, b: Buffer): Table {
    t + map k | k in b.puts :: b.puts[k].item
  }

  /** The error of one failed condition. */
  function ClassifyPut(k: Key, c: Cond): Code {
    match c
    case VersionEquals(_) => SerializationRetryExhausted
    case NotExists => if k.BalK? then SerializationRetryExhausted else FlowConflict
    case NoCond => FlowConflict
  }

  /** Position of the first put, in buffer order, whose condition fails; the length if none does. */
  function FirstFailure(t: Table, b: Buffer, from: nat): (i: nat)
    requires from <= |b.order|
    ensures from <= i <= |b.order|
    ensures forall j | from <= j < i :: b.order[j] in b.puts ==> CondHolds(t, b.order[j], b.puts[b.order[j]].cond)
    ensures i < |b.order| ==> b.order[i] in b.puts && !CondHolds(t, b.order[i], b.puts[b.order[i]].cond)
    decreases |b.order| - from
  {
    if from == |b.order| then from
    else if b.order[from] in b.puts && !CondHolds(t, b.order[from], b.puts[b.order[from]].cond) then from
    else FirstFailure(t, b, from + 1)
  }

  /** The first failing position is unique. */
  lemma {:induction false} FirstFailureAt(t: Table, b: Buffer, i: nat)
    requires i < |b.order| && b.order[i] in b.puts && !CondHolds(t, b.order[i], b.puts[b.order[i]].cond)
    requires forall j | 0 <= j < i :: b.order[j] in b.puts && CondHolds(t, b.order[j], b.puts[b.order[j]].cond)
    ensures FirstFailure(t, b, 0) == i
  {
    var k := FirstFailure(t, b, 0);
    assert k >= i;
    assert k <= i;
  }

  function Classify(t: Table, b: Buffer): Code {
    var i := FirstFailure(t, b, 0);
    if i < |b.order| then ClassifyPut(b.order[i], b.puts[b.order[i]].cond) else Internal
  }

  /** Outcome of committing `b` when the table is `t`: the error, if any, and the table afterwards. */
  function CommitOn(t: Table, b: Buffer): (Option<Code>, Table) {
    if |b.puts| == 0 then (None, t)
    else if |b.puts| > MAX_TX_ITEMS then (Some(FlowTooLarge), t)
    else if AllHold(t, b) then (None, Written(t, b))
    else (Some(Classify(t, b)), t)
  }

  // ------------------------------------------------------------------------------------------
  // Refinement: a buffered commit is a run of immediate writes
  // ------------------------------------------------------------------------------------------

  /** A transaction that writes in place: a row it has not written yet is checked against its
      condition, its own rows are simply overwritten. */
  datatype InPlace = InPlace(table: Table, own: set<Key>, ok: bool)

  function WriteNow(s: InPlace, w: Write): InPlace {
    InPlace(s.table[w.key := w.item], s.own + {w.key}, s.ok && (w.key in s.own || CondHolds(s.table, w.key, w.cond)))
  }

  function WriteAllNow(t: Table, ws: seq<Write>): InPlace {
    if ws == [] then InPlace(t, {}, true) else WriteNow(WriteAllNow(t, ws[..|ws| - 1]), ws[|ws| - 1])
  }

  lemma {:induction false} AddWritten(t: Table, b: Buffer, w: Write)
    ensures Written(t, Add(b, w)) == Written(t, b)[w.key := w.item]
    ensures Add(b, w).puts.Keys == b.puts.Keys + {w.key}
  {
    var l, r := Written(t, Add(b, w)), Written(t, b)[w.key := w.item];
    assert l.Keys == r.Keys;
    forall k | k in l ensures l[k] == r[k] {
    }
  }

  lemma {:induction false} AddHolds(t: Table, b: Buffer, w: Write)
    ensures AllHold(t, Add(b, w)) <==> AllHold(t, b) && (w.key in b.puts || CondHolds(Written(t, b), w.key, w.cond))
  {
    var c := Add(b, w);
    assert forall k | k in b.puts :: k in c.puts && c.puts[k].cond == b.puts[k].cond;
    if w.key !in b.puts {
      assert c.puts[w.key].cond == w.cond;
      assert Lookup(Written(t, b), w.key) == Lookup(t, w.key);
      assert CondHolds(Written(t, b), w.key, w.cond) == CondHolds(t, w.key, w.cond);
    }
  }

  /** The buffer accepts exactly the write sequences that run through in place, and leaves the same
      table. */
  lemma {:induction false} BufferRefinesInPlace(t: Table, ws: seq<Write>)
    ensures WriteAllNow(t, ws).own == AddAll(Empty, ws).puts.Keys
    ensures WriteAllNow(t, ws).table == Written(t, AddAll(Empty, ws))
    ensures WriteAllNow(t, ws).ok <==> AllHold(t, AddAll(Empty, ws))
  {
    if ws == [] {
      assert Written(t, Empty) == t;
    } else {
      var n := |ws| - 1;
      BufferRefinesInPlace(t, ws[..n]);
      AddWritten(t, AddAll(Empty, ws[..n]), ws[n]);
      AddHolds(t, AddAll(Empty, ws[..n]), ws[n]);
    }
  }

  /** The table after a commit, key by key. */
  lemma {:induction false} WrittenLookup(t: Table, ws: seq<Write>, k: Key)
    ensures Lookup(Written(t, AddAll(Empty, ws)), k)
         == if LastItem(ws, k).Some? then LastItem(ws, k) else Lookup(t, k)
  {
    Coalesced(ws, k);
  }
}
