/** The two secondary indexes on reservations (internal/repo/dynamo/items.go, reads_reservations.go)
    against the SQL queries they replace. */
module Index {
  import opened Ledger
  import opened Keys
  import opened Items
  import opened Ordering
  import opened Handlers
  import opened Writes
  import opened Protocol
  import opened Serializability
  import opened Reads
  import opened Atomic
  import opened Effects
  import opened Reachable
  import opened Holds
  import opened Reserved

  // ------------------------------------------------------------------------------------------
  // Owners in account ids
  // ------------------------------------------------------------------------------------------

  predicate ColonFree(s: string) {
    ':' !in s
  }

  lemma {:induction false} ColonAfter(a: string, rest: string)
    requires ColonFree(a)
    ensures Colon(a + ":" + rest) == |a|
  {
    if a == "" {
      assert (a + ":" + rest)[0] == ':';
    } else {
      assert (a + ":" + rest)[1..] == a[1..] + ":" + rest;
      assert (a + ":" + rest)[0] == a[0] && a[0] in a;
      assert ColonFree(a[1..]);
      ColonAfter(a[1..], rest);
    }
  }

  lemma {:induction false} FormatShape(ownerType: string, ownerId: string, accountType: string, currency: string)
    ensures AccountId(ownerType, ownerId, accountType, currency)
         == ownerType + ":" + (ownerId + ":" + (accountType + ":" + currency))
  {
  }

  /** The part before the first colon of `a`, if it has one, ends earlier than `a`. */
  lemma {:induction false} ColonInside(a: string, rest: string)
    requires !ColonFree(a)
    ensures Colon(a + rest) < |a|
  {
    assert (a + rest)[0] == a[0];
    if a[0] != ':' {
      assert (a + rest)[1..] == a[1..] + rest;
      assert !ColonFree(a[1..]) by {
        var i :| 0 <= i < |a| && a[i] == ':';
        assert a[1..][i - 1] == ':';
      }
      ColonInside(a[1..], rest);
    }
  }

  /** Parsing undoes the formatting of account ids exactly when neither owner part has a colon. */
  lemma {:induction false} OwnerRoundTripIff(ownerType: string, ownerId: string, accountType: string, currency: string)
    ensures ParseAccountOwner(AccountId(ownerType, ownerId, accountType, currency)) == (ownerType, ownerId)
            <==> ColonFree(ownerType) && ColonFree(ownerId)
  {
    hide Colon, AccountId;
    var tail := accountType + ":" + currency;
    var rest := ownerId + ":" + tail;
    var id := AccountId(ownerType, ownerId, accountType, currency);
    FormatShape(ownerType, ownerId, accountType, currency);
    assert id == ownerType + ":" + rest;
    if ColonFree(ownerType) {
      ColonAfter(ownerType, rest);
      assert id[..|ownerType|] == ownerType && id[|ownerType| + 1..] == rest;
      if ColonFree(ownerId) {
        ColonAfter(ownerId, tail);
        assert rest[..|ownerId|] == ownerId;
      } else {
        assert rest == ownerId + (":" + tail);
        ColonInside(ownerId, ":" + tail);
      }
    } else {
      assert id == ownerType + (":" + rest);
      ColonInside(ownerType, ":" + rest);
    }
  }

  // ------------------------------------------------------------------------------------------
  // Accounts are named after their owners
  // ------------------------------------------------------------------------------------------

  predicate AccountNamed(t: Table, k: Key) {
    k.AccK? && k in t ==>
      t[k].AccItem?
      && var a := t[k].account; a.id == AccountId(a.ownerType, a.ownerId, a.accountType, a.currency)
  }

  ghost predicate AccountsNamed(t: Table) {
    forall k :: AccountNamed(t, k)
  }

  lemma {:induction false} StepNamed(r: Request, env: Env, t: Table, u: Table, k: Key)
    requires Takes(r, env, t, u) && AccountNamed(t, k)
    ensures AccountNamed(u, k)
  {
    hide Takes, AccountId;
    if k.AccK? && k in u {
      StepAccount(r, env, t, u, k.tenant, k.account);
    }
  }

  lemma {:induction false} NamesHold(t0: Table, actions: seq<Action>)
    requires Sound(t0) && AccountsNamed(t0) && Run(t0, actions).Some?
    ensures AccountsNamed(Run(t0, actions).value.table)
  {
    hide Inv, Enabled, Do, Sound, AccountNamed;
    if actions != [] {
      var n := |actions| - 1;
      NamesHold(t0, actions[..n]);
      RunKeepsInv(t0, actions[..n]);
      var s, a := Run(t0, actions[..n]).value, actions[n];
      DoTakes(t0, s, a);
      if Do(s, a).table != s.table {
        CommitIsLive(s, a);
        forall k ensures AccountNamed(Do(s, a).table, k) {
          StepNamed(s.live[a.id].req, s.live[a.id].env, s.table, Do(s, a).table, k);
        }
      }
    }
  }

  // ------------------------------------------------------------------------------------------
  // The indexes
  // ------------------------------------------------------------------------------------------

  /** The reservations filed under one partition of the owner index. */
  predicate Filed(t: Table, k: Key, partition: string) {
    k in t && t[k].ResItem? && t[k].byOwner.Some? && t[k].byOwner.value.partition == partition
  }

  /** The row the SQL join finds for an open reservation of this owner. */
  predicate Joined(t: Table, k: Key, tenant: string, ownerType: string, ownerId: string) {
    && k.ResK? && k in t && t[k].ResItem? && k.tenant == tenant && Items.Active(t[k].reservation.status)
    && var a := Lookup(t, AccK(tenant, t[k].reservation.sourceAccountId));
       a.Some? && a.value.AccItem? && a.value.account.ownerType == ownerType && a.value.account.ownerId == ownerId
  }

  /** Where a reservation is filed is decided by status and source account. */
  lemma {:induction false} FiledWhere(t: Table, k: Key, partition: string)
    requires Sound(t) && HoldsOk(t) && k.ResK? && k in t
    ensures t[k].ResItem? && t[k].reservation.tenantId == k.tenant
    ensures Filed(t, k, partition) <==>
              var (ot, oi) := ParseAccountOwner(t[k].reservation.sourceAccountId);
              Items.Active(t[k].reservation.status) && ot != "" && oi != ""
                && OwnerPartition(k.tenant, ot, oi) == partition
  {
    hide ParseAccountOwner, OwnerPartition, Conserved;
    assert Typed(k, t[k]) && HoldOk(t, k);
  }

  /** A stored reservation's source account exists. */
  predicate Sourced(t: Table, k: Key) {
    k.ResK? && k in t && t[k].ResItem? ==> AccK(k.tenant, t[k].reservation.sourceAccountId) in t
  }

  /** Its owner, if the account exists, can be read off the account's id. */
  predicate SourcePlain(t: Table, k: Key) {
    k.ResK? && k in t && t[k].ResItem? ==>
      var a := Lookup(t, AccK(k.tenant, t[k].reservation.sourceAccountId));
      a.Some? && a.value.AccItem? ==>
        ColonFree(a.value.account.ownerType) && ColonFree(a.value.account.ownerId)
          && HashFree(a.value.account.ownerType)
  }

  /** For hash-free tenants and colon- and hash-free owners, the owner's partition holds exactly the open
      reservations that the SQL join returns for that owner. */
  lemma {:induction false} OwnerIndexIsJoin(t: Table, k: Key, tenant: string, ownerType: string, ownerId: string)
    requires Sound(t) && HoldsOk(t) && AccountsNamed(t)
    requires k.ResK? && k in t && HashFree(k.tenant) && HashFree(tenant)
    requires ownerType != "" && ownerId != "" && HashFree(ownerType)
    requires Sourced(t, k) && SourcePlain(t, k)
    ensures Filed(t, k, OwnerPartition(tenant, ownerType, ownerId)) <==> Joined(t, k, tenant, ownerType, ownerId)
  {
    hide ParseAccountOwner, OwnerPartition, Conserved, AccountId, HoldOk, Typed, Filed;
    FiledWhere(t, k, OwnerPartition(tenant, ownerType, ownerId));
    var source := AccK(k.tenant, t[k].reservation.sourceAccountId);
    assert AccountNamed(t, source);
    NamedSource(t, source);
    var a := t[source].account;
    OwnerRoundTripIff(a.ownerType, a.ownerId, a.accountType, a.currency);
    if OwnerPartition(k.tenant, a.ownerType, a.ownerId) == OwnerPartition(tenant, ownerType, ownerId) {
      OwnerPartitionInjective(k.tenant, a.ownerType, a.ownerId, tenant, ownerType, ownerId);
    }
  }

  lemma {:induction false} NamedSource(t: Table, k: Key)
    requires Sound(t) && k.AccK? && k in t
    ensures t[k].AccItem? && t[k].account.id == k.account
  {
    assert Typed(k, t[k]);
  }

  /** The expiry index holds exactly the open reservations that have an expiry, under that expiry. */
  lemma {:induction false} ExpiryIndexIs(t: Table, k: Key, e: ExpiryEntry)
    requires Sound(t) && HoldsOk(t) && k.ResK? && k in t
    ensures t[k].ResItem?
    ensures t[k].byExpiry == Some(e) <==>
              Items.Active(t[k].reservation.status) && t[k].reservation.expiresAt == Some(e.expiresAt)
              && e.tenant == k.tenant && e.reservation == k.reservation
  {
    hide ParseAccountOwner, OwnerPartition, Conserved;
    assert Typed(k, t[k]) && HoldOk(t, k);
  }

  // ------------------------------------------------------------------------------------------
  // Reservations without a source account
  // ------------------------------------------------------------------------------------------

  ghost predicate AllSourced(t: Table) {
    forall k :: Sourced(t, k)
  }

  /** A creation checks its accounts only while it posts its flow: it stores a reservation whose source
      exists exactly when the inner key was new or the source existed anyway. */
  lemma {:induction false} CreatedSourcedIff(r: Request, env: Env, t: Table, u: Table)
    requires Takes(r, env, t, u) && r.CreateReservation?
    ensures WayOf(r, t).Flows? && !FlowSpec(env, WayOf(r, t).raw, t).FlowFail?
    ensures Sourced(u, ResK(r.tenant, Created(r, env, t).id))
            <==> KnownFlow(t, r.tenant, r.key + ":create") == None || AccK(r.tenant, r.source) in t
  {
    hide Takes, FlowSpec, RefsOf, Problem, ParseSteps, ParseAccountOwner, KnownFlow, PostedBy;
    StepReservation(r, env, t, u, ResK("", ""));
    StepReservation(r, env, t, u, ResK(r.tenant, Created(r, env, t).id));
    StepAccount(r, env, t, u, r.tenant, r.source);
    PostsIffNew(r, env, t);
    if PostedBy(r, env, t).Some? {
      PostedOk(r, env, t);
      CreationSource(r, t);
    }
  }

  lemma {:induction false} CreationSource(r: Request, t: Table)
    requires r.CreateReservation?
    ensures BalRef(r.source, r.currency) in RefsOf(Parsed(CreateFlow(r))) && Parsed(CreateFlow(r)).tenant == r.tenant
    ensures Problem(t, r.tenant, BalRef(r.source, r.currency)) == None ==> AccK(r.tenant, r.source) in t
  {
    hide RefsOf, ParseSteps;
    var debit, credit := BalRef(r.reserved, r.currency), BalRef(r.source, r.currency);
    TransferParsed(CreateFlow(r), debit, credit, r.amount);
    TransferSums(Parsed(CreateFlow(r)), debit, credit, r.amount, credit);
  }

  lemma {:induction false} StepSourced(r: Request, env: Env, t: Table, u: Table, k: Key)
    requires Takes(r, env, t, u) && Sourced(t, k)
    requires r.CreateReservation? ==> KnownFlow(t, r.tenant, r.key + ":create") == None || AccK(r.tenant, r.source) in t
    ensures Sourced(u, k)
  {
    hide Takes, FlowSpec, WayOf, Created, ParseAccountOwner, KnownFlow, Closed, Conserved;
    if k.ResK? && k in u {
      StepReservation(r, env, t, u, k);
      if r.CreateReservation? && k == ResK(r.tenant, Created(r, env, t).id) {
        CreatedSourcedIff(r, env, t, u);
      } else {
        if Updates(r) && k == ResK(TenantOf(r), ReservationIdOf(r)) {
          RowIs(r, t);
        }
        if k in t && t[k].ResItem? {
          StepAccount(r, env, t, u, k.tenant, t[k].reservation.sourceAccountId);
        }
      }
    }
  }

  /** No successful creation of the run reuses a flow key while its source is missing. */
  ghost predicate CreatesSourced(t0: Table, actions: seq<Action>) {
    forall i {:trigger actions[i]} | 0 <= i < |actions| && Run(t0, actions[..i]).Some?
      && Succeeds(Run(t0, actions[..i]).value, actions[i]) ::
      var s := Run(t0, actions[..i]).value;
      var r := s.live[actions[i].id].req;
      r.CreateReservation? ==>
        KnownFlow(s.table, r.tenant, r.key + ":create") == None || AccK(r.tenant, r.source) in s.table
  }

  lemma {:induction false} CreatesPrefix(t0: Table, actions: seq<Action>, n: nat)
    requires CreatesSourced(t0, actions) && n <= |actions|
    ensures CreatesSourced(t0, actions[..n])
  {
    hide Run, Succeeds, KnownFlow;
    var shorter := actions[..n];
    forall i {:trigger shorter[i]} | 0 <= i < |shorter| && Run(t0, shorter[..i]).Some?
      && Succeeds(Run(t0, shorter[..i]).value, shorter[i])
      ensures var s := Run(t0, shorter[..i]).value;
              && shorter[i].CommitTx? && shorter[i].id in s.live
              && var r := s.live[shorter[i].id].req;
                 r.CreateReservation? ==>
                   KnownFlow(s.table, r.tenant, r.key + ":create") == None || AccK(r.tenant, r.source) in s.table
    {
      assert shorter[..i] == actions[..i] && shorter[i] == actions[i];
      SuccessIsLive(Run(t0, shorter[..i]).value, shorter[i]);
    }
  }

  /** Then every reservation keeps a source account. */
  lemma {:induction false} SourcesHold(t0: Table, actions: seq<Action>)
    requires Sound(t0) && AllSourced(t0) && Run(t0, actions).Some? && CreatesSourced(t0, actions)
    ensures AllSourced(Run(t0, actions).value.table)
  {
    hide Inv, Enabled, Do, Sound, Sourced, Succeeds, KnownFlow;
    if actions != [] {
      var n := |actions| - 1;
      CreatesPrefix(t0, actions, n);
      SourcesHold(t0, actions[..n]);
      RunKeepsInv(t0, actions[..n]);
      var s, a := Run(t0, actions[..n]).value, actions[n];
      DoTakes(t0, s, a);
      if Do(s, a).table != s.table {
        ChangeIsSuccess(t0, s, a);
        CommitIsLive(s, a);
        forall k ensures Sourced(Do(s, a).table, k) {
          StepSourced(s.live[a.id].req, s.live[a.id].env, s.table, Do(s, a).table, k);
        }
      }
    }
  }

  /** Where the source account is missing, the index and the join differ: the open reservation is filed
      under the owner its source id spells, and the join finds it for nobody. */
  lemma {:induction false} OrphanDiffers(t: Table, k: Key)
    requires Sound(t) && HoldsOk(t) && k.ResK? && k in t && !Sourced(t, k)
    requires Items.Active(t[k].reservation.status)
    ensures var (ownerType, ownerId) := ParseAccountOwner(t[k].reservation.sourceAccountId);
            ownerType != "" && ownerId != "" ==> Filed(t, k, OwnerPartition(k.tenant, ownerType, ownerId))
    ensures forall tenant, ownerType, ownerId :: !Joined(t, k, tenant, ownerType, ownerId)
  {
    hide ParseAccountOwner, OwnerPartition, HoldsOk, Filed;
    var (ownerType, ownerId) := ParseAccountOwner(t[k].reservation.sourceAccountId);
    FiledWhere(t, k, OwnerPartition(k.tenant, ownerType, ownerId));
  }

  /** It happens: a creation whose inner key is that of a flow already stored books its reservation
      without looking at its accounts. */
  lemma {:induction false} OrphanBooked(r: Request, env: Env, t: Table) returns (u: Table)
    requires Sound(t) && r.CreateReservation? && r.amount > 0 && AccK(r.tenant, r.source) !in t
    requires var known := KnownFlow(t, r.tenant, r.key + ":create");
             known.Some? && known.value.FlowItem? && known.value.run.status == Completed
    requires RIdempK(r.tenant, r.key) !in t && ResK(r.tenant, env.Id(0)) !in t && ObxK(env.Id(1)) !in t
    ensures Takes(r, env, t, u) && ResK(r.tenant, env.Id(0)) in u && !Sourced(u, ResK(r.tenant, env.Id(0)))
  {
    hide FlowSpec, KnownFlow, ReservationToItem, AmountsOk, Alone, Written, AllHold, CreateFlow, Transfers, After,
      AddAll, Sourced, ParseSteps;
    var raw := CreateFlow(r);
    CreationReplays(r, env, t);
    var fres := FlowSpec(env, raw, t);
    CreateAnswer(r, env, fres);
    var ws := CreateWrites(r, env, 0, fres.run.id);
    assert [] + ws == ws;
    ThreeNewWrites(t, ws);
    AloneIs(r, env, t);
    u := Written(t, AddAll(Empty, ws));
    OrphanIs(r, env, t, u);
  }

  lemma {:induction false} CreationReplays(r: Request, env: Env, t: Table)
    requires r.CreateReservation? && r.amount > 0
    requires var known := KnownFlow(t, r.tenant, r.key + ":create");
             known.Some? && known.value.FlowItem? && known.value.run.status == Completed
    ensures FlowSpec(env, CreateFlow(r), t).FlowReplay?
  {
    hide AmountsOk, KnownFlow, FlowSpec, ParseSteps;
    TransferParsed(CreateFlow(r), BalRef(r.reserved, r.currency), BalRef(r.source, r.currency), r.amount);
    KnownReplays(env, CreateFlow(r), t);
  }

  lemma {:induction false} OrphanIs(r: Request, env: Env, t: Table, u: Table)
    requires Takes(r, env, t, u) && r.CreateReservation? && AccK(r.tenant, r.source) !in t
    requires KnownFlow(t, r.tenant, r.key + ":create").Some?
    ensures ResK(r.tenant, env.Id(0)) in u && !Sourced(u, ResK(r.tenant, env.Id(0)))
  {
    hide Takes, FlowSpec, KnownFlow, ReservationToItem, Sourced;
    CreatedSourcedIff(r, env, t, u);
    PostsIffNew(r, env, t);
    assert UsedOf(FlowSpec(env, WayOf(r, t).raw, t)) == 0;
    StepReservation(r, env, t, u, ResK(r.tenant, Created(r, env, t).id));
  }

  lemma {:induction false} ThreeNewWrites(t: Table, ws: seq<Write>)
    requires |ws| == 3 && ws[0].key != ws[1].key && ws[0].key != ws[2].key && ws[1].key != ws[2].key
    requires forall w | w in ws :: w.cond == NotExists && w.key !in t
    ensures |AddAll(Empty, ws).puts| == 3 && AllHold(t, AddAll(Empty, ws))
  {
    var one := Add(Empty, ws[0]);
    var two := Add(one, ws[1]);
    var three := Add(two, ws[2]);
    assert ws[..2][..1] == [ws[0]] && [ws[0]][..0] == [] && ws[..2] == [ws[0], ws[1]];
    assert AddAll(Empty, [ws[0]]) == one;
    assert AddAll(Empty, ws[..2]) == two;
    assert ws[..|ws| - 1] == ws[..2];
    assert AddAll(Empty, ws) == three;
    assert three.puts.Keys == {ws[0].key, ws[1].key, ws[2].key};
    assert |three.puts| == |three.puts.Keys|;
  }

  /** Over whole runs whose creations find their sources, from a table that satisfies them: every sequence
      of creations and updates keeps both indexes exact. */
  lemma {:induction false} IndexesHold(t0: Table, actions: seq<Action>, k: Key, tenant: string, ownerType: string,
      ownerId: string, e: ExpiryEntry)
    requires Sound(t0) && HoldsOk(t0) && AccountsNamed(t0) && AllSourced(t0)
    requires Run(t0, actions).Some? && CreatesSourced(t0, actions)
    requires k.ResK? && k in Run(t0, actions).value.table && HashFree(k.tenant) && HashFree(tenant)
    requires ownerType != "" && ownerId != "" && HashFree(ownerType) && SourcePlain(Run(t0, actions).value.table, k)
    ensures var t := Run(t0, actions).value.table;
            && t[k].ResItem?
            && (Filed(t, k, OwnerPartition(tenant, ownerType, ownerId)) <==> Joined(t, k, tenant, ownerType, ownerId))
            && (t[k].byExpiry == Some(e) <==>
                  Items.Active(t[k].reservation.status) && t[k].reservation.expiresAt == Some(e.expiresAt)
                  && e.tenant == k.tenant && e.reservation == k.reservation)
  {
    hide Inv, HoldsOk, AccountsNamed, Sound, Filed, Joined, Run, HashFree, Sourced, SourcePlain, CreatesSourced;
    RunKeepsInv(t0, actions);
    InvIsSound(t0, Run(t0, actions).value);
    HoldsConserved(t0, actions);
    NamesHold(t0, actions);
    SourcesHold(t0, actions);
    OwnerIndexIsJoin(Run(t0, actions).value.table, k, tenant, ownerType, ownerId);
    ExpiryIndexIs(Run(t0, actions).value.table, k, e);
  }

  // ------------------------------------------------------------------------------------------
  // Listing
  // ------------------------------------------------------------------------------------------

  /** The reservations of a page that have the wanted status, in page order. */
  function Wanted(page: seq<Reservation>, status: Option<ReservationStatus>): seq<Reservation> {
    if page == [] then []
    else
      var r := page[|page| - 1];
      Wanted(page[..|page| - 1], status) + if status == None || r.status == status.value then [r] else []
  }

  function Take<T>(s: seq<T>, n: nat): seq<T> {
    if |s| <= n then s else s[..n]
  }

  function PageLimit(limit: int): nat {
    if limit <= 0 || limit > 500 then 100 else limit
  }

  lemma {:induction false} WantedGrows(page: seq<Reservation>, status: Option<ReservationStatus>, i: nat)
    requires i <= |page|
    ensures Wanted(page[..i], status) <= Wanted(page, status)
  {
    if i < |page| {
      assert page[..|page| - 1][..i] == page[..i];
      WantedGrows(page[..|page| - 1], status, i);
    } else {
      assert page[..i] == page;
    }
  }

  lemma {:induction false} WantedIs(page: seq<Reservation>, status: Option<ReservationStatus>)
    ensures forall r :: r in Wanted(page, status) <==> r in page && (status == None || r.status == status.value)
  {
    if page != [] {
      var n := |page| - 1;
      WantedIs(page[..n], status);
      assert page == page[..n] + [page[n]];
    }
  }

  /** At most three times the limit is fetched, filtered by status, and cut at the limit. */
  function Listed(partition: seq<Reservation>, status: Option<ReservationStatus>, limit: int): seq<Reservation> {
    Take(Wanted(Take(partition, 3 * PageLimit(limit)), status), PageLimit(limit))
  }

  /** ListReservations over the partition of the owner index, as the index query returns it. */
  method ListReservations(partition: seq<Reservation>, ownerType: string, ownerId: string,
      status: Option<ReservationStatus>, limit: int)
    returns (out: seq<Reservation>)
    ensures ownerType == "" || ownerId == "" ==> out == []
    ensures ownerType != "" && ownerId != "" ==>
              out == Listed(partition, status, limit)
    ensures |out| <= if 0 < limit <= 500 then limit else 100
  {
    hide Wanted;
    var max := limit;
    if max <= 0 || max > 500 {
      max := 100;
    }
    if ownerType == "" || ownerId == "" {
      return [];
    }
    var page := Take(partition, 3 * max);
    out := [];
    assert page[..0] == [];
    WantedNone(status);
    for i := 0 to |page|
      invariant out == Wanted(page[..i], status) && |out| < max
    {
      WantedNext(page, status, i);
      if status != None && page[i].status != status.value {
        continue;
      }
      out := out + [page[i]];
      if |out| >= max {
        WantedGrows(page, status, i + 1);
        return;
      }
    }
    assert page[..|page|] == page;
  }

  lemma {:induction false} WantedNone(status: Option<ReservationStatus>)
    ensures Wanted([], status) == []
  {
  }

  lemma {:induction false} WantedNext(page: seq<Reservation>, status: Option<ReservationStatus>, i: nat)
    requires i < |page|
    ensures Wanted(page[..i + 1], status)
         == Wanted(page[..i], status) + if status == None || page[i].status == status.value then [page[i]] else []
  {
    assert page[..i + 1][..i] == page[..i];
  }

  /** A partition no longer than the limit is listed completely. */
  lemma {:induction false} ListedCompletely(partition: seq<Reservation>, status: Option<ReservationStatus>,
      limit: int, r: Reservation)
    requires |partition| <= PageLimit(limit)
    ensures r in Listed(partition, status, limit)
            <==> r in partition && (status == None || r.status == status.value)
  {
    WantedIs(partition, status);
    WantedShort(partition, status);
  }

  lemma {:induction false} WantedShort(page: seq<Reservation>, status: Option<ReservationStatus>)
    ensures |Wanted(page, status)| <= |page|
  {
    if page != [] {
      WantedShort(page[..|page| - 1], status);
    }
  }

  /** The order of the index: creation time, then id. */
  predicate Earlier(x: Reservation, y: Reservation) {
    x.createdAt < y.createdAt || (x.createdAt == y.createdAt && StrLess(x.id, y.id))
  }

  ghost predicate Ordered(rs: seq<Reservation>) {
    forall i, j | 0 <= i < j < |rs| :: Earlier(rs[i], rs[j])
  }

  ghost predicate FiledAs(t: Table, partition: string, r: Reservation) {
    exists k :: Filed(t, k, partition) && t[k].reservation == r
  }

  /** What the index holds under one partition: its reservations, in index order. */
  ghost predicate IndexPage(t: Table, partition: string, rs: seq<Reservation>) {
    && Ordered(rs)
    && (forall r :: r in rs <==> FiledAs(t, partition, r))
  }

  lemma {:induction false} WantedOrdered(page: seq<Reservation>, status: Option<ReservationStatus>)
    requires Ordered(page)
    ensures Ordered(Wanted(page, status))
  {
    if page != [] {
      var n := |page| - 1;
      WantedOrdered(page[..n], status);
      WantedIs(page[..n], status);
    }
  }

  lemma {:induction false} TakeHas<T>(s: seq<T>, n: nat, i: nat)
    requires i < |s|
    ensures i < n ==> s[i] in Take(s, n)
  {
    assert i < n ==> Take(s, n)[i] == s[i];
  }

  lemma {:induction false} TakeIn<T>(s: seq<T>, n: nat)
    ensures forall x | x in Take(s, n) :: x in s
  {
  }

  /** A prefix of an ordered sequence leaves out only later elements. */
  lemma {:induction false} TakeOrdered(rs: seq<Reservation>, n: nat)
    requires Ordered(rs)
    ensures Ordered(Take(rs, n))
    ensures forall r, o | r in rs && r !in Take(rs, n) && o in Take(rs, n) :: |Take(rs, n)| == n && Earlier(o, r)
  {
    hide Earlier;
    forall r, o | r in rs && r !in Take(rs, n) && o in Take(rs, n) ensures |Take(rs, n)| == n && Earlier(o, r) {
      var i: nat :| i < |rs| && rs[i] == r;
      TakeHas(rs, n, i);
      var j :| 0 <= j < |Take(rs, n)| && Take(rs, n)[j] == o;
    }
  }

  predicate Asked(r: Reservation, status: Option<ReservationStatus>) {
    status == None || r.status == status.value
  }

  ghost predicate JoinedAs(t: Table, tenant: string, ownerType: string, ownerId: string, r: Reservation) {
    exists k :: Joined(t, k, tenant, ownerType, ownerId) && t[k].reservation == r
  }

  /** Every tenant and owner in the table is spelled without separators, and every source exists. */
  ghost predicate Plain(t: Table) {
    forall k :: Sourced(t, k) && SourcePlain(t, k) && (k.ResK? && k in t ==> HashFree(k.tenant))
  }

  lemma {:induction false} FiledIsJoined(t: Table, tenant: string, ownerType: string, ownerId: string, r: Reservation)
    requires Sound(t) && HoldsOk(t) && AccountsNamed(t) && Plain(t)
    requires HashFree(tenant) && ownerType != "" && ownerId != "" && HashFree(ownerType)
    ensures FiledAs(t, OwnerPartition(tenant, ownerType, ownerId), r) <==> JoinedAs(t, tenant, ownerType, ownerId, r)
  {
    hide HoldsOk, AccountsNamed, Sound, Filed, HashFree, Sourced, SourcePlain, OwnerPartition;
    forall k ensures k in t && t[k].ResItem? && t[k].reservation == r ==>
        (Filed(t, k, OwnerPartition(tenant, ownerType, ownerId)) <==> Joined(t, k, tenant, ownerType, ownerId))
    {
      if k in t && t[k].ResItem? && t[k].reservation == r {
        OnlyReservationKeys(t, k);
        OwnerIndexIsJoin(t, k, tenant, ownerType, ownerId);
      }
    }
    FiledKeys(t, OwnerPartition(tenant, ownerType, ownerId));
  }

  lemma {:induction false} OnlyReservationKeys(t: Table, k: Key)
    requires Sound(t) && k in t && t[k].ResItem?
    ensures k.ResK?
  {
    assert Typed(k, t[k]);
  }

  lemma {:induction false} FiledKeys(t: Table, partition: string)
    ensures forall k :: Filed(t, k, partition) ==> k in t && t[k].ResItem?
  {
  }

  /** The listing against the join: it lists only the owner's open reservations of the wanted status, in
      the order of their creation, and leaves one out only when the page is full of earlier ones or three
      pages of earlier ones precede it. The SQL backends list the latest ones instead, closed ones too. */
  lemma {:induction false} ListedIsJoin(t: Table, tenant: string, ownerType: string, ownerId: string,
      status: Option<ReservationStatus>, limit: int, rs: seq<Reservation>)
    requires Sound(t) && HoldsOk(t) && AccountsNamed(t) && Plain(t)
    requires HashFree(tenant) && ownerType != "" && ownerId != "" && HashFree(ownerType)
    requires IndexPage(t, OwnerPartition(tenant, ownerType, ownerId), rs)
    ensures var out := Listed(rs, status, limit);
            && Ordered(out)
            && (forall r | r in out :: JoinedAs(t, tenant, ownerType, ownerId, r) && Asked(r, status))
            && (forall r | JoinedAs(t, tenant, ownerType, ownerId, r) && Asked(r, status) && r !in out ::
                  || (|out| == PageLimit(limit) && forall o | o in out :: Earlier(o, r))
                  || (|rs| > 3 * PageLimit(limit) && Earlier(rs[3 * PageLimit(limit) - 1], r)))
  {
    hide HoldsOk, AccountsNamed, Sound, Plain, FiledAs, JoinedAs, Earlier, HashFree, OwnerPartition, Ordered, Wanted;
    forall r ensures FiledAs(t, OwnerPartition(tenant, ownerType, ownerId), r)
        <==> JoinedAs(t, tenant, ownerType, ownerId, r) {
      FiledIsJoined(t, tenant, ownerType, ownerId, r);
    }
    var page := Take(rs, 3 * PageLimit(limit));
    TakeOrdered(rs, 3 * PageLimit(limit));
    TakeIn(rs, 3 * PageLimit(limit));
    TakeIn(Wanted(page, status), PageLimit(limit));
    WantedOrdered(page, status);
    WantedIs(page, status);
    TakeOrdered(Wanted(page, status), PageLimit(limit));
    var out := Listed(rs, status, limit);
    forall r | JoinedAs(t, tenant, ownerType, ownerId, r) && Asked(r, status) && r !in out
      ensures || (|out| == PageLimit(limit) && forall o | o in out :: Earlier(o, r))
              || (|rs| > 3 * PageLimit(limit) && Earlier(rs[3 * PageLimit(limit) - 1], r))
    {
      if r !in page {
        var last := rs[3 * PageLimit(limit) - 1];
        assert page[3 * PageLimit(limit) - 1] == last;
      } else {
        assert r in Wanted(page, status) && out != [];
        assert out[0] in out;
      }
    }
  }

  /** Asking for a closed status lists nothing: closed reservations leave the index. */
  lemma {:induction false} ClosedUnlisted(t: Table, partition: string, status: ReservationStatus, limit: int,
      rs: seq<Reservation>)
    requires Sound(t) && HoldsOk(t) && IndexPage(t, partition, rs) && Closed(status)
    ensures Listed(rs, Some(status), limit) == []
  {
    hide HoldsOk, Sound, Ordered, Wanted, Filed, ParseAccountOwner, OwnerPartition;
    var page := Take(rs, 3 * PageLimit(limit));
    WantedIs(page, Some(status));
    FiledKeys(t, partition);
    if Wanted(page, Some(status)) != [] {
      var r := Wanted(page, Some(status))[0];
      assert r in page && r in rs;
      var k :| Filed(t, k, partition) && t[k].reservation == r;
      OnlyReservationKeys(t, k);
      FiledWhere(t, k, partition);
    }
  }
}
