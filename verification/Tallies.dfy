/** What a reservation has committed and released is what the successful calls on it say, over whole runs. */
module Tallies {
  import opened Ledger
  import opened Keys
  import opened Items
  import opened Handlers
  import opened Writes
  import opened Protocol
  import opened Serializability
  import opened Atomic
  import opened Effects
  import opened Reachable
  import opened Holds
  import opened Rows

  /** The amounts of the commits of a reservation among the successful calls. */
  function CommitsOf(history: seq<Applied>, k: Key): int
    requires k.ResK?
  {
    if history == [] then 0
    else
      var r := history[|history| - 1].req;
      CommitsOf(history[..|history| - 1], k)
      + if r.CommitReservation? && r.tenant == k.tenant && r.reservation == k.reservation then r.amount else 0
  }

  /** The amounts of its releases. */
  function ReleasesOf(history: seq<Applied>, k: Key): int
    requires k.ResK?
  {
    if history == [] then 0
    else
      var r := history[|history| - 1].req;
      ReleasesOf(history[..|history| - 1], k)
      + if r.ReleaseReservation? && r.tenant == k.tenant && r.reservation == k.reservation then r.amount else 0
  }

  /** Whether it has been expired. */
  predicate Expiry(history: seq<Applied>, k: Key)
    requires k.ResK?
  {
    exists i :: 0 <= i < |history| && history[i].req == ExpireReservation(k.tenant, k.reservation)
  }

  lemma {:induction false} TallySnoc(history: seq<Applied>, c: Applied, k: Key)
    requires k.ResK?
    ensures var r := c.req; var h := history + [c];
            && CommitsOf(h, k) == CommitsOf(history, k)
                 + (if r.CommitReservation? && r.tenant == k.tenant && r.reservation == k.reservation then r.amount
                   else 0)
            && ReleasesOf(h, k) == ReleasesOf(history, k)
                 + (if r.ReleaseReservation? && r.tenant == k.tenant && r.reservation == k.reservation then r.amount
                   else 0)
            && (Expiry(h, k) <==> Expiry(history, k) || r == ExpireReservation(k.tenant, k.reservation))
  {
    ExpirySnoc(history, c, k);
    hide Expiry;
    var h := history + [c];
    assert h[..|history|] == history && h[|history|] == c;
  }

  lemma {:induction false} ExpirySnoc(history: seq<Applied>, c: Applied, k: Key)
    requires k.ResK?
    ensures Expiry(history + [c], k) <==> Expiry(history, k) || c.req == ExpireReservation(k.tenant, k.reservation)
  {
    var h := history + [c];
    assert h[|history|] == c;
    assert forall i :: 0 <= i < |history| ==> h[i] == history[i];
  }

  /** A reservation that is not there has no successful calls; one that is there has committed what its commits
      say, and released what its releases say and, once expired, all that was left. */
  ghost predicate Tallied(t: Table, history: seq<Applied>, k: Key)
    requires k.ResK?
  {
    if k !in t || !t[k].ResItem? then CommitsOf(history, k) == 0 && ReleasesOf(history, k) == 0 && !Expiry(history, k)
    else
      var res := t[k].reservation;
      && res.committed == CommitsOf(history, k)
      && (Expiry(history, k) <==> res.status == Expired)
      && res.released == ReleasesOf(history, k)
           + if Expiry(history, k) then res.original - CommitsOf(history, k) - ReleasesOf(history, k) else 0
  }

  /** What one handler does to the row `k`, unless it is an update of it. */
  lemma {:induction false} OtherStep(r: Request, env: Env, t: Table, u: Table, k: Key)
    requires Takes(r, env, t, u) && k.ResK? && !(Updates(r) && k == ResK(TenantOf(r), ReservationIdOf(r)))
    ensures k in t ==> Lookup(u, k) == Lookup(t, k)
    ensures k !in t && k in u ==>
              && u[k].ResItem?
              && var res := u[k].reservation; res.committed == 0 && res.released == 0 && res.status == Held
  {
    hide Takes, FlowSpec, WayOf, ParseAccountOwner;
    StepReservation(r, env, t, u, k);
  }

  lemma {:induction false} StepTallied(r: Request, env: Env, t: Table, u: Table, history: seq<Applied>, c: Applied,
      k: Key)
    requires Takes(r, env, t, u) && c.req == r && k.ResK? && HoldOk(t, k) && Tallied(t, history, k)
    ensures Tallied(u, history + [c], k)
  {
    hide Takes, CommitsOf, ReleasesOf, Expiry, ReservationToItem, Alone, Announced, Closed;
    TallySnoc(history, c, k);
    if Updates(r) && k == ResK(TenantOf(r), ReservationIdOf(r)) {
      NotExpired(r, env, t, u, history, k);
      if r.CommitReservation? {
        var was, now := CommitStored(r, env, t, u);
      } else if r.ReleaseReservation? {
        var was, now := ReleaseStored(r, env, t, u);
      } else {
        var was, now := ExpiryStored(r, env, t, u);
      }
    } else {
      OtherStep(r, env, t, u, k);
    }
  }

  /** Closed reservations are never updated. */
  lemma {:induction false} NotExpired(r: Request, env: Env, t: Table, u: Table, history: seq<Applied>, k: Key)
    requires Takes(r, env, t, u) && Updates(r) && k == ResK(TenantOf(r), ReservationIdOf(r)) && Tallied(t, history, k)
    ensures !Expiry(history, k)
  {
    hide Takes, CommitsOf, ReleasesOf, Expiry, Alone, Updated, UpdatedEvent;
    var was, now := UpdateReplaces(r, env, t, u);
  }

  ghost predicate AllTallied(s: State) {
    forall k: Key | k.ResK? :: Tallied(s.table, s.history, k)
  }

  lemma {:induction false} DoTallied(t0: Table, s: State, a: Action)
    requires Inv(t0, s) && Enabled(s, a) && HoldsOk(s.table) && AllTallied(s)
    ensures AllTallied(Do(s, a))
  {
    hide Inv, Takes, HoldOk, Tallied, CommitOn, AddAll, Start, Feed, Want;
    DoTakes(t0, s, a);
    if Succeeds(s, a) {
      var x := s.live[a.id];
      forall k: Key | k.ResK? ensures Tallied(Do(s, a).table, Do(s, a).history, k) {
        StepTallied(x.req, x.env, s.table, Do(s, a).table, s.history, Applied(x.req, x.env, x.local.out.resp), k);
      }
    } else {
      if Do(s, a).table != s.table {
        ChangeIsSuccess(t0, s, a);
      }
    }
  }

  /** In every run from a table without reservations, however the handlers interleave, every reservation has
      committed exactly the amounts of the successful commits on it and released exactly the amounts of the
      successful releases and what an expiry found left. */
  lemma {:induction false} TalliesHold(t0: Table, actions: seq<Action>)
    requires Sound(t0) && (forall k | k in t0 :: !k.ResK?) && Run(t0, actions).Some?
    ensures AllTallied(Run(t0, actions).value)
  {
    hide Inv, Enabled, Do, Sound, Tallied, HoldOk;
    if actions == [] {
      NothingTallied(t0);
    } else {
      var n := |actions| - 1;
      TalliesHold(t0, actions[..n]);
      RunKeepsInv(t0, actions[..n]);
      NoHolds(t0);
      HoldsConserved(t0, actions[..n]);
      DoTallied(t0, Run(t0, actions[..n]).value, actions[n]);
    }
  }

  lemma {:induction false} NothingTallied(t0: Table)
    requires forall k | k in t0 :: !k.ResK?
    ensures AllTallied(Initial(t0))
  {
  }

  lemma {:induction false} NoHolds(t0: Table)
    requires forall k | k in t0 :: !k.ResK?
    ensures HoldsOk(t0)
  {
  }
}
