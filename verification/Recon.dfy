/** Reconciliation of external records with journals (internal/recon/matcher.go). */
module Recon {
  import opened Ledger
  import opened Ordering
  import opened Handlers
  import opened Rearrange

  /** An unmatched external record; an empty account means that only the reference is compared. */
  datatype External = External(id: string, ref: string, account: string, currency: string, amount: int)

  datatype MatchStatus = Matched | Mismatched

  datatype Claim = Claim(status: MatchStatus, journalId: string)

  datatype Discrepancy =
    | MissingInLedger(externalId: string)
    | AmountMismatch(externalId: string, journalId: string)
    | MissingInExternal(journalId: string)

  datatype MatchResult = MatchResult(
    ingested: nat, matched: nat, mismatched: nat, missingInLedger: nat, missingInExternal: nat,
      discrepancies: seq<Discrepancy>)

  // ------------------------------------------------------------------------------------------
  // The declarative reading
  // ------------------------------------------------------------------------------------------

  /** The journal an event id stands for: the last listed one. */
  function JournalFor(js: seq<Journal>, event: string): Option<Journal> {
    if js == [] then None
    else if js[|js| - 1].eventId == event then Some(js[|js| - 1])
    else JournalFor(js[..|js| - 1], event)
  }

  /** What the journal posted to the anchor account: debits less credits. */
  function Anchor(j: Journal, e: External): int {
    Sum(j.entries, BalRef(e.account, e.currency), true) - Sum(j.entries, BalRef(e.account, e.currency), false)
  }

  /** The verdict on a record that comes first with its reference. */
  function Judge(js: seq<Journal>, e: External): Option<Claim> {
    var j := JournalFor(js, e.ref);
    if j == None then None
    else if e.account != "" && Anchor(j.value, e) != e.amount then Some(Claim(Mismatched, j.value.id))
    else Some(Claim(Matched, j.value.id))
  }

  /** No earlier record has the same reference. */
  ghost predicate First(ext: seq<External>, i: nat)
    requires i < |ext|
  {
    forall h | 0 <= h < i :: ext[h].ref != ext[i].ref
  }

  /** A record claims the journal of its reference unless an earlier record did; None is missing in the
      ledger. */
  ghost function Verdict(js: seq<Journal>, ext: seq<External>, i: nat): Option<Claim>
    requires i < |ext|
  {
    if First(ext, i) then Judge(js, ext[i]) else None
  }

  ghost predicate Has(v: Option<Claim>, status: Option<MatchStatus>) {
    match status
    case None => v == None
    case Some(s) => v.Some? && v.value.status == s
  }

  /** How many of the first `n` records got this verdict. */
  ghost function Count(js: seq<Journal>, ext: seq<External>, n: nat, status: Option<MatchStatus>): nat
    requires n <= |ext|
  {
    if n == 0 then 0 else Count(js, ext, n - 1, status) + if Has(Verdict(js, ext, n - 1), status) then 1 else 0
  }

  ghost function Found(js: seq<Journal>, ext: seq<External>, n: nat): seq<Discrepancy>
    requires n <= |ext|
  {
    if n == 0 then []
    else
      var e, v := ext[n - 1], Verdict(js, ext, n - 1);
      Found(js, ext, n - 1)
      + if v == None then [MissingInLedger(e.id)]
        else if v.value.status == Mismatched then [AmountMismatch(e.id, v.value.journalId)]
        else []
  }

  /** The match columns of the external records afterwards. */
  ghost function Claims(claims: map<string, Claim>, js: seq<Journal>, ext: seq<External>, n: nat): map<string, Claim>
    requires n <= |ext|
  {
    if n == 0 then claims
    else
      var v := Verdict(js, ext, n - 1);
      var before := Claims(claims, js, ext, n - 1);
      if v.Some? then before[ext[n - 1].id := v.value] else before
  }

  function Events(js: seq<Journal>): set<string> {
    set j | j in js :: j.eventId
  }

  function References(ext: seq<External>): set<string> {
    set e | e in ext :: e.ref
  }

  lemma {:induction false} JournalForIs(js: seq<Journal>, event: string)
    ensures JournalFor(js, event).Some? <==> event in Events(js)
    ensures JournalFor(js, event).Some? ==>
              JournalFor(js, event).value in js && JournalFor(js, event).value.eventId == event
  {
    if js != [] {
      var n := |js| - 1;
      JournalForIs(js[..n], event);
      assert js == js[..n] + [js[n]];
      assert js[n] in js;
      if event in Events(js[..n]) {
        var j :| j in js[..n] && j.eventId == event;
        assert j in js;
      }
    }
  }

  // ------------------------------------------------------------------------------------------
  // What the verdicts add up to
  // ------------------------------------------------------------------------------------------

  /** Every record is matched, mismatched or missing. */
  lemma {:induction false} EveryRecordCounted(js: seq<Journal>, ext: seq<External>, n: nat)
    requires n <= |ext|
    ensures Count(js, ext, n, Some(Matched)) + Count(js, ext, n, Some(Mismatched)) + Count(js, ext, n, None) == n
    ensures |Found(js, ext, n)| == Count(js, ext, n, Some(Mismatched)) + Count(js, ext, n, None)
  {
    hide Verdict;
    if n > 0 {
      EveryRecordCounted(js, ext, n - 1);
    }
  }

  lemma {:induction false} PrefixReferences(ext: seq<External>, n: nat)
    requires 0 < n <= |ext|
    ensures References(ext[..n]) == References(ext[..n - 1]) + {ext[n - 1].ref}
    ensures First(ext, n - 1) <==> ext[n - 1].ref !in References(ext[..n - 1])
  {
    assert ext[..n] == ext[..n - 1] + [ext[n - 1]];
    assert forall h | 0 <= h < n - 1 :: ext[..n - 1][h] == ext[h];
    if !First(ext, n - 1) {
      var h :| 0 <= h < n - 1 && ext[h].ref == ext[n - 1].ref;
      assert ext[h] in ext[..n - 1];
    }
  }

  /** The claims use up one event each. */
  lemma {:induction false} ClaimsUseEvents(js: seq<Journal>, ext: seq<External>, n: nat)
    requires n <= |ext|
    ensures |Events(js) * References(ext[..n])|
        == Count(js, ext, n, Some(Matched)) + Count(js, ext, n, Some(Mismatched))
  {
    hide Events, Verdict;
    if n > 0 {
      hide References;
      ClaimsUseEvents(js, ext, n - 1);
      PrefixReferences(ext, n);
      ClaimsIff(js, ext, n - 1);
      OneMore(Events(js), References(ext[..n - 1]), ext[n - 1].ref);
    } else {
      assert Events(js) * References(ext[..0]) == {};
    }
  }

  lemma {:induction false} ClaimsIff(js: seq<Journal>, ext: seq<External>, i: nat)
    requires i < |ext|
    ensures Verdict(js, ext, i).Some? <==> ext[i].ref in Events(js) && ext[i].ref !in References(ext[..i])
  {
    hide Events, References, JournalFor, Anchor, First;
    PrefixReferences(ext, i + 1);
    JournalForIs(js, ext[i].ref);
  }

  lemma {:induction false} OneMore(a: set<string>, b: set<string>, x: string)
    ensures |a * (b + {x})| == |a * b| + if x in a && x !in b then 1 else 0
  {
    if x in a && x !in b {
      assert a * (b + {x}) == a * b + {x};
    } else {
      assert a * (b + {x}) == a * b;
    }
  }

  /** Missing in external: the distinct event ids less those claimed. */
  lemma {:induction false} UnclaimedEvents(js: seq<Journal>, ext: seq<External>)
    ensures |Events(js) - References(ext)|
         == |Events(js)| - Count(js, ext, |ext|, Some(Matched)) - Count(js, ext, |ext|, Some(Mismatched))
  {
    hide Events, References, Count;
    ClaimsUseEvents(js, ext, |ext|);
    assert ext[..|ext|] == ext;
    var a, b := Events(js), References(ext);
    assert a == (a - b) + (a * b);
    assert |a| == |a - b| + |a * b|;
  }

  /** No journal is claimed twice. */
  lemma {:induction false} ClaimedOnce(js: seq<Journal>, ext: seq<External>, i: nat, k: nat)
    requires i < |ext| && k < |ext|
    requires forall x, y | x in js && y in js && x.id == y.id :: x == y
    requires Verdict(js, ext, i).Some? && Verdict(js, ext, k).Some?
    requires Verdict(js, ext, i).value.journalId == Verdict(js, ext, k).value.journalId
    ensures i == k
  {
    JournalForIs(js, ext[i].ref);
    JournalForIs(js, ext[k].ref);
    assert ext[i].ref == ext[k].ref;
  }

  lemma {:induction false} DistinctVerdict(js: seq<Journal>, ext: seq<External>, i: nat)
    requires i < |ext| && DistinctReferences(ext)
    ensures Verdict(js, ext, i) == Judge(js, ext[i])
  {
  }

  ghost predicate DistinctReferences(ext: seq<External>) {
    forall h, k | 0 <= h < k < |ext| :: ext[h].ref != ext[k].ref
  }

  /** How many records are judged so, each for itself. */
  ghost function Judged(js: seq<Journal>, ext: seq<External>, status: Option<MatchStatus>): nat {
    if ext == [] then 0
    else Judged(js, ext[..|ext| - 1], status) + if Has(Judge(js, ext[|ext| - 1]), status) then 1 else 0
  }

  lemma {:induction false} CountIsJudged(js: seq<Journal>, ext: seq<External>, n: nat, status: Option<MatchStatus>)
    requires n <= |ext| && DistinctReferences(ext)
    ensures Count(js, ext, n, status) == Judged(js, ext[..n], status)
  {
    hide Judge, Has, Verdict, DistinctReferences;
    if n > 0 {
      CountIsJudged(js, ext, n - 1, status);
      DistinctVerdict(js, ext, n - 1);
      assert ext[..n][..n - 1] == ext[..n - 1];
    }
  }

  lemma {:induction false} JudgedConcat(js: seq<Journal>, xs: seq<External>, ys: seq<External>,
      status: Option<MatchStatus>)
    ensures Judged(js, xs + ys, status) == Judged(js, xs, status) + Judged(js, ys, status)
  {
    hide Judge, Has;
    if ys == [] {
      assert xs + ys == xs;
    } else {
      var n := |ys| - 1;
      assert (xs + ys)[..|xs + ys| - 1] == xs + ys[..n];
      JudgedConcat(js, xs, ys[..n], status);
    }
  }

  lemma {:induction false} JudgedRearranged(js: seq<Journal>, xs: seq<External>, ys: seq<External>,
      status: Option<MatchStatus>)
    requires multiset(xs) == multiset(ys)
    ensures Judged(js, xs, status) == Judged(js, ys, status)
  {
    hide Judge, Has;
    if xs == [] {
      SameLength(xs, ys);
    } else {
      var j := FindLast(xs, ys);
      JudgedRearranged(js, xs[..|xs| - 1], Without(ys, j), status);
      assert ys == ys[..j] + ([ys[j]] + ys[j + 1..]);
      JudgedConcat(js, ys[..j], [ys[j]] + ys[j + 1..], status);
      JudgedConcat(js, [ys[j]], ys[j + 1..], status);
      JudgedConcat(js, ys[..j], ys[j + 1..], status);
      assert [ys[j]][..0] == [];
    }
  }

  /** With distinct references the order of the records changes neither a record's verdict nor any
      count. */
  lemma {:induction false} RecordOrderIrrelevant(js: seq<Journal>, xs: seq<External>, ys: seq<External>, i: nat,
      k: nat, status: Option<MatchStatus>)
    requires multiset(xs) == multiset(ys) && DistinctReferences(xs) && DistinctReferences(ys)
    requires i < |xs| && k < |ys| && xs[i] == ys[k]
    ensures Verdict(js, xs, i) == Verdict(js, ys, k)
    ensures Count(js, xs, |xs|, status) == Count(js, ys, |ys|, status)
  {
    hide Judge, Has, Verdict, DistinctReferences, Count;
    DistinctVerdict(js, xs, i);
    DistinctVerdict(js, ys, k);
    CountIsJudged(js, xs, |xs|, status);
    CountIsJudged(js, ys, |ys|, status);
    assert xs[..|xs|] == xs && ys[..|ys|] == ys;
    JudgedRearranged(js, xs, ys, status);
  }

  /** With distinct event ids it does not depend on the order of the journals either. */
  lemma {:induction false} JournalOrderIrrelevant(js: seq<Journal>, js': seq<Journal>, e: External)
    requires forall j :: j in js <==> j in js'
    requires forall x, y | x in js && y in js && x.eventId == y.eventId :: x == y
    ensures Judge(js, e) == Judge(js', e)
  {
    hide Anchor;
    JournalForIs(js, e.ref);
    JournalForIs(js', e.ref);
  }

  // ------------------------------------------------------------------------------------------
  // Which amount matches
  // ------------------------------------------------------------------------------------------

  /** Of several journals with one event id the last listed one counts. */
  lemma {:induction false} LastListed(js: seq<Journal>, i: nat)
    requires i < |js| && forall k | i < k < |js| :: js[k].eventId != js[i].eventId
    ensures JournalFor(js, js[i].eventId) == Some(js[i])
  {
    var n := |js| - 1;
    if i < n {
      assert js[..n][i] == js[i];
      LastListed(js[..n], i);
    }
  }

  /** A record without an account is matched by its reference alone. */
  lemma {:induction false} ReferenceAlone(js: seq<Journal>, e: External, i: nat)
    requires i < |js| && js[i].eventId == e.ref && e.account == ""
    requires forall k | i < k < |js| :: js[k].eventId != e.ref
    ensures Judge(js, e) == Some(Claim(Matched, js[i].id))
  {
    hide JournalFor, Anchor;
    LastListed(js, i);
  }

  /** What an entry adds to the amount reported for an account: a debit its amount, a credit the negative. */
  function Shift(x: Entry, e: External): int {
    if x.accountId != e.account || x.currency != e.currency then 0
    else if x.direction == Debit then x.amount else -x.amount
  }

  /** The amount that matches a journal is built up entry by entry: nothing posted matches zero, and one entry
      more shifts the matching amount by what it adds. */
  lemma {:induction false} EntryShiftsMatch(j: Journal, x: Entry, e: External)
    requires e.account != "" && j.eventId == e.ref
    ensures Judge([j.(entries := [])], e) == Some(Claim(if e.amount == 0 then Matched else Mismatched, j.id))
    ensures Judge([j.(entries := j.entries + [x])], e) == Judge([j], e.(amount := e.amount - Shift(x, e)))
  {
    hide JournalFor, Sum;
    var longer := j.(entries := j.entries + [x]);
    LastListed([j.(entries := [])], 0);
    LastListed([j], 0);
    LastListed([longer], 0);
    SumSnoc(j.entries, x, BalRef(e.account, e.currency), true);
    SumSnoc(j.entries, x, BalRef(e.account, e.currency), false);
    SumNothing(BalRef(e.account, e.currency));
  }

  lemma {:induction false} SumNothing(ref: BalRef)
    ensures Sum([], ref, true) == 0 && Sum([], ref, false) == 0
  {
  }

  /** So a record of the account that a transfer debits is matched exactly by the amount moved, one of the
      account it credits exactly by its negative. */
  lemma {:induction false} TransferMatches(j: Journal, debit: string, credit: string, currency: string, amount: int,
      js: seq<Journal>, ext: seq<External>, i: nat)
    requires debit != credit && debit != "" && credit != ""
    requires j.entries == [Entry(debit, currency, Debit, amount), Entry(credit, currency, Credit, amount)]
    requires i < |ext| && First(ext, i) && JournalFor(js, ext[i].ref) == Some(j) && ext[i].currency == currency
    ensures ext[i].account == debit ==>
              Verdict(js, ext, i) == Some(Claim(if ext[i].amount == amount then Matched else Mismatched, j.id))
    ensures ext[i].account == credit ==>
              Verdict(js, ext, i) == Some(Claim(if ext[i].amount == -amount then Matched else Mismatched, j.id))
  {
    hide JournalFor, Sum;
    var e := ext[i];
    var ref := BalRef(e.account, e.currency);
    var x, y := j.entries[0], j.entries[1];
    assert j.entries == ([] + [x]) + [y];
    SumNothing(ref);
    SumSnoc([], x, ref, true);
    SumSnoc([], x, ref, false);
    SumSnoc([] + [x], y, ref, true);
    SumSnoc([] + [x], y, ref, false);
  }

  // ------------------------------------------------------------------------------------------
  // What is reported
  // ------------------------------------------------------------------------------------------

  /** A record is reported missing in the ledger exactly when its verdict is none, and with its journal as an
      amount mismatch exactly when that is its verdict; nothing else is reported for records. */
  lemma {:induction false} ReportedIff(js: seq<Journal>, ext: seq<External>, n: nat, d: Discrepancy)
    requires n <= |ext|
    ensures d in Found(js, ext, n) <==> exists i: nat :: i < n && Reports(js, ext, i, d)
  {
    hide Verdict;
    if n > 0 {
      ReportedIff(js, ext, n - 1, d);
      var v := Verdict(js, ext, n - 1);
      assert Found(js, ext, n) == Found(js, ext, n - 1)
        + if v == None then [MissingInLedger(ext[n - 1].id)]
          else if v.value.status == Mismatched then [AmountMismatch(ext[n - 1].id, v.value.journalId)] else [];
      if d in Found(js, ext, n) && d !in Found(js, ext, n - 1) {
        assert Reports(js, ext, n - 1, d);
      }
      if i: nat :| i < n && Reports(js, ext, i, d) {
        assert i < n - 1 || i == n - 1;
      }
    }
  }

  ghost predicate Reports(js: seq<Journal>, ext: seq<External>, i: nat, d: Discrepancy) {
    i < |ext| && match d
                 case MissingInLedger(id) => id == ext[i].id && Verdict(js, ext, i) == None
                 case AmountMismatch(id, journal) =>
                   id == ext[i].id && Verdict(js, ext, i) == Some(Claim(Mismatched, journal))
                 case MissingInExternal(_) => false
  }

  /** Every record that claims a journal carries the claim afterwards, and no other record changes. */
  lemma {:induction false} ClaimsAre(claims: map<string, Claim>, js: seq<Journal>, ext: seq<External>, n: nat,
      id: string)
    requires n <= |ext| && forall h, k | 0 <= h < k < |ext| :: ext[h].id != ext[k].id
    ensures var after := Claims(claims, js, ext, n);
            if i: nat :| i < n && ext[i].id == id && Verdict(js, ext, i).Some?
            then id in after && Some(after[id]) == Verdict(js, ext, i)
            else (id in after <==> id in claims) && (id in after ==> after[id] == claims[id])
  {
    hide Verdict;
    if n > 0 {
      ClaimsAre(claims, js, ext, n - 1, id);
    }
  }

  // ------------------------------------------------------------------------------------------
  // The matcher
  // ------------------------------------------------------------------------------------------

  /** What remains to be claimed after `n` records. */
  ghost predicate Remaining(byEvent: map<string, Journal>, js: seq<Journal>, ext: seq<External>, n: nat)
    requires n <= |ext|
  {
    && byEvent.Keys == Events(js) - References(ext[..n])
    && forall k | k in byEvent :: JournalFor(js, k) == Some(byEvent[k])
  }

  /** The discrepancies reported for journals nobody claimed: one per event, in some order. */
  ghost predicate ReportsUnclaimed(tail: seq<Discrepancy>, js: seq<Journal>, events: set<string>) {
    && |tail| == |events|
    && (forall k | k in events :: JournalFor(js, k).Some? && MissingInExternal(JournalFor(js, k).value.id) in tail)
    && (forall d | d in tail :: exists k ::
          k in events && JournalFor(js, k).Some? && d == MissingInExternal(JournalFor(js, k).value.id))
  }

  class Matcher {
    /** match_status and matched_journal_id of the external records. */
    var claims: map<string, Claim>

    constructor ()
      ensures claims == map[]
    {
      claims := map[];
    }

    method ByEvent(js: seq<Journal>, ghost ext: seq<External>) returns (byEvent: map<string, Journal>)
      ensures Remaining(byEvent, js, ext, 0)
    {
      byEvent := map[];
      for i := 0 to |js|
        invariant forall k :: k in byEvent <==> JournalFor(js[..i], k).Some?
        invariant forall k | k in byEvent :: JournalFor(js[..i], k) == Some(byEvent[k])
      {
        assert js[..i + 1][..i] == js[..i];
        byEvent := byEvent[js[i].eventId := js[i]];
      }
      assert js[..|js|] == js;
      assert References(ext[..0]) == {};
      forall k ensures k in byEvent <==> k in Events(js) {
        JournalForIs(js, k);
      }
    }

    /** Run: records claim journals in order, each claim removing its journal; what is left was not
        reported externally. */
    method Run(ext: seq<External>, js: seq<Journal>) returns (res: MatchResult, ghost tail: seq<Discrepancy>)
      modifies this
      ensures res.ingested == |ext|
      ensures res.matched == Count(js, ext, |ext|, Some(Matched))
          && res.mismatched == Count(js, ext, |ext|, Some(Mismatched))
      ensures res.missingInLedger == Count(js, ext, |ext|, None)
      ensures res.ingested == res.matched + res.mismatched + res.missingInLedger
      ensures res.missingInExternal == |Events(js)| - res.matched - res.mismatched
      ensures res.discrepancies == Found(js, ext, |ext|) + tail
          && ReportsUnclaimed(tail, js, Events(js) - References(ext))
      ensures |res.discrepancies| == res.mismatched + res.missingInLedger + res.missingInExternal
      ensures claims == Claims(old(claims), js, ext, |ext|)
    {
      hide Events, References, Anchor, Remaining, ReportsUnclaimed, First, JournalFor;
      var byEvent := ByEvent(js, ext);
      var matched, mismatched, missing: nat := 0, 0, 0;
      var found: seq<Discrepancy> := [];
      for i := 0 to |ext|
        invariant Remaining(byEvent, js, ext, i)
        invariant matched == Count(js, ext, i, Some(Matched)) && mismatched == Count(js, ext, i, Some(Mismatched))
        invariant missing == Count(js, ext, i, None)
        invariant found == Found(js, ext, i)
        invariant claims == Claims(old(claims), js, ext, i)
      {
        var e := ext[i];
        VerdictFromMap(byEvent, js, ext, i);
        if e.ref !in byEvent {
          missing := missing + 1;
          found := found + [MissingInLedger(e.id)];
          NothingClaimed(byEvent, js, ext, i);
          continue;
        }
        var j := byEvent[e.ref];
        OneClaimed(byEvent, js, ext, i);
        if e.account != "" {
          var signed := SumEntries(j, e);
          if signed != e.amount {
            claims := claims[e.id := Claim(Mismatched, j.id)];
            mismatched := mismatched + 1;
            found := found + [AmountMismatch(e.id, j.id)];
            byEvent := byEvent - {e.ref};
            continue;
          }
        }
        claims := claims[e.id := Claim(Matched, j.id)];
        matched := matched + 1;
        byEvent := byEvent - {e.ref};
      }
      EveryRecordCounted(js, ext, |ext|);
      UnclaimedEvents(js, ext);
      var unclaimed, rest := Unclaimed(byEvent, js, ext);
      TailSize(rest, js, ext);
      return MatchResult(|ext|, matched, mismatched, missing, unclaimed, found + rest), rest;
    }

    /** SumJournalEntries over the journal's entries. */
    method SumEntries(j: Journal, e: External) returns (signed: int)
      ensures signed == Anchor(j, e)
    {
      var d, c := 0, 0;
      var ref := BalRef(e.account, e.currency);
      for i := 0 to |j.entries|
        invariant d == Sum(j.entries[..i], ref, true) && c == Sum(j.entries[..i], ref, false)
      {
        var x := j.entries[i];
        assert j.entries[..i + 1][..i] == j.entries[..i];
        if RefOf(x) == ref {
          if x.direction == Debit {
            d := d + x.amount;
          } else {
            c := c + x.amount;
          }
        }
      }
      assert j.entries[..|j.entries|] == j.entries;
      signed := d - c;
    }

    /** The closing loop over the map, in whatever order. */
    method Unclaimed(byEvent: map<string, Journal>, js: seq<Journal>, ghost ext: seq<External>)
        returns (n: nat, tail: seq<Discrepancy>)
      requires Remaining(byEvent, js, ext, |ext|)
      ensures n == |Events(js) - References(ext)| && ReportsUnclaimed(tail, js, Events(js) - References(ext))
    {
      hide Events, References, JournalFor, ReportsUnclaimed, Remaining;
      NoneReported(js);
      RemainingAll(byEvent, js, ext);
      n, tail := 0, [];
      var left := byEvent.Keys;
      ghost var done: set<string> := {};
      while left != {}
        invariant left !! done && left + done == byEvent.Keys
        invariant n == |done| && ReportsUnclaimed(tail, js, done)
      {
        var k :| k in left;
        RemainingAt(byEvent, js, ext, k);
        OneReported(tail, js, done, k);
        n := n + 1;
        tail := tail + [MissingInExternal(byEvent[k].id)];
        left := left - {k};
        done := done + {k};
      }
      assert done == byEvent.Keys;
    }
  }

  lemma {:induction false} RemainingAll(byEvent: map<string, Journal>, js: seq<Journal>, ext: seq<External>)
    requires Remaining(byEvent, js, ext, |ext|)
    ensures byEvent.Keys == Events(js) - References(ext)
  {
    hide Events, References, JournalFor;
    assert ext[..|ext|] == ext;
  }

  lemma {:induction false} RemainingAt(byEvent: map<string, Journal>, js: seq<Journal>, ext: seq<External>, k: string)
    requires Remaining(byEvent, js, ext, |ext|) && k in byEvent
    ensures JournalFor(js, k) == Some(byEvent[k])
  {
    hide Events, References, JournalFor;
  }

  lemma {:induction false} NoneReported(js: seq<Journal>)
    ensures ReportsUnclaimed([], js, {})
  {
  }

  lemma {:induction false} OneReported(tail: seq<Discrepancy>, js: seq<Journal>, done: set<string>, k: string)
    requires ReportsUnclaimed(tail, js, done) && k !in done && JournalFor(js, k).Some?
    ensures ReportsUnclaimed(tail + [MissingInExternal(JournalFor(js, k).value.id)], js, done + {k})
  {
    hide JournalFor;
    var d := MissingInExternal(JournalFor(js, k).value.id);
    var longer := tail + [d];
    assert d in longer;
    forall x | x in longer
      ensures exists l ::
          l in done + {k} && JournalFor(js, l).Some? && x == MissingInExternal(JournalFor(js, l).value.id)
    {
      if x in tail {
        var l :| l in done && JournalFor(js, l).Some? && x == MissingInExternal(JournalFor(js, l).value.id);
        assert l in done + {k};
      } else {
        assert k in done + {k};
      }
    }
  }

  lemma {:induction false} TailSize(tail: seq<Discrepancy>, js: seq<Journal>, ext: seq<External>)
    requires ReportsUnclaimed(tail, js, Events(js) - References(ext))
    ensures |tail| == |Events(js) - References(ext)|
  {
  }

  /** The map answers as the verdict does. */
  lemma {:induction false} VerdictFromMap(byEvent: map<string, Journal>, js: seq<Journal>, ext: seq<External>, i: nat)
    requires i < |ext| && Remaining(byEvent, js, ext, i)
    ensures Verdict(js, ext, i) ==
            if ext[i].ref !in byEvent then None
            else if ext[i].account != "" && Anchor(byEvent[ext[i].ref], ext[i]) != ext[i].amount
              then Some(Claim(Mismatched, byEvent[ext[i].ref].id))
            else Some(Claim(Matched, byEvent[ext[i].ref].id))
  {
    hide Events, References, Anchor, First, JournalFor;
    PrefixReferences(ext, i + 1);
    JournalForIs(js, ext[i].ref);
  }

  lemma {:induction false} NothingClaimed(byEvent: map<string, Journal>, js: seq<Journal>, ext: seq<External>, i: nat)
    requires i < |ext| && Remaining(byEvent, js, ext, i) && ext[i].ref !in byEvent
    ensures Remaining(byEvent, js, ext, i + 1)
  {
    hide Events, References, First, JournalFor;
    PrefixReferences(ext, i + 1);
  }

  lemma {:induction false} OneClaimed(byEvent: map<string, Journal>, js: seq<Journal>, ext: seq<External>, i: nat)
    requires i < |ext| && Remaining(byEvent, js, ext, i) && ext[i].ref in byEvent
    ensures Remaining(byEvent - {ext[i].ref}, js, ext, i + 1)
  {
    hide Events, References, First, JournalFor;
    PrefixReferences(ext, i + 1);
  }
}
