/** The distinct (account, currency) pairs of a flow in their fixed processing order
    (internal/service/execute_flow.go). */
module Ordering {
  import opened Ledger

  datatype BalRef = BalRef(account: string, currency: string)

  function RefOf(e: Entry): BalRef {
    BalRef(e.accountId, e.currency)
  }

  predicate StrLess(a: string, b: string) {
    if b == "" then false
    else if a == "" then true
    else if a[0] != b[0] then a[0] < b[0]
    else StrLess(a[1..], b[1..])
  }

  lemma {:induction false} StrIrreflexive(a: string)
    ensures !StrLess(a, a)
  {
    if a != "" {
      StrIrreflexive(a[1..]);
    }
  }

  lemma {:induction false} StrTotal(a: string, b: string)
    ensures a == b || StrLess(a, b) || StrLess(b, a)
  {
    if a != "" && b != "" && a[0] == b[0] {
      StrTotal(a[1..], b[1..]);
      assert a == [a[0]] + a[1..] && b == [b[0]] + b[1..];
    }
  }

  lemma {:induction false} StrTransitive(a: string, b: string, c: string)
    requires StrLess(a, b) && StrLess(b, c)
    ensures StrLess(a, c)
  {
    if a != "" && a[0] == b[0] && b[0] == c[0] {
      StrTransitive(a[1..], b[1..], c[1..]);
    }
  }

  /** The byte order of strings: a proper prefix comes first, else the first difference decides. */
  lemma {:induction false} StrLessIff(a: string, b: string)
    ensures StrLess(a, b) <==> exists i :: Differs(a, b, i)
  {
    if a != "" && b != "" && a[0] == b[0] {
      StrLessIff(a[1..], b[1..]);
      if i :| Differs(a[1..], b[1..], i) {
        assert a[..i + 1] == [a[0]] + a[1..][..i] && b[..i + 1] == [b[0]] + b[1..][..i];
        assert Differs(a, b, i + 1);
      }
      if i :| Differs(a, b, i) {
        assert a[..i][1..] == a[1..][..i - 1] && b[..i][1..] == b[1..][..i - 1];
        assert Differs(a[1..], b[1..], i - 1);
      }
    } else if b != "" {
      assert a == "" || a[0] < b[0] ==> Differs(a, b, 0);
      assert a != "" && a[0] != b[0] ==> forall i | 0 < i <= |a| && i <= |b| :: a[..i][0] != b[..i][0];
    }
  }

  ghost predicate Differs(a: string, b: string, i: int) {
    0 <= i <= |a| && i < |b| && a[..i] == b[..i] && (i == |a| || a[i] < b[i])
  }

  /** Account first, then currency. */
  predicate RefLess(x: BalRef, y: BalRef) {
    if x.account != y.account then StrLess(x.account, y.account) else StrLess(x.currency, y.currency)
  }

  lemma {:induction false} RefOrder(x: BalRef, y: BalRef, z: BalRef)
    ensures !RefLess(x, x)
    ensures x == y || RefLess(x, y) || RefLess(y, x)
    ensures RefLess(x, y) && RefLess(y, z) ==> RefLess(x, z)
  {
    StrIrreflexive(x.account);
    StrIrreflexive(x.currency);
    StrTotal(x.account, y.account);
    StrTotal(x.currency, y.currency);
    if RefLess(x, y) && RefLess(y, z) {
      if x.account != y.account && y.account != z.account {
        StrTransitive(x.account, y.account, z.account);
        StrIrreflexive(x.account);
      } else if x.account == y.account == z.account {
        StrTransitive(x.currency, y.currency, z.currency);
      }
    }
  }

  ghost predicate Increasing(rs: seq<BalRef>) {
    forall i, j | 0 <= i < j < |rs| :: RefLess(rs[i], rs[j])
  }

  /** Insertion into an increasing sequence; a pair already present is not repeated. */
  function Insert(r: BalRef, rs: seq<BalRef>): seq<BalRef> {
    if rs == [] then [r]
    else if rs[0] == r then rs
    else if RefLess(r, rs[0]) then [r] + rs
    else [rs[0]] + Insert(r, rs[1..])
  }

  lemma {:induction false} InsertIncreasing(r: BalRef, rs: seq<BalRef>)
    requires Increasing(rs)
    ensures Increasing(Insert(r, rs))
    ensures forall x :: x in Insert(r, rs) <==> x == r || x in rs
  {
    if rs != [] {
      var h, tail := rs[0], rs[1..];
      assert rs == [h] + tail;
      RefOrder(r, h, r);
      if RefLess(r, h) {
        forall j | 0 <= j < |rs| ensures RefLess(r, rs[j]) {
          RefOrder(r, h, rs[j]);
        }
      } else if h != r {
        InsertIncreasing(r, tail);
        var out := Insert(r, tail);
        forall j | 0 <= j < |out| ensures RefLess(h, out[j]) {
          assert out[j] in out;
          if out[j] != r {
            var i :| 0 <= i < |tail| && tail[i] == out[j];
            assert RefLess(rs[0], rs[i + 1]);
          }
        }
        forall i, j | 0 <= i < j < |[h] + out| ensures RefLess(([h] + out)[i], ([h] + out)[j]) {
          if i > 0 {
            assert RefLess(out[i - 1], out[j - 1]);
          }
        }
      }
    }
  }

  function Refs(es: seq<Entry>): seq<BalRef> {
    if es == [] then [] else Insert(RefOf(es[|es| - 1]), Refs(es[..|es| - 1]))
  }

  /** The pairs are strictly increasing and are exactly those the entries mention. */
  lemma {:induction false} RefsSorted(es: seq<Entry>)
    ensures Increasing(Refs(es))
    ensures forall r :: r in Refs(es) <==> exists e | e in es :: RefOf(e) == r
  {
    if es != [] {
      var n := |es| - 1;
      RefsSorted(es[..n]);
      InsertIncreasing(RefOf(es[n]), Refs(es[..n]));
      assert es == es[..n] + [es[n]];
      forall r ensures r in Refs(es) <==> exists e | e in es :: RefOf(e) == r {
        if r == RefOf(es[n]) {
          assert es[n] in es;
        }
      }
    }
  }

  lemma {:induction false} IncreasingDistinct(rs: seq<BalRef>, i: int, j: int)
    requires Increasing(rs) && 0 <= i < |rs| && 0 <= j < |rs| && rs[i] == rs[j]
    ensures i == j
  {
    RefOrder(rs[i], rs[j], rs[i]);
  }

  /** Two increasing sequences over the same pairs are the same sequence: the order of a flow's locks
      and loads is a function of the set of pairs it touches. */
  lemma {:induction false} IncreasingUnique(xs: seq<BalRef>, ys: seq<BalRef>)
    requires Increasing(xs) && Increasing(ys)
    requires forall r :: r in xs <==> r in ys
    ensures xs == ys
  {
    assert xs == [] <==> ys == [] by {
      if xs != [] { assert xs[0] in ys; }
      if ys != [] { assert ys[0] in xs; }
    }
    if xs != [] {
      assert xs[0] in ys && ys[0] in xs;
      var i :| 0 <= i < |ys| && ys[i] == xs[0];
      var j :| 0 <= j < |xs| && xs[j] == ys[0];
      if xs[0] != ys[0] {
        RefOrder(xs[0], ys[0], xs[0]);
      }
      assert xs == [xs[0]] + xs[1..] && ys == [ys[0]] + ys[1..];
      forall r ensures r in xs[1..] <==> r in ys[1..] {
        if r in xs[1..] {
          var m :| 0 <= m < |xs[1..]| && xs[1..][m] == r;
          assert RefLess(xs[0], xs[m + 1]);
          RefOrder(r, r, r);
          assert r in xs;
        }
        if r in ys[1..] {
          var m :| 0 <= m < |ys[1..]| && ys[1..][m] == r;
          assert RefLess(ys[0], ys[m + 1]);
          RefOrder(r, r, r);
          assert r in ys;
        }
      }
      IncreasingUnique(xs[1..], ys[1..]);
    }
  }

  /** sort.Slice on a duplicate-free list. */
  method Sort(rs: seq<BalRef>) returns (sorted: seq<BalRef>)
    ensures Increasing(sorted)
    ensures forall r :: r in sorted <==> r in rs
  {
    sorted := [];
    for i := 0 to |rs|
      invariant Increasing(sorted)
      invariant forall r :: r in sorted <==> r in rs[..i]
    {
      InsertIncreasing(rs[i], sorted);
      assert rs[..i + 1] == rs[..i] + [rs[i]];
      sorted := Insert(rs[i], sorted);
    }
    assert rs[..|rs|] == rs;
  }

  /** Every entry of a flow, in posting order. */
  function AllEntries(steps: seq<StepInput>): seq<Entry> {
    if steps == [] then [] else AllEntries(steps[..|steps| - 1]) + steps[|steps| - 1].entries
  }

  /** The flow's key collection: first occurrences in entry order through a `seen` map, then a sort. */
  method CollectRefs(steps: seq<StepInput>) returns (ordered: seq<BalRef>)
    ensures ordered == Refs(AllEntries(steps))
  {
    var seen: map<BalRef, bool> := map[];
    var found: seq<BalRef> := [];
    for i := 0 to |steps|
      invariant forall r :: r in seen <==> r in found
      invariant forall r :: r in found <==> exists e | e in AllEntries(steps[..i]) :: RefOf(e) == r
    {
      ghost var before := AllEntries(steps[..i]);
      var es := steps[i].entries;
      assert before + es[..0] == before;
      for j := 0 to |es|
        invariant forall r :: r in seen <==> r in found
        invariant forall r :: r in found <==> exists e | e in before + es[..j] :: RefOf(e) == r
      {
        var k := RefOf(es[j]);
        assert before + es[..j + 1] == before + es[..j] + [es[j]];
        if k !in seen {
          seen := seen[k := true];
          found := found + [k];
        }
        assert es[j] in before + es[..j + 1];
      }
      assert steps[..i + 1][..i] == steps[..i] && es[..|es|] == es;
    }
    assert steps[..|steps|] == steps;
    ordered := Sort(found);
    RefsSorted(AllEntries(steps));
    IncreasingUnique(ordered, Refs(AllEntries(steps)));
  }
}
