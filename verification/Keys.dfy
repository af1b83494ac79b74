/** Partition keys (internal/repo/dynamo/keys.go). The rest of the model works on the structured `Key`;
    this module shows when the strings the store really uses tell those keys apart. */
module Keys {

  datatype Key =
    | AccK(tenant: string, account: string)
    | AccUK(tenant: string, ownerType: string, ownerId: string, accountType: string, currency: string)
    | BalK(tenant: string, account: string, currency: string)
    | JrnK(tenant: string, journal: string)
    | EvtK(event: string)
    | FlowK(tenant: string, flow: string)
    | FIdempK(tenant: string, key: string)
    | ObxK(id: string)
    | ResK(tenant: string, reservation: string)
    | RIdempK(tenant: string, key: string)

  /** The key builders. */
  function Encode(k: Key): string {
    match k
    case AccK(t, a) => "ACC#" + t + "#" + a
    case AccUK(t, ot, oi, at, c) => "ACCU#" + t + "#" + ot + "#" + oi + "#" + at + "#" + c
    case BalK(t, a, c) => "BAL#" + t + "#" + a + "#" + c
    case JrnK(t, j) => "JRN#" + t + "#" + j
    case EvtK(e) => "EVT#" + e
    case FlowK(t, f) => "FLOW#" + t + "#" + f
    case FIdempK(t, key) => "FIDEMP#" + t + "#" + key
    case ObxK(id) => "OBX#" + id
    case ResK(t, r) => "RES#" + t + "#" + r
    case RIdempK(t, key) => "RIDEMP#" + t + "#" + key
  }

  /** Partition key of the owner index. */
  function OwnerPartition(tenant: string, ownerType: string, ownerId: string): string {
    "RESOWN#" + tenant + "#" + ownerType + "#" + ownerId
  }

  predicate HashFree(s: string) {
    '#' !in s
  }

  /** The kind prefix followed by the key's components. */
  function Parts(k: Key): seq<string> {
    match k
    case AccK(t, a) => ["ACC", t, a]
    case AccUK(t, ot, oi, at, c) => ["ACCU", t, ot, oi, at, c]
    case BalK(t, a, c) => ["BAL", t, a, c]
    case JrnK(t, j) => ["JRN", t, j]
    case EvtK(e) => ["EVT", e]
    case FlowK(t, f) => ["FLOW", t, f]
    case FIdempK(t, key) => ["FIDEMP", t, key]
    case ObxK(id) => ["OBX", id]
    case ResK(t, r) => ["RES", t, r]
    case RIdempK(t, key) => ["RIDEMP", t, key]
  }

  /** Every component but the last is free of `#`; the last one may hold anything. */
  predicate Separable(parts: seq<string>) {
    forall i | 0 <= i < |parts| - 1 :: HashFree(parts[i])
  }

  function Join(parts: seq<string>): string {
    if parts == [] then ""
    else if |parts| == 1 then parts[0]
    else parts[0] + "#" + Join(parts[1..])
  }

  lemma {:induction false} HeadNotShorter(a: string, x: string, b: string, y: string)
    requires HashFree(b)
    requires a + "#" + x == b + "#" + y
    ensures |a| >= |b|
  {
    var left, right := a + "#" + x, b + "#" + y;
    assert left[|a|] == '#';
    assert forall i | 0 <= i < |b| :: right[i] == b[i] && right[i] != '#';
  }

  /** A `#`-free head can be read back from what follows it. */
  lemma {:induction false} HeadUnique(a: string, x: string, b: string, y: string)
    requires HashFree(a) && HashFree(b)
    requires a + "#" + x == b + "#" + y
    ensures a == b && x == y
  {
    HeadNotShorter(a, x, b, y);
    HeadNotShorter(b, y, a, x);
    var left, right := a + "#" + x, b + "#" + y;
    assert a == left[..|a|] && b == right[..|b|];
    assert x == left[|a| + 1..] && y == right[|b| + 1..];
  }

  lemma {:induction false} JoinInjective(ps: seq<string>, qs: seq<string>)
    requires |ps| == |qs| && Separable(ps) && Separable(qs)
    requires Join(ps) == Join(qs)
    ensures ps == qs
  {
    if |ps| > 1 {
      HeadUnique(ps[0], Join(ps[1..]), qs[0], Join(qs[1..]));
      assert Separable(ps[1..]) && Separable(qs[1..]) by {
        forall i | 0 <= i < |ps| - 2
          ensures HashFree(ps[1..][i]) && HashFree(qs[1..][i])
        {
          assert ps[1..][i] == ps[i + 1] && qs[1..][i] == qs[i + 1];
        }
      }
      JoinInjective(ps[1..], qs[1..]);
      assert ps == [ps[0]] + ps[1..] && qs == [qs[0]] + qs[1..];
    }
  }

  function Tail(k: Key): seq<string> {
    Parts(k)[1..]
  }

  lemma {:induction false} JoinTwo(a: string, b: string)
    ensures Join([a, b]) == a + "#" + b
  {
    assert [a, b][1..] == [b];
  }

  lemma {:induction false} JoinThree(a: string, b: string, c: string)
    ensures Join([a, b, c]) == a + "#" + b + "#" + c
  {
    JoinTwo(b, c);
    assert [a, b, c][1..] == [b, c];
    assert a + "#" + (b + "#" + c) == a + "#" + b + "#" + c;
  }

  lemma {:induction false} JoinFive(a: string, b: string, c: string, d: string, e: string)
    ensures Join([a, b, c, d, e]) == a + "#" + b + "#" + c + "#" + d + "#" + e
  {
    JoinThree(c, d, e);
    assert [b, c, d, e][1..] == [c, d, e];
    assert [a, b, c, d, e][1..] == [b, c, d, e];
    calc {
      Join([a, b, c, d, e]);
      a + "#" + (b + "#" + (c + "#" + d + "#" + e));
      a + "#" + b + "#" + c + "#" + d + "#" + e;
    }
  }

  lemma {:induction false} Pair(prefix: string, t: string, x: string)
    ensures (prefix + "#") + t + "#" + x == prefix + "#" + Join([t, x])
  {
    JoinTwo(t, x);
  }

  lemma {:induction false} Triple(prefix: string, t: string, x: string, y: string)
    ensures (prefix + "#") + t + "#" + x + "#" + y == prefix + "#" + Join([t, x, y])
  {
    JoinThree(t, x, y);
  }

  lemma {:induction false} Quintuple(prefix: string, t: string, x: string, y: string, z: string, w: string)
    ensures (prefix + "#") + t + "#" + x + "#" + y + "#" + z + "#" + w == prefix + "#" + Join([t, x, y, z, w])
  {
    JoinFive(t, x, y, z, w);
    var tail := t + "#" + x + "#" + y + "#" + z + "#" + w;
    assert (prefix + "#") + t + "#" + x + "#" + y + "#" + z + "#" + w == (prefix + "#") + tail;
  }

  /** What the builders write is the kind prefix, a `#`, and the joined components. */
  lemma {:induction false} EncodeIsJoin(k: Key)
    ensures Encode(k) == Parts(k)[0] + "#" + Join(Tail(k)) == Join(Parts(k))
  {
    EncodeHead(k);
  }

  lemma {:induction false} JoinOne(x: string)
    ensures Join([x]) == x
  {
  }

  lemma {:induction false} EncodeHead(k: Key)
    ensures Encode(k) == Parts(k)[0] + "#" + Join(Tail(k))
  {
    hide Join;
    match k
    case AccK(t, a) => Pair("ACC", t, a); assert "ACC" + "#" == "ACC#"; assert Tail(k) == [t, a];
    case AccUK(t, ot, oi, at, c) =>
      Quintuple("ACCU", t, ot, oi, at, c);
      assert "ACCU" + "#" == "ACCU#" && Tail(k) == [t, ot, oi, at, c];
    case BalK(t, a, c) => Triple("BAL", t, a, c); assert "BAL" + "#" == "BAL#"; assert Tail(k) == [t, a, c];
    case JrnK(t, j) => Pair("JRN", t, j); assert "JRN" + "#" == "JRN#"; assert Tail(k) == [t, j];
    case EvtK(e) => JoinOne(e); assert Tail(k) == [e];
    case FlowK(t, f) => Pair("FLOW", t, f); assert "FLOW" + "#" == "FLOW#"; assert Tail(k) == [t, f];
    case FIdempK(t, key) => Pair("FIDEMP", t, key); assert "FIDEMP" + "#" == "FIDEMP#"; assert Tail(k) == [t, key];
    case ObxK(id) => JoinOne(id); assert Tail(k) == [id];
    case ResK(t, r) => Pair("RES", t, r); assert "RES" + "#" == "RES#"; assert Tail(k) == [t, r];
    case RIdempK(t, key) => Pair("RIDEMP", t, key); assert "RIDEMP" + "#" == "RIDEMP#"; assert Tail(k) == [t, key];
  }

  /** The prefixes keep the ten kinds apart whatever the components hold. */
  lemma {:induction false} KindsNeverCollide(k: Key, l: Key)
    requires Encode(k) == Encode(l)
    ensures Parts(k)[0] == Parts(l)[0] && |Parts(k)| == |Parts(l)|
  {
    hide Join, Encode;
    EncodeIsJoin(k);
    EncodeIsJoin(l);
    HeadUnique(Parts(k)[0], Join(Tail(k)), Parts(l)[0], Join(Tail(l)));
  }

  /** Distinct keys have distinct strings as soon as all components but the last are `#`-free. */
  lemma {:induction false} EncodeInjective(k: Key, l: Key)
    requires Separable(Parts(k)) && Separable(Parts(l))
    requires Encode(k) == Encode(l)
    ensures k == l
  {
    KindsNeverCollide(k, l);
    EncodeIsJoin(k);
    EncodeIsJoin(l);
    JoinInjective(Parts(k), Parts(l));
  }

  // ------------------------------------------------------------------------------------------
  // Ambiguous strings
  // ------------------------------------------------------------------------------------------

  /** The key of the same kind with other components. */
  function Rebuild(k: Key, tail: seq<string>): (l: Key)
    requires |tail| == |Tail(k)|
    ensures Parts(l) == [Parts(k)[0]] + tail
  {
    match k
    case AccK(_, _) => AccK(tail[0], tail[1])
    case AccUK(_, _, _, _, _) => AccUK(tail[0], tail[1], tail[2], tail[3], tail[4])
    case BalK(_, _, _) => BalK(tail[0], tail[1], tail[2])
    case JrnK(_, _) => JrnK(tail[0], tail[1])
    case EvtK(_) => EvtK(tail[0])
    case FlowK(_, _) => FlowK(tail[0], tail[1])
    case FIdempK(_, _) => FIdempK(tail[0], tail[1])
    case ObxK(_) => ObxK(tail[0])
    case ResK(_, _) => ResK(tail[0], tail[1])
    case RIdempK(_, _) => RIdempK(tail[0], tail[1])
  }

  lemma {:induction false} SplitHash(s: string) returns (x: string, y: string)
    requires !HashFree(s)
    ensures s == x + "#" + y
  {
    var i :| 0 <= i < |s| && s[i] == '#';
    x, y := s[..i], s[i + 1..];
  }

  /** Text after a `#` can be moved into the next component. */
  lemma {:induction false} JoinShift(ps: seq<string>, i: nat, x: string, y: string)
    requires i + 1 < |ps| && ps[i] == x + "#" + y
    ensures Join(ps) == Join(ps[i := x][i + 1 := y + "#" + ps[i + 1]])
  {
    var qs := ps[i := x][i + 1 := y + "#" + ps[i + 1]];
    if i == 0 {
      assert ps[1..][1..] == qs[1..][1..];
      JoinHead(ps[1..], y);
      assert qs[1..] == ps[1..][0 := y + "#" + ps[1]];
      assert (x + "#" + y) + "#" + Join(ps[1..]) == x + "#" + (y + "#" + Join(ps[1..]));
    } else {
      JoinShift(ps[1..], i - 1, x, y);
      assert qs[1..] == ps[1..][i - 1 := x][i := y + "#" + ps[1..][i]];
    }
  }

  lemma {:induction false} JoinHead(ps: seq<string>, y: string)
    requires ps != []
    ensures Join(ps[0 := y + "#" + ps[0]]) == y + "#" + Join(ps)
  {
    var qs := ps[0 := y + "#" + ps[0]];
    if |ps| > 1 {
      assert qs[1..] == ps[1..];
      assert (y + "#" + ps[0]) + "#" + Join(ps[1..]) == y + "#" + (ps[0] + "#" + Join(ps[1..]));
    }
  }

  lemma {:induction false} RebuiltCollides(k: Key, tail: seq<string>)
    requires |tail| == |Tail(k)| && Join(tail) == Join(Tail(k)) && tail != Tail(k)
    ensures Rebuild(k, tail) != k && Encode(Rebuild(k, tail)) == Encode(k)
  {
    hide Join, Encode, Rebuild;
    var l := Rebuild(k, tail);
    assert Tail(l) == tail && Parts(l)[0] == Parts(k)[0];
    EncodeHead(k);
    EncodeHead(l);
  }

  /** A `#` in a component before the last lets another key of the same kind share the row. */
  lemma {:induction false} CollidesWhenHashed(k: Key) returns (l: Key)
    requires !Separable(Parts(k))
    ensures l != k && Encode(l) == Encode(k) && Parts(l)[0] == Parts(k)[0]
  {
    hide Join, Encode, Rebuild;
    var i :| 0 <= i < |Parts(k)| - 1 && !HashFree(Parts(k)[i]);
    PrefixHashFree(k);
    var ps := Tail(k);
    var x, y := SplitHash(ps[i - 1]);
    var tail := ps[i - 1 := x][i := y + "#" + ps[i]];
    JoinShift(ps, i - 1, x, y);
    assert |tail[i - 1]| < |ps[i - 1]|;
    RebuiltCollides(k, tail);
    l := Rebuild(k, tail);
  }

  lemma {:induction false} PrefixHashFree(k: Key)
    ensures HashFree(Parts(k)[0])
  {
  }

  /** For example, two balances of two tenants share a row. */
  lemma {:induction false} EncodeNotInjective()
    ensures BalK("t#a", "b", "USD") != BalK("t", "a#b", "USD")
    ensures Encode(BalK("t#a", "b", "USD")) == Encode(BalK("t", "a#b", "USD"))
  {
    assert "BAL#" + "t#a" + "#" + "b" + "#" + "USD" == "BAL#" + "t" + "#" + "a#b" + "#" + "USD";
  }

  function Hashes(s: string): nat {
    if s == "" then 0 else Hashes(s[..|s| - 1]) + if s[|s| - 1] == '#' then 1 else 0
  }

  lemma {:induction false} HashesConcat(x: string, y: string)
    ensures Hashes(x + y) == Hashes(x) + Hashes(y)
  {
    if y == "" {
      assert x + y == x;
    } else {
      assert (x + y)[..|x + y| - 1] == x + y[..|y| - 1];
      HashesConcat(x, y[..|y| - 1]);
    }
  }

  lemma {:induction false} NoHashes(s: string)
    ensures Hashes(s) == 0 <==> HashFree(s)
  {
    if s != "" {
      NoHashes(s[..|s| - 1]);
      assert s == s[..|s| - 1] + [s[|s| - 1]];
    }
  }

  lemma {:induction false} JoinHashes(ps: seq<string>)
    requires ps != []
    ensures Hashes(Join(ps)) >= |ps| - 1
    ensures Hashes(Join(ps)) == |ps| - 1 <==> forall i | 0 <= i < |ps| :: HashFree(ps[i])
  {
    NoHashes(ps[0]);
    if |ps| > 1 {
      JoinHashes(ps[1..]);
      HashesConcat(ps[0], "#");
      HashesConcat(ps[0] + "#", Join(ps[1..]));
      assert Hashes("#") == 1 by {
        assert "#"[..0] == "";
      }
      assert forall i | 0 < i < |ps| :: ps[i] == ps[1..][i - 1];
      if forall i | 0 <= i < |ps[1..]| :: HashFree(ps[1..][i]) {
        forall i | 0 < i < |ps| ensures HashFree(ps[i]) {
          assert HashFree(ps[1..][i - 1]);
        }
      } else {
        var i :| 0 <= i < |ps[1..]| && !HashFree(ps[1..][i]);
        assert !HashFree(ps[i + 1]);
      }
    }
  }

  /** No component of `k` has a `#`, unless it is the only one. */
  predicate Unambiguous(k: Key) {
    |Tail(k)| == 1 || forall i | 0 <= i < |Tail(k)| :: HashFree(Tail(k)[i])
  }

  /** A key has its row to itself exactly when none of its components has a `#`, or it has only one. */
  lemma {:induction false} OwnRowIff(k: Key)
    ensures (forall l :: Encode(l) == Encode(k) ==> l == k) <==> Unambiguous(k)
  {
    hide Join, Encode, Rebuild;
    if Unambiguous(k) {
      forall l | Encode(l) == Encode(k) ensures l == k {
        SameComponents(k, l);
      }
    } else {
      var l := SharesRow(k);
    }
  }

  lemma {:induction false} SameComponents(k: Key, l: Key)
    requires Unambiguous(k) && Encode(l) == Encode(k)
    ensures l == k
  {
    hide Join, Encode;
    KindsNeverCollide(k, l);
    EncodeHead(k);
    EncodeHead(l);
    HeadUnique(Parts(k)[0], Join(Tail(k)), Parts(l)[0], Join(Tail(l)));
    if |Tail(k)| == 1 {
      JoinOne(Tail(k)[0]);
      JoinOne(Tail(l)[0]);
    } else {
      JoinHashes(Tail(k));
      JoinHashes(Tail(l));
      JoinInjective(Tail(k), Tail(l));
    }
    assert Parts(k) == [Parts(k)[0]] + Tail(k) && Parts(l) == [Parts(l)[0]] + Tail(l);
    SameParts(k, l);
  }

  lemma {:induction false} SameParts(k: Key, l: Key)
    requires Parts(k) == Parts(l)
    ensures k == l
  {
  }

  lemma {:induction false} SharesRow(k: Key) returns (l: Key)
    requires !Unambiguous(k)
    ensures l != k && Encode(l) == Encode(k)
  {
    hide Join, Encode, Rebuild;
    var ps := Tail(k);
    var n := |ps| - 1;
    var i :| 0 <= i < |ps| && !HashFree(ps[i]);
    if i < n {
      assert Parts(k)[i + 1] == ps[i];
      l := CollidesWhenHashed(k);
    } else {
      var x, y := SplitHash(ps[n]);
      var tail := ps[n - 1 := ps[n - 1] + "#" + x][n := y];
      JoinShift(tail, n - 1, ps[n - 1], x);
      assert tail[n - 1 := ps[n - 1]][n := x + "#" + tail[n]] == ps;
      assert |tail[n]| < |ps[n]|;
      RebuiltCollides(k, tail);
      l := Rebuild(k, tail);
    }
  }

  /** Commit's prefix test recognises exactly the balance rows. */
  lemma {:induction false} BalancePrefix(k: Key)
    ensures "BAL#" <= Encode(k) <==> k.BalK?
  {
    EncodeIsJoin(k);
    if "BAL#" <= Encode(k) {
      var rest := Encode(k)[4..];
      assert Encode(k) == "BAL" + "#" + rest;
      HeadUnique("BAL", rest, Parts(k)[0], Join(Tail(k)));
    }
  }

  lemma {:induction false} OwnerPartitionInjective(t: string, ot: string, oi: string, t': string, ot': string,
      oi': string)
    requires HashFree(t) && HashFree(ot) && HashFree(t') && HashFree(ot')
    requires OwnerPartition(t, ot, oi) == OwnerPartition(t', ot', oi')
    ensures t == t' && ot == ot' && oi == oi'
  {
    var x, y := t + "#" + (ot + "#" + oi), t' + "#" + (ot' + "#" + oi');
    assert OwnerPartition(t, ot, oi) == "RESOWN" + "#" + x;
    assert OwnerPartition(t', ot', oi') == "RESOWN" + "#" + y;
    HeadUnique("RESOWN", x, "RESOWN", y);
    HeadUnique(t, ot + "#" + oi, t', ot' + "#" + oi');
    HeadUnique(ot, oi, ot', oi');
  }
}
