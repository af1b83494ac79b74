/** The bridge between the interleaved protocol and the imperative handlers: a transaction of a run is one
    handler call on the tables that its requests found. */
module Calls {
  import opened Ledger
  import opened Items
  import opened Handlers
  import opened Writes
  import opened Protocol
  import opened Serializability
  import opened Reachable
  import opened Service

  /** Read `i` of the transaction found the table as it was after `js[i]` actions. */
  ghost predicate Seen(t0: Table, actions: seq<Action>, log: seq<Answer>, js: seq<nat>) {
    && |js| == |log|
    && (forall i | 0 <= i < |js| :: SeenAt(t0, actions, log[i], js[i]))
    && (forall i, j | 0 <= i < j < |js| :: js[i] <= js[j])
    && (forall i | 0 <= i < |js| :: js[i] < |actions|)
  }

  ghost predicate SeenAt(t0: Table, actions: seq<Action>, a: Answer, j: nat) {
    j <= |actions| && Run(t0, actions[..j]).Some? && a.1 == Lookup(Run(t0, actions[..j]).value.table, a.0)
  }

  lemma {:induction false} SeenLonger(t0: Table, actions: seq<Action>, log: seq<Answer>, js: seq<nat>)
    requires actions != [] && Seen(t0, actions[..|actions| - 1], log, js)
    ensures Seen(t0, actions, log, js)
  {
    hide Run;
    forall i | 0 <= i < |js| ensures SeenAt(t0, actions, log[i], js[i]) {
      assert SeenAt(t0, actions[..|actions| - 1], log[i], js[i]);
      assert actions[..|actions| - 1][..js[i]] == actions[..js[i]];
    }
  }

  /** The reads of a live transaction are reads of earlier states of the run, in order. */
  lemma {:induction false} ReadsSeen(t0: Table, actions: seq<Action>, id: nat) returns (js: seq<nat>)
    requires Run(t0, actions).Some? && id in Run(t0, actions).value.live
    ensures Seen(t0, actions, Run(t0, actions).value.live[id].log, js)
  {
    hide Feed, Want, Start, CommitOn, AddAll, Seen;
    var n := |actions| - 1;
    var s, a := Run(t0, actions[..n]).value, actions[n];
    if a.BeginTx? && a.id == id {
      js := [];
      NothingSeen(t0, actions);
    } else {
      js := ReadsSeen(t0, actions[..n], id);
      SeenLonger(t0, actions, s.live[id].log, js);
      if a.ReadItem? && a.id == id {
        SeenMore(t0, actions, s.live[id].log, js,
          (Want(s.live[id].req, s.live[id].local), Lookup(s.table, Want(s.live[id].req, s.live[id].local))));
        js := js + [n];
      }
    }
  }

  lemma {:induction false} NothingSeen(t0: Table, actions: seq<Action>)
    ensures Seen(t0, actions, [], [])
  {
  }

  lemma {:induction false} SeenMore(t0: Table, actions: seq<Action>, log: seq<Answer>, js: seq<nat>, a: Answer)
    requires actions != [] && Seen(t0, actions[..|actions| - 1], log, js) && Seen(t0, actions, log, js)
    requires SeenAt(t0, actions, a, |actions| - 1)
    ensures Seen(t0, actions, log + [a], js + [|actions| - 1])
  {
    hide SeenAt;
  }

  /** The tables those reads found, and then the current one. */
  ghost function TablesOf(t0: Table, actions: seq<Action>, js: seq<nat>): nat -> Table {
    (i: nat) =>
      if i < |js| && js[i] <= |actions| && Run(t0, actions[..js[i]]).Some? then Run(t0, actions[..js[i]]).value.table
      else if Run(t0, actions).Some? then Run(t0, actions).value.table
      else t0
  }

  lemma {:induction false} TablesSound(t0: Table, actions: seq<Action>, js: seq<nat>, i: nat)
    requires Sound(t0) && Run(t0, actions).Some?
    ensures Sound(TablesOf(t0, actions, js)(i))
  {
    hide Run, Sound, Inv;
    RunKeepsInv(t0, actions);
    InvIsSound(t0, Run(t0, actions).value);
    if i < |js| && js[i] <= |actions| && Run(t0, actions[..js[i]]).Some? {
      RunKeepsInv(t0, actions[..js[i]]);
      InvIsSound(t0, Run(t0, actions[..js[i]]).value);
    }
  }

  /** What the protocol makes of a finished transaction: the answer of its client, and the table its write
      request leaves, if it sends one. */
  function Ending(s: State, out: Outcome): CallResult {
    match out
    case Fail(code) => CallResult(Err(code), None)
    case Done(ws, resp) =>
      var b := AddAll(Empty, ws);
      var (err, t) := CommitOn(s.table, b);
      CallResult(if err == None then Ok(resp) else Err(err.value),
        if 0 < |b.puts| <= MAX_TX_ITEMS then Some(t) else None)
  }

  lemma {:induction false} ConcludeIsEnding(s: State, out: Outcome, at: nat -> Table, m: nat)
    requires at(m) == s.table
    ensures Conclude(out, at, m) == Ending(s, out)
  {
    hide AddAll, AllHold, Written, Classify;
  }

  /** A finished transaction of a run is the complete call of its handler on tables that the run went
      through, all of them sound, the last being the table it commits on. */
  lemma {:induction false} LiveIsCall(t0: Table, actions: seq<Action>, id: nat) returns (at: nat -> Table)
    requires Sound(t0) && Run(t0, actions).Some?
    requires id in Run(t0, actions).value.live && Run(t0, actions).value.live[id].local.Finished?
    ensures forall i :: Sound(at(i))
    ensures forall i :: exists j: nat ::
              j <= |actions| && Run(t0, actions[..j]).Some? && at(i) == Run(t0, actions[..j]).value.table
    ensures var s := Run(t0, actions).value; var x := s.live[id];
            Call(x.req, x.env, at, 0) == Ending(s, x.local.out)
  {
    hide Run, Sound, Drive, Start, Feed, Want, StateAt, Conclude, Ending, Plays, SeenAt;
    var s := Run(t0, actions).value;
    var x := s.live[id];
    var js := ReadsSeen(t0, actions, id);
    at := TablesOf(t0, actions, js);
    RunKeepsInv(t0, actions);
    LiveOk(t0, s, id);
    forall i | 0 <= i < |x.log| ensures x.log[i].1 == Lookup(at(i), x.log[i].0) {
      FoundWhere(t0, actions, x.log, js, i);
    }
    LoggedRunIsDrive(x.req, x.env, x.log, at, 0);
    StateAtStart(x.req, x.env, x.log);
    ConcludeIsEnding(s, x.local.out, at, |x.log|);
    forall i: nat ensures Sound(at(i)) {
      TablesSound(t0, actions, js, i);
    }
    forall i: nat
      ensures exists j: nat ::
                j <= |actions| && Run(t0, actions[..j]).Some? && at(i) == Run(t0, actions[..j]).value.table
    {
      assert actions[..|actions|] == actions;
      var j := if i < |js| && js[i] <= |actions| && Run(t0, actions[..js[i]]).Some? then js[i] else |actions|;
      assert at(i) == Run(t0, actions[..j]).value.table;
    }
  }

  lemma {:induction false} FoundWhere(t0: Table, actions: seq<Action>, log: seq<Answer>, js: seq<nat>, i: nat)
    requires Seen(t0, actions, log, js) && i < |log|
    ensures log[i].1 == Lookup(TablesOf(t0, actions, js)(i), log[i].0)
  {
    hide Run;
    assert SeenAt(t0, actions, log[i], js[i]);
  }

  lemma {:induction false} StateAtStart(r: Request, env: Env, log: seq<Answer>)
    ensures StateAt(r, env, log, 0) == Start(r, env)
  {
    hide Start;
  }

  lemma {:induction false} LiveOk(t0: Table, s: State, id: nat)
    requires Inv(t0, s) && id in s.live
    ensures TxOk(s.table, s.live[id])
  {
    hide TxOk, Sound, Serial, SerialAnswers;
  }

  /** So whatever a server answers and writes when its store shows it those tables, which is what the
      contracts of its methods say, is what the protocol does. */
  lemma {:induction false} ServerIsProtocol(t0: Table, actions: seq<Action>, id: nat) returns (at: nat -> Table)
    requires Sound(t0) && Run(t0, actions).Some?
    requires id in Run(t0, actions).value.live && Run(t0, actions).value.live[id].local.Finished?
    ensures forall i :: Sound(at(i))
    ensures var s := Run(t0, actions).value; var x := s.live[id];
            forall res, was, wrote :: Answered(x.req, x.env, at, 0, res, was, wrote) <==>
              res == Ending(s, x.local.out).answer
              && wrote == (if Ending(s, x.local.out).wrote.Some? then Ending(s, x.local.out).wrote else was)
  {
    hide Run, Sound, Call, Ending;
    at := LiveIsCall(t0, actions, id);
  }
}
