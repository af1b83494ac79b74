/** The converse of serializability: running handlers one at a time, each alone, is one of the runs of the
    protocol. */
module Completeness {
  import opened Ledger
  import opened Items
  import opened Handlers
  import opened Writes
  import opened Protocol
  import opened Serializability
  import opened Atomic
  import opened Reads

  lemma {:induction false} RunSnoc(t0: Table, actions: seq<Action>, a: Action)
    requires Run(t0, actions).Some? && Enabled(Run(t0, actions).value, a)
    ensures Run(t0, actions + [a]) == Some(Do(Run(t0, actions).value, a))
  {
    assert (actions + [a])[..|actions|] == actions;
  }

  /** A handler in flight can read on undisturbed until it is finished. */
  lemma {:induction false} ReadOn(t0: Table, actions: seq<Action>, id: nat, at: nat -> Table, n: nat)
      returns (longer: seq<Action>)
    requires Run(t0, actions).Some? && id in Run(t0, actions).value.live && Wf(Run(t0, actions).value.live[id].local)
    requires Constant(at, Run(t0, actions).value.table)
    ensures Run(t0, longer).Some?
    ensures var s, s' := Run(t0, actions).value, Run(t0, longer).value;
            && s'.table == s.table && s'.history == s.history && id in s'.live
            && s'.live.Keys == s.live.Keys
            && s'.live[id].req == s.live[id].req && s'.live[id].env == s.live[id].env
            && (forall j | j in s.live && j != id :: s'.live[j] == s.live[j])
            && s.live[id].log <= s'.live[id].log
            && s'.live[id].local == Drive(s.live[id].req, s.live[id].env, s.live[id].local, at, n).0
    decreases Phase(Run(t0, actions).value.live[id].local), Rank(Run(t0, actions).value.live[id].local)
  {
    hide Feed, Want, Run, Phase, Rank;
    var s := Run(t0, actions).value;
    var x := s.live[id];
    if x.local.Finished? {
      longer := actions;
      DriveFinished(x.req, x.env, x.local.out, at, n);
    } else {
      var a := ReadItem(id);
      assert at(n) == s.table;
      RunSnoc(t0, actions, a);
      FeedDecreases(x.req, x.env, x.local, Lookup(s.table, Want(x.req, x.local)));
      DriveStep(x.req, x.env, x.local, at, n);
      longer := ReadOn(t0, actions + [a], id, at, n + 1);
    }
  }

  /** Whatever happened before, a handler can begin, read and commit without anyone in between, and then
      does to the table what it does alone. */
  lemma {:induction false} AloneIsRun(t0: Table, actions: seq<Action>, id: nat, r: Request, env: Env)
      returns (longer: seq<Action>)
    requires Run(t0, actions).Some? && id !in Run(t0, actions).value.live && Sound(Run(t0, actions).value.table)
    ensures Run(t0, longer).Some?
    ensures var s, s' := Run(t0, actions).value, Run(t0, longer).value;
            var res := Alone(r, env, s.table);
            && s'.table == (if res.answer.Ok? && res.wrote.Some? then res.wrote.value else s.table)
            && s'.history == (if res.answer.Ok? && res.wrote.Some?
              then s.history + [Applied(r, env, res.answer.value)] else s.history)
            && s'.live == s.live
  {
    hide Feed, Want, Run, Drive, Start, Outcome1, AllHold, Written, Classify, AddAll, Alone;
    var s := Run(t0, actions).value;
    var at := (_: nat) => s.table;
    var begin := BeginTx(id, r, env);
    RunSnoc(t0, actions, begin);
    var s1 := Do(s, begin);
    longer := ReadOn(t0, actions + [begin], id, at, 0);
    var s2 := Run(t0, longer).value;
    DriveAlone(r, env, s.table, at, 0);
    AloneIs(r, env, s.table);
    var out := Outcome1(r, env, s.table);
    assert s2.live[id].local == Finished(out);
    if out.Fail? {
      RunSnoc(t0, longer, RollbackTx(id));
      longer := longer + [RollbackTx(id)];
    } else {
      NothingOrSomething(out.writes);
      RunSnoc(t0, longer, CommitTx(id));
      longer := longer + [CommitTx(id)];
    }
    assert s2.live - {id} == s.live;
  }

  lemma {:induction false} NothingOrSomething(ws: seq<Write>)
    ensures |AddAll(Empty, ws).puts| == 0 <==> ws == []
  {
    if ws != [] {
      NonEmptyBuffer(ws);
    }
  }

  datatype Submission = Submission(req: Request, env: Env)

  /** Handlers run alone, each on the table the previous one left; failures leave it as it is. */
  function OneByOne(t: Table, calls: seq<Submission>): Table {
    if calls == [] then t
    else
      var before := OneByOne(t, calls[..|calls| - 1]);
      var c := calls[|calls| - 1];
      var res := Alone(c.req, c.env, before);
      if res.answer.Ok? && res.wrote.Some? then res.wrote.value else before
  }

  /** Every serial execution is a run of the protocol. */
  lemma {:induction false} SerialIsRun(t0: Table, calls: seq<Submission>) returns (actions: seq<Action>)
    requires Sound(t0)
    ensures Run(t0, actions).Some?
    ensures Run(t0, actions).value.table == OneByOne(t0, calls) && Run(t0, actions).value.live == map[]
  {
    hide Run, Alone, Sound, Inv;
    if calls == [] {
      actions := [];
      EmptyRun(t0);
    } else {
      var n := |calls| - 1;
      var before := SerialIsRun(t0, calls[..n]);
      RunKeepsInv(t0, before);
      SoundState(t0, Run(t0, before).value);
      actions := AloneIsRun(t0, before, 0, calls[n].req, calls[n].env);
    }
  }

  lemma {:induction false} EmptyRun(t0: Table)
    ensures Run(t0, []) == Some(Initial(t0))
  {
  }

  lemma {:induction false} SoundState(t0: Table, s: State)
    requires Inv(t0, s)
    ensures Sound(s.table)
  {
    hide Sound, TxOk, Serial, SerialAnswers;
  }
}
