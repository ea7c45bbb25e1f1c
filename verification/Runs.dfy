// The invariant of the whole engine holds after every run.
module Runs {
  import opened Log
  import opened Engine
  import opened EngineLocks
  import opened EngineLog
  import opened EngineData
  import opened EngineReads
  import opened EngineCheckpoint
  import W = Wal

  ghost predicate Inv(s: State) {
    LockInv(s) && LogInv(s) && DataInv(s) && ReadInv(s) && CheckpointInv(s)
  }

  lemma InvInit()
    ensures Inv(INIT)
  {
    assert W.All(W.FRESH) == [];
    assert LogInv(INIT);
    DataInit();
    assert LockInv(INIT) && ReadInv(INIT);
  }

  lemma DataInit()
    ensures DataInv(INIT) && CheckpointInv(INIT)
  {
    assert W.All(W.FRESH) == [];
    assert Fold([]) == map[];
    assert Matches([], []);
    assert W.All(INIT.wal)[..0] == [];
  }

  lemma InvStep(s: State, a: Action)
    requires Inv(s) && Enabled(s, a)
    ensures Inv(Do(s, a))
  {
    LockInvStep(s, a);
    LogInvStep(s, a);
    DataInvStep(s, a);
    ReadInvStep(s, a);
    CheckpointInvStep(s, a);
  }

  lemma {:induction false} InvAlways(run: seq<Action>)
    requires Legal(run)
    ensures Inv(After(run))
  {
    if run == [] {
      Start();
      InvInit();
    } else {
      Last(run);
      InvAlways(run[..|run| - 1]);
      InvStep(After(run[..|run| - 1]), run[|run| - 1]);
    }
  }
}
