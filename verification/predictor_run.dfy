/**
  The predictor object driven by what the pipeline tells it: every training looks at exactly the entries
  that the prediction of its branch looked at.
*/
module PredictorRuns {
  import PipelineRuns
  import opened CondPredictors
  import opened Pipelines
  import opened Replays
  import opened Tage
  import opened TageHistories

  /** The object agrees with the replayed values, and remembers the branch of every checkpoint. */
  ghost predicate Agrees(predictor: CondPredictor, r: Predictor, ops: seq<Op>)
    requires predictor.Valid() && KeysOk(r, ops)
    reads predictor, predictor.history, predictor.history.ring, predictor.history.chI, predictor.history.chT0,
          predictor.history.chT1
  {
    && predictor.history.Snapshot() == r.hist
    && predictor.checkpoints == r.checkpoints
    && forall key :: key in r.asked ==> predictor.asked[key].pc == ops[r.asked[key]].uop.pc
  }

  lemma CalledKeepsKeys(r: Predictor, e: Event, ops: seq<Op>)
    requires KeysOk(r, ops) && e.id < |ops|
    ensures KeysOk(Called(r, e, ops), ops)
  {
  }

  // ---------------------------------------------------------------- what was looked at

  /** The prediction at `k` is the last of its micro-op before `n`. */
  ghost predicate LastAsked(log: seq<Event>, k: nat, n: nat) {
    k < n <= |log| && log[k].Predict? && forall m :: k < m < n ==> log[m] != log[k]
  }

  /** A checkpoint remembers where the last prediction of its micro-op looked. */
  ghost predicate Remembers(asked: map<nat, Asked>, r: Predictor, log: seq<Event>, looks: seq<Asked>, n: nat) {
    && |looks| == n <= |log| && r.asked.Keys <= asked.Keys
    && forall key :: key in r.asked ==>
         exists k: nat :: LastAsked(log, k, n) && log[k] == Event.Predict(r.asked[key]) && asked[key] == looks[k]
  }

  /** The training at `n` looked where the last prediction of its micro-op had looked. */
  ghost predicate LookedAgain(log: seq<Event>, looks: seq<Asked>, n: nat)
    requires n < |looks| <= |log|
  {
    log[n].Train? ==>
      exists k: nat :: LastAsked(log, k, n) && log[k] == Event.Predict(log[n].id) && looks[n] == looks[k]
  }

  /** The remembered looks after a call that looked at `a`. */
  function AskedAfter(asked: map<nat, Asked>, e: Event, ops: seq<Op>, a: Asked): map<nat, Asked>
    requires e.id < |ops|
  {
    var key := ops[e.id].Key();
    match e case Predict(_) => asked[key := a] case Train(_, _) => asked - {key} case _ => asked
  }

  /** A call leaves alone what is remembered under any key but its own. */
  lemma KeyAfter(asked: map<nat, Asked>, r: Predictor, e: Event, ops: seq<Op>, a: Asked, key: nat)
    requires KeysOk(r, ops) && e.id < |ops| && CanCall(r, e, ops) && r.asked.Keys <= asked.Keys
    requires key in Called(r, e, ops).asked
    ensures var r', asked' := Called(r, e, ops), AskedAfter(asked, e, ops, a);
            && key in asked'
            && (if e.Predict? && key == ops[e.id].Key() then r'.asked[key] == e.id && asked'[key] == a
                else key in r.asked && r'.asked[key] == r.asked[key] && asked'[key] == asked[key]
                     && e != Event.Predict(r.asked[key]))
  {
    hide Op.Key;
    hide AfterBranch;
    hide BranchOf;
  }

  lemma RemembersNext(asked: map<nat, Asked>, r: Predictor, log: seq<Event>, looks: seq<Asked>, n: nat, a: Asked,
                      ops: seq<Op>)
    requires n < |log| && Remembers(asked, r, log, looks, n) && KeysOk(r, ops)
    requires log[n].id < |ops| && CanCall(r, log[n], ops)
    ensures Remembers(AskedAfter(asked, log[n], ops, a), Called(r, log[n], ops), log, looks + [a], n + 1)
  {
    hide Op.Key;
    hide KeysOk;
    var asked', r', e := AskedAfter(asked, log[n], ops, a), Called(r, log[n], ops), log[n];
    hide AskedAfter;
    hide Called;
    hide CanCall;
    forall key | key in r'.asked
      ensures key in asked'
      ensures exists k: nat :: LastAsked(log, k, n + 1) && log[k] == Event.Predict(r'.asked[key])
                               && asked'[key] == (looks + [a])[k]
    {
      KeyAfter(asked, r, e, ops, a, key);
      if e.Predict? && key == ops[e.id].Key() {
        assert LastAsked(log, n, n + 1);
      } else {
        var k: nat :| LastAsked(log, k, n) && log[k] == Event.Predict(r.asked[key]) && asked[key] == looks[k];
        assert LastAsked(log, k, n + 1);
      }
    }
  }

  /** What is remembered for a training is where the last prediction of its micro-op looked. */
  lemma TrainingRemembered(asked: map<nat, Asked>, r: Predictor, log: seq<Event>, looks: seq<Asked>, n: nat,
                           ops: seq<Op>)
    requires n < |log| && Remembers(asked, r, log, looks, n) && log[n].Train?
    requires log[n].id < |ops| && CanCall(r, log[n], ops)
    ensures ops[log[n].id].Key() in asked
    ensures exists k: nat ::
              LastAsked(log, k, n) && log[k] == Event.Predict(log[n].id) && asked[ops[log[n].id].Key()] == looks[k]
  {
    hide Op.Key;
  }

  // ---------------------------------------------------------------- the calls

  /**
    The tables before and after a training with outcome `dir` at the place where the prediction looked.
  */
  ghost predicate LearnedAt(t: Tables, a: Asked, dir: bool, increment: nat, c: Circumstance, t': Tables) {
    exists answer: Answer :: Learns(t, a.gi, a.gtag, a.bi, answer, dir, increment, c, t')
  }

  /** A training looks where its checkpoint says, and teaches the outcome of the branch. */
  method CallUpdate(predictor: CondPredictor, e: Event, ops: seq<Op>, uIncrement: nat, c: Circumstance,
                    ghost r: Predictor)
    returns (ghost a: Asked)
    requires predictor.Valid() && KeysOk(r, ops) && Agrees(predictor, r, ops)
    requires e.id < |ops| && e.Train? && CanCall(r, e, ops) && uIncrement <= 126
    modifies predictor, predictor.tage, predictor.tage.low, predictor.tage.high, predictor.tage.basePred,
             predictor.tage.baseHyst, predictor.tage.useAlt
    ensures predictor.Valid() && KeysOk(Called(r, e, ops), ops) && Agrees(predictor, Called(r, e, ops), ops)
    ensures var key := ops[e.id].Key(); key in old(predictor.asked) && a == old(predictor.asked)[key]
    ensures a == Asked(ops[e.id].uop.pc, predictor.tage.gi, predictor.tage.gtag, predictor.tage.bi)
    ensures predictor.asked == AskedAfter(old(predictor.asked), e, ops, a)
    ensures LearnedAt(old(predictor.tage.State()), a, ops[e.id].uop.isTaken, uIncrement, c, predictor.tage.State())
  {
    hide LookedAt;
    hide Learns;
    hide Op.Key;
    hide AfterBranch;
    hide OwnEntries;
    CalledKeepsKeys(r, e, ops);
    var u, key := ops[e.id].uop, ops[e.id].Key();
    a := predictor.asked[key];
    ghost var answer := predictor.Update(key, u.pc, u.isTaken, uIncrement, c);
  }

  /** A prediction looks where the history of the moment says. */
  method CallPredict(predictor: CondPredictor, e: Event, ops: seq<Op>, ghost r: Predictor)
    requires predictor.Valid() && KeysOk(r, ops) && Agrees(predictor, r, ops)
    requires e.id < |ops| && e.Predict? && CanCall(r, e, ops)
    modifies predictor, predictor.tage
    ensures predictor.Valid() && KeysOk(Called(r, e, ops), ops) && Agrees(predictor, Called(r, e, ops), ops)
    ensures predictor.tage.State() == old(predictor.tage.State())
    ensures var a := Asked(ops[e.id].uop.pc, predictor.tage.gi, predictor.tage.gtag, predictor.tage.bi);
            && predictor.HistOk(r.hist) && LookedAt(a, r.hist, predictor.lengths)
            && predictor.asked == AskedAfter(old(predictor.asked), e, ops, a)
  {
    hide LookedAt;
    hide FoundIn;
    hide OwnEntries;
    hide Op.Key;
    hide AfterBranch;
    hide BranchOf;
    hide CondPredictor.Found;
    hide CondPredictor.HistOk;
    CalledKeepsKeys(r, e, ops);
    predictor.Predict(ops[e.id].Key(), ops[e.id].uop.pc);
  }

  /** A history update moves the history on. */
  method CallHistoryUpdate(predictor: CondPredictor, e: Event, ops: seq<Op>, ghost r: Predictor)
    requires predictor.Valid() && KeysOk(r, ops) && Agrees(predictor, r, ops)
    requires e.id < |ops| && e.SpecUpdate?
    modifies predictor.history, predictor.history.ring, predictor.history.chI, predictor.history.chT0,
             predictor.history.chT1
    ensures predictor.Valid() && KeysOk(Called(r, e, ops), ops) && Agrees(predictor, Called(r, e, ops), ops)
    ensures predictor.tage.State() == old(predictor.tage.State())
  {
    hide LookedAt;
    hide AfterBranch;
    hide BranchOf;
    hide Op.Key;
    predictor.HistoryUpdate(BranchOf(ops[e.id].uop));
  }

  /** A training teaches the outcome of its branch, and no other call changes the tables. */
  ghost predicate TablesAfter(t: Tables, e: Event, ops: seq<Op>, a: Asked, increment: nat, c: Circumstance, t': Tables)
    requires e.id < |ops|
  {
    if e.Train? then LearnedAt(t, a, ops[e.id].uop.isTaken, increment, c, t') else t' == t
  }

  /** One event of the log, as a call on the predictor; `a` is where a prediction or a training looks. */
  method Call(predictor: CondPredictor, e: Event, ops: seq<Op>, uIncrement: nat, c: Circumstance, ghost r: Predictor)
    returns (ghost a: Asked)
    requires predictor.Valid() && KeysOk(r, ops) && Agrees(predictor, r, ops)
    requires e.id < |ops| && CanCall(r, e, ops) && uIncrement <= 126
    modifies predictor, predictor.history, predictor.history.ring, predictor.history.chI, predictor.history.chT0,
             predictor.history.chT1, predictor.tage, predictor.tage.low, predictor.tage.high, predictor.tage.basePred,
             predictor.tage.baseHyst, predictor.tage.useAlt
    ensures predictor.Valid() && KeysOk(Called(r, e, ops), ops) && Agrees(predictor, Called(r, e, ops), ops)
    ensures a == Asked(ops[e.id].uop.pc, predictor.tage.gi, predictor.tage.gtag, predictor.tage.bi)
    ensures e.Predict? ==> predictor.HistOk(r.hist) && LookedAt(a, r.hist, predictor.lengths)
    ensures e.Train? ==> var key := ops[e.id].Key(); key in old(predictor.asked) && a == old(predictor.asked)[key]
    ensures predictor.asked == AskedAfter(old(predictor.asked), e, ops, a)
    ensures TablesAfter(old(predictor.tage.State()), e, ops, a, uIncrement, c, predictor.tage.State())
  {
    hide LookedAt;
    hide LearnedAt;
    hide AfterBranch;
    hide Op.Key;
    hide OwnEntries;
    hide BranchOf;
    match e {
      case Notify(_, _, _) =>
      case Predict(_) => CallPredict(predictor, e, ops, r);
      case SpecUpdate(_) => CallHistoryUpdate(predictor, e, ops, r);
      case Train(_, _) => a := CallUpdate(predictor, e, ops, uIncrement, c, r);
    }
    a := Asked(ops[e.id].uop.pc, predictor.tage.gi, predictor.tage.gtag, predictor.tage.bi);
  }

  /** The prediction at `n` looked where the history of that moment says. */
  ghost predicate LookedFirst(predictor: CondPredictor, h: LiveHist, log: seq<Event>, ops: seq<Op>, looks: seq<Asked>,
                              n: nat)
    requires IdsOk(log, ops) && n < |looks| <= |log|
  {
    log[n].Predict? ==>
      var now := Replayed(h, log[..n], ops).hist;
      && looks[n].pc == ops[log[n].id].uop.pc
      && predictor.HistOk(now) && LookedAt(looks[n], now, predictor.lengths)
  }

  lemma LooksGrow(predictor: CondPredictor, h: LiveHist, log: seq<Event>, ops: seq<Op>, looks: seq<Asked>, n: nat,
                  a: Asked)
    requires IdsOk(log, ops) && |looks| == n < |log|
    requires forall k: nat :: k < n ==> LookedFirst(predictor, h, log, ops, looks, k) && LookedAgain(log, looks, k)
    requires log[n].Predict? ==>
               var now := Replayed(h, log[..n], ops).hist;
               && a.pc == ops[log[n].id].uop.pc && predictor.HistOk(now) && LookedAt(a, now, predictor.lengths)
    requires log[n].Train? ==>
               exists k: nat :: LastAsked(log, k, n) && log[k] == Event.Predict(log[n].id) && a == looks[k]
    ensures forall k: nat :: k <= n ==>
              LookedFirst(predictor, h, log, ops, looks + [a], k) && LookedAgain(log, looks + [a], k)
  {
    hide LookedAt;
    hide Replayed;
    hide CondPredictor.HistOk;
    forall k: nat | k <= n
      ensures LookedFirst(predictor, h, log, ops, looks + [a], k) && LookedAgain(log, looks + [a], k)
    {
      if k < n {
        assert LookedFirst(predictor, h, log, ops, looks, k) && LookedAgain(log, looks, k);
      }
    }
  }

  lemma NothingRemembered(asked: map<nat, Asked>, h: LiveHist, log: seq<Event>, ops: seq<Op>)
    ensures KeysOk(Predictor(h, map[], map[]), ops) && Replayed(h, [], ops) == Predictor(h, map[], map[])
    ensures Remembers(asked, Predictor(h, map[], map[]), log, [], 0)
  {
  }

  /**
    The whole log of a run, call after call: every precondition holds, every training looks where the
    prediction of its branch looked, and the predictor ends with the replayed history and checkpoints.
  */
  method Replay(predictor: CondPredictor, log: seq<Event>, ops: seq<Op>, uIncrement: nat, cs: seq<Circumstance>,
                ghost h: LiveHist)
    returns (ghost looks: seq<Asked>, ghost tables: seq<Tables>)
    requires predictor.Valid() && predictor.checkpoints == map[] && predictor.history.Snapshot() == h
    requires IdsOk(log, ops) && ReplayOk(h, log, ops) && |cs| == |log| && uIncrement <= 126
    modifies predictor, predictor.history, predictor.history.ring, predictor.history.chI, predictor.history.chT0,
             predictor.history.chT1, predictor.tage, predictor.tage.low, predictor.tage.high, predictor.tage.basePred,
             predictor.tage.baseHyst, predictor.tage.useAlt
    ensures predictor.Valid()
    ensures predictor.history.Snapshot() == Replayed(h, log, ops).hist
    ensures predictor.checkpoints == Replayed(h, log, ops).checkpoints
    ensures |looks| == |log|
    ensures forall n: nat :: n < |log| ==> LookedFirst(predictor, h, log, ops, looks, n) && LookedAgain(log, looks, n)
    ensures |tables| == |log| + 1 && tables[0] == old(predictor.tage.State())
    ensures predictor.tage.State() == tables[|log|]
    ensures forall n :: 0 <= n < |log| ==>
              TablesAfter(tables[n], log[n], ops, looks[n], uIncrement, cs[n], tables[n + 1])
  {
    hide CondPredictor.Valid;
    hide Called;
    hide CanCall;
    hide LookedAt;
    hide Remembers;
    hide AskedAfter;
    hide KeysOk;
    hide LastAsked;
    hide Replayed;
    hide TablesAfter;
    hide LookedFirst;
    hide LookedAgain;
    var n := 0;
    ghost var r := Predictor(h, map[], map[]);
    assert log[..0] == [];
    looks, tables := [], [predictor.tage.State()];
    NothingRemembered(predictor.asked, h, log, ops);
    while n < |log|
      invariant n <= |log| && IdsOk(log[..n], ops) && r == Replayed(h, log[..n], ops)
      invariant predictor.Valid() && KeysOk(r, ops) && Agrees(predictor, r, ops)
      invariant |tables| == n + 1 && tables[0] == old(predictor.tage.State()) && predictor.tage.State() == tables[n]
      invariant |looks| == n
      invariant forall k :: 0 <= k < n ==>
                  TablesAfter(tables[k], log[k], ops, looks[k], uIncrement, cs[k], tables[k + 1])
      invariant Remembers(predictor.asked, r, log, looks, n)
      invariant forall k: nat :: k < n ==> LookedFirst(predictor, h, log, ops, looks, k) && LookedAgain(log, looks, k)
    {
      ghost var asked := predictor.asked;
      ghost var a := Call(predictor, log[n], ops, uIncrement, cs[n], r);
      RemembersNext(asked, r, log, looks, n, a, ops);
      if log[n].Train? {
        TrainingRemembered(asked, r, log, looks, n, ops);
      }
      ReplayExtends(h, log[..n], log[n], ops);
      assert log[..n + 1] == log[..n] + [log[n]];
      r := Called(r, log[n], ops);
      LooksGrow(predictor, h, log, ops, looks, n, a);
      looks, tables := looks + [a], tables + [predictor.tage.State()];
      n := n + 1;
    }
    assert log[..|log|] == log;
  }

  /** A micro-op is predicted before it trains, and its training looked where its prediction had looked. */
  ghost predicate TrainedWhereAsked(log: seq<Event>, looks: seq<Asked>) {
    && |looks| == |log|
    && forall n: nat, k: nat :: n < |log| && k < |log| && log[n].Train? && log[k] == Event.Predict(log[n].id) ==>
         k < n && looks[n] == looks[k]
  }

  /** When nothing is said twice, a micro-op's last prediction is its only one. */
  lemma OnePredictionEach(log: seq<Event>, looks: seq<Asked>)
    requires |looks| == |log| && forall k, l :: 0 <= k < l < |log| ==> log[k] != log[l]
    requires forall n: nat :: n < |log| ==> LookedAgain(log, looks, n)
    ensures TrainedWhereAsked(log, looks)
  {
    forall n: nat, k: nat | n < |log| && k < |log| && log[n].Train? && log[k] == Event.Predict(log[n].id)
      ensures k < n && looks[n] == looks[k]
    {
      assert LookedAgain(log, looks, n);
    }
  }

  /** Every training of a run teaches the outcome of its own branch, and nothing else changes the tables. */
  ghost predicate TaughtOutcomes(p: Pipe, looks: seq<Asked>, increment: nat, cs: seq<Circumstance>, tables: seq<Tables>)
  {
    && |looks| == |cs| == |p.log| && |tables| == |p.log| + 1
    && forall n :: 0 <= n < |p.log| ==>
         p.log[n].id < |p.ops| && TablesAfter(tables[n], p.log[n], p.ops, looks[n], increment, cs[n], tables[n + 1])
  }

  /** Driven by any run of the pipeline, the predictor is never called wrongly and ends as the pipeline has it. */
  method ReplayRun(predictor: CondPredictor, cfg: Config, inputs: seq<Input>, uIncrement: nat, cs: seq<Circumstance>,
                   h: LiveHist)
    returns (ghost looks: seq<Asked>, ghost tables: seq<Tables>)
    requires predictor.Valid() && predictor.checkpoints == map[] && predictor.history.Snapshot() == h
    requires cfg.windowSize > 0 && PipelineRuns.InputsOk(Start(h), cfg, inputs) && uIncrement <= 126
    requires |cs| == |PipelineRuns.Run(Start(h), cfg, inputs).log|
    modifies predictor, predictor.history, predictor.history.ring, predictor.history.chI, predictor.history.chT0,
             predictor.history.chT1, predictor.tage, predictor.tage.low, predictor.tage.high, predictor.tage.basePred,
             predictor.tage.baseHyst, predictor.tage.useAlt
    ensures predictor.Valid()
    ensures predictor.history.Snapshot() == PipelineRuns.Run(Start(h), cfg, inputs).hist
    ensures predictor.checkpoints == PipelineRuns.Run(Start(h), cfg, inputs).checkpoints
    ensures TrainedWhereAsked(PipelineRuns.Run(Start(h), cfg, inputs).log, looks)
    ensures tables != [] && tables[0] == old(predictor.tage.State())
    ensures predictor.tage.State() == tables[|tables| - 1]
    ensures TaughtOutcomes(PipelineRuns.Run(Start(h), cfg, inputs), looks, uIncrement, cs, tables)
  {
    hide CondPredictor.Valid;
    hide Replayed;
    hide ReplayOk;
    hide KeysOk;
    hide LookedFirst;
    hide LookedAgain;
    hide TrainedWhereAsked;
    hide TablesAfter;
    hide PipelineRuns.Run;
    hide PipelineRuns.InputsOk;
    EveryRunReplays(h, cfg, inputs);
    NothingTwice(h, cfg, inputs);
    var p := PipelineRuns.Run(Start(h), cfg, inputs);
    looks, tables := Replay(predictor, p.log, p.ops, uIncrement, cs, h);
    OnePredictionEach(p.log, looks);
  }
}
