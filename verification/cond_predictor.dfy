/**
  The checkpoint protocol of the conditional predictor: the history is copied when a branch is predicted,
  and training looks the tables up again with that copy, whatever the history has become since.
*/
module CondPredictors {
  import opened Bits
  import opened TageHistories
  import opened TageIndexing
  import opened TageRows
  import opened Tage

  /** Where a prediction looked: positions and tags of the banks, and the base entry. */
  datatype Asked = Asked(pc: nat, gi: seq<nat>, gtag: TagRow, bi: nat)

  ghost predicate LookedAt(a: Asked, h: Hist, lengths: seq<nat>)
    requires h.Ok() && NHIST < |h.chI| && |lengths| == |h.chI|
  {
    LookedUpAt(a.pc, h, lengths, a.gi, a.gtag) && a.bi == Low(Bits.Xor(a.pc, Shr(a.pc, 2)), LOGB)
  }

  class CondPredictor {
    const tage: TagePredictor
    const history: TageHistory
    const lengths: seq<nat>
    var checkpoints: map<nat, Hist>
    ghost var asked: map<nat, Asked>

    ghost predicate HistOk(h: Hist) {
      h.Ok() && NHIST < |h.chI| && |lengths| == |h.chI|
    }

    /** Every checkpoint still explains where its prediction looked. */
    ghost predicate Valid()
      reads this, history, history.ring, history.chI, history.chT0, history.chT1
      ensures Valid() ==> tage.Shape()
    {
      && tage.Shape()
      && history.Valid() && HistOk(history.Snapshot())
      && asked.Keys == checkpoints.Keys
      && forall k :: k in checkpoints ==> HistOk(checkpoints[k]) && LookedAt(asked[k], checkpoints[k], lengths)
    }

    constructor (tage: TagePredictor, history: TageHistory, lengths: seq<nat>)
      requires tage.Shape() && history.Valid() && NHIST < |history.Snapshot().chI| == |lengths|
      ensures Valid() && checkpoints == map[] && this.tage == tage && this.history == history && this.lengths == lengths
    {
      this.tage, this.history, this.lengths := tage, history, lengths;
      checkpoints, asked := map[], map[];
    }

    /** What the last lookup left is what the tables hold for the branch. */
    ghost predicate Found()
      reads tage, tage.low, tage.high, tage.basePred, tage.baseHyst, tage.useAlt
    {
      && tage.Addressed()
      && FoundIn(tage.CurrentRow(), tage.gtag, tage.BaseCounter(), tage.useAlt[..], tage.prediction, tage.altConf,
                 tage.tagePred)
    }

    /** Looks a branch up with a given history. */
    method Look(pc: nat, h: Hist) returns (ghost a: Asked)
      requires tage.Shape() && HistOk(h)
      modifies tage`gi, tage`gtag, tage`bi, tage`prediction, tage`tagePred, tage`altConf
      ensures Found() && tage.prediction.Ok() && a == Asked(pc, tage.gi, tage.gtag, tage.bi) && LookedAt(a, h, lengths)
    {
      hide LookedUpAt;
      hide RegistersOk;
      hide HighestMatch;
      hide RowAt;
      tage.Tagepred(pc, h, lengths);
      a := Asked(pc, tage.gi, tage.gtag, tage.bi);
    }

    /** Copies the history, unless the key is in use, and looks the branch up with it. */
    method Predict(key: nat, pc: nat)
      requires Valid()
      modifies this`checkpoints, this`asked, tage`gi, tage`gtag, tage`bi, tage`prediction, tage`tagePred, tage`altConf
      ensures Valid() && Found()
      ensures key !in old(checkpoints) ==> checkpoints == old(checkpoints)[key := history.Snapshot()]
      ensures key !in old(checkpoints) ==> asked == old(asked)[key := Asked(pc, tage.gi, tage.gtag, tage.bi)]
      ensures key in old(checkpoints) ==> checkpoints == old(checkpoints) && asked == old(asked)
      ensures LookedAt(Asked(pc, tage.gi, tage.gtag, tage.bi), history.Snapshot(), lengths)
    {
      hide LookedAt;
      hide OwnEntries;
      hide HighestMatch;
      hide RowAt;
      var h := history.Snapshot();
      ghost var a := Look(pc, h);
      if key !in checkpoints {
        checkpoints := checkpoints[key := h];
        asked := asked[key := a];
      }
    }

    /** Any branch moves the history on; no checkpoint moves with it. */
    method HistoryUpdate(b: Branch)
      requires Valid()
      modifies history, history.ring, history.chI, history.chT0, history.chT1
      ensures Valid() && history.Snapshot() == AfterBranch(old(history.Snapshot()), b)
    {
      hide LookedAt;
      hide AfterBranch;
      history.HistoryUpdate(b);
    }

    /** Looks a branch up as its prediction did. */
    method LookAgain(key: nat, pc: nat) returns (ghost row: Row)
      requires Valid() && key in checkpoints && asked[key].pc == pc
      modifies tage`gi, tage`gtag, tage`bi, tage`prediction, tage`tagePred, tage`altConf
      ensures Valid() && Found() && tage.prediction.Ok()
      ensures asked[key] == Asked(pc, tage.gi, tage.gtag, tage.bi)
      ensures RowIs(tage.low[..], tage.high[..], tage.gi, row) && row == tage.CurrentRow()
    {
      hide LookedUpAt;
      hide HighestMatch;
      hide RowAt;
      hide RegistersOk;
      ghost var before := asked[key];
      var h := checkpoints[key];
      ghost var a := Look(pc, h);
      SameLook(pc, h, lengths, before.gi, before.gtag, a.gi, a.gtag);
      row := tage.CurrentRow();
    }

    /** Trains exactly what the prediction looked at, with the outcome `dir`, and drops the checkpoint. */
    method Update(key: nat, pc: nat, dir: bool, uIncrement: nat, c: Circumstance) returns (ghost answer: Answer)
      requires Valid() && key in checkpoints && asked[key].pc == pc && uIncrement <= 126
      modifies this`checkpoints, this`asked, tage`gi, tage`gtag, tage`bi, tage`prediction, tage`tagePred, tage`altConf,
               tage`tick, tage.low, tage.high, tage.basePred, tage.baseHyst, tage.useAlt
      ensures Valid() && checkpoints == old(checkpoints) - {key} && asked == old(asked) - {key}
      ensures tage.Addressed() && old(asked[key]) == Asked(pc, tage.gi, tage.gtag, tage.bi)
      ensures Learns(old(tage.State()), tage.gi, tage.gtag, tage.bi, answer, dir, uIncrement, c, tage.State())
    {
      hide LookedAt;
      hide OwnEntries;
      hide HighestMatch;
      hide RowAt;
      hide OthersKept;
      hide Trained;
      hide ChoiceTrained;
      hide NoSkip;
      hide AllocationPass;
      hide BaseMoves;
      hide BaseStepped;
      hide BaseAt;
      hide BaseKept;
      hide FoundIn;
      hide Allocates;
      hide Ticks;
      hide Learns;
      ghost var t := tage.State();
      ghost var row := LookAgain(key, pc);
      var alloc;
      ghost var reset;
      alloc, reset := tage.Update(dir, c.predTaken, c.loadDependent, uIncrement, c.coins);
      answer := Answer(tage.prediction, tage.altConf, tage.tagePred, alloc, reset);
      PartsTeach(t, tage.gi, tage.gtag, tage.bi, answer, dir, uIncrement, c, tage.State());
      checkpoints := checkpoints - {key};
      asked := asked - {key};
    }
  }
}
