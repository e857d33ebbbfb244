/**
  The loop predictor: how one entry counts the iterations of a loop, which loops it learns, and the
  skewed table that holds the entries.
*/
module LoopPredictors {
  import opened Common

  const ITERATIONS: nat := 1024
  const CONFLOOP: nat := 15
  const LOGL: nat := 5
  const LOOPTAG: nat := 10

  datatype LEntry = LEntry(nbIter: nat, confid: nat, currentIter: nat, tag: nat, age: nat, dir: bool) {
    /** LVALID: the entry is trusted. */
    predicate Trusted() {
      confid == CONFLOOP || confid * nbIter > 128
    }

    /** The direction `getloop` returns on a hit. */
    predicate Predicts() {
      if currentIter + 1 == nbIter then !dir else dir
    }

    ghost predicate InWidth() {
      nbIter < ITERATIONS && currentIter < ITERATIONS && confid <= CONFLOOP
    }
  }

  function Freed(e: LEntry): LEntry {
    e.(nbIter := 0, age := 0, confid := 0, currentIter := 0)
  }

  /** The exit of the loop, or what looked like one: `e` has counted the iteration already. */
  function AtExit(e: LEntry, taken: bool): LEntry {
    var counted :=
      if e.currentIter == e.nbIter then
        if e.nbIter < 3 then e.(dir := taken, nbIter := 0, age := 0, confid := 0)
        else e.(confid := if e.confid < CONFLOOP then e.confid + 1 else e.confid)
      else if e.nbIter == 0 then e.(confid := 0, nbIter := e.currentIter)
      else e.(nbIter := 0, confid := 0);
    counted.(currentIter := 0)
  }

  /** `loopupdate` on a hit, after `getloop` for the same branch; `older` says whether the entry also ages. */
  function Stepped(e: LEntry, taken: bool, older: bool): LEntry {
    if e.Trusted() && taken != e.Predicts() then Freed(e)
    else
      var aged := if e.Trusted() && older && e.age < CONFLOOP then e.(age := e.age + 1) else e;
      var next := aged.(currentIter := (aged.currentIter + 1) % ITERATIONS);
      var checked := if next.currentIter > next.nbIter then next.(confid := 0, nbIter := 0) else next;
      if taken != checked.dir then AtExit(checked, taken) else checked
  }

  /** A trusted entry that is wrong is freed; it keeps its tag and direction. */
  lemma WrongFrees(e: LEntry, taken: bool, older: bool)
    requires e.Trusted() && e.Predicts() != taken
    ensures Stepped(e, taken, older) == LEntry(0, 0, 0, e.tag, 0, e.dir)
  {
  }

  /** One that is right counts on, and ages by one step when it was of use. */
  lemma RightCounts(e: LEntry, taken: bool, older: bool)
    requires e.InWidth() && e.Trusted() && e.Predicts() == taken && e.nbIter >= 3 && e.currentIter < e.nbIter
    ensures var s := Stepped(e, taken, older);
            && s.nbIter == e.nbIter && s.dir == e.dir && s.tag == e.tag
            && s.age == (if older && e.age < CONFLOOP then e.age + 1 else e.age)
            && s.currentIter == (if taken == e.dir then e.currentIter + 1 else 0)
            && s.confid == (if taken == e.dir then e.confid else Min(e.confid + 1, CONFLOOP))
  {
  }

  /** A fresh entry for a loop whose body goes in direction `body`. */
  predicate JustAllocated(e: LEntry, body: bool) {
    e.nbIter == 0 && e.confid == 0 && e.currentIter == 0 && e.dir == body
  }

  /** Iteration `r` of a loop of `n` iterations: all but the last go in the body's direction. */
  function Outcome(n: nat, r: nat, body: bool): bool {
    if r + 1 == n then !body else body
  }

  /** The entry after `q` complete traversals and `r` iterations of the next, driven by the true outcomes. */
  function Driven(e: LEntry, n: nat, body: bool, older: (nat, nat) -> bool, q: nat, r: nat): LEntry
    requires r < n
    decreases q, r
  {
    if r > 0 then Stepped(Driven(e, n, body, older, q, r - 1), Outcome(n, r - 1, body), older(q, r - 1))
    else if q > 0 then Stepped(Driven(e, n, body, older, q - 1, n - 1), Outcome(n, n - 1, body), older(q - 1, n - 1))
    else e
  }

  /** Trusted, and right about the coming iteration. */
  predicate Right(e: LEntry, n: nat, r: nat, body: bool) {
    e.Trusted() && e.Predicts() == Outcome(n, r, body)
  }

  lemma StepCounts(d: LEntry, n: nat, body: bool, older: bool, q: nat, r: nat)
    requires 3 <= n < ITERATIONS && r < n
    requires d.currentIter == r && d.dir == body
    requires d.nbIter == (if q == 0 then 0 else n)
    requires d.confid == (if q == 0 then 0 else Min(q - 1, CONFLOOP))
    ensures var s := Stepped(d, Outcome(n, r, body), older);
            && s.dir == body
            && s.currentIter == (if r + 1 == n then 0 else r + 1)
            && s.nbIter == (if q == 0 && r + 1 < n then 0 else n)
            && s.confid == (if r + 1 < n then d.confid else if q == 0 then 0 else Min(q, CONFLOOP))
  {
  }

  /** What the entry has counted at every point of every traversal. */
  lemma {:induction false} CountedSoFar(e: LEntry, n: nat, body: bool, older: (nat, nat) -> bool, q: nat, r: nat)
    requires JustAllocated(e, body) && 3 <= n < ITERATIONS && r < n
    ensures var d := Driven(e, n, body, older, q, r);
            && d.currentIter == r && d.dir == body
            && d.nbIter == (if q == 0 then 0 else n)
            && d.confid == (if q == 0 then 0 else Min(q - 1, CONFLOOP))
    decreases q, r
  {
    if r > 0 {
      CountedSoFar(e, n, body, older, q, r - 1);
      StepCounts(Driven(e, n, body, older, q, r - 1), n, body, older(q, r - 1), q, r - 1);
    } else if q > 0 {
      CountedSoFar(e, n, body, older, q - 1, n - 1);
      StepCounts(Driven(e, n, body, older, q - 1, n - 1), n, body, older(q - 1, n - 1), q - 1, n - 1);
    }
  }

  lemma NeverTrusted(e: LEntry)
    requires e.confid == 0
    ensures !e.Trusted()
  {
  }

  /** From 16 traversals on, a loop of 3 to 1023 iterations is predicted right at every iteration. */
  lemma LoopLearned(e: LEntry, n: nat, body: bool, older: (nat, nat) -> bool, q: nat, r: nat)
    requires JustAllocated(e, body) && 3 <= n < ITERATIONS && r < n && q >= 16
    ensures Right(Driven(e, n, body, older, q, r), n, r, body)
  {
    CountedSoFar(e, n, body, older, q, r);
  }

  /** Trust comes earlier for long loops: as soon as confidence times length exceeds 128. */
  lemma TrustedFrom(e: LEntry, n: nat, body: bool, older: (nat, nat) -> bool, q: nat, r: nat)
    requires JustAllocated(e, body) && 3 <= n < ITERATIONS && r < n && q > 0
    ensures Right(Driven(e, n, body, older, q, r), n, r, body) <==> q >= 16 || (q - 1) * n > 128
  {
    CountedSoFar(e, n, body, older, q, r);
  }

  // ---------------------------------------------------------------- the loops that are not learned

  /** What keeps a short loop's entry from earning confidence; `next` is the coming outcome. */
  predicate Untrusted(e: LEntry, n: nat, next: bool) {
    && e.confid == 0 && e.nbIter <= 2
    && (n == 1 && e.dir != next ==> e.currentIter == 0)
    && (n == 2 ==> e.currentIter <= (if next != e.dir then 1 else 0))
  }

  lemma ShortStep(e: LEntry, n: nat, taken: bool, older: bool)
    requires 1 <= n <= 2 && Untrusted(e, n, taken)
    ensures Untrusted(Stepped(e, taken, older), n, if n == 1 then taken else !taken)
  {
  }

  lemma UntrustedAtFirst(e: LEntry, n: nat, body: bool)
    requires JustAllocated(e, body)
    ensures Untrusted(e, n, Outcome(n, 0, body))
  {
  }

  /** A loop of one or two iterations never earns any confidence. */
  lemma {:induction false} ShortLoopUntrusted(e: LEntry, n: nat, body: bool, older: (nat, nat) -> bool, q: nat, r: nat)
    requires JustAllocated(e, body) && 1 <= n <= 2 && r < n
    ensures Untrusted(Driven(e, n, body, older, q, r), n, Outcome(n, r, body))
    decreases q, r
  {
    hide Stepped;
    hide Untrusted;
    if r > 0 {
      ShortLoopUntrusted(e, n, body, older, q, r - 1);
      ShortStep(Driven(e, n, body, older, q, r - 1), n, Outcome(n, r - 1, body), older(q, r - 1));
    } else if q > 0 {
      ShortLoopUntrusted(e, n, body, older, q - 1, n - 1);
      ShortStep(Driven(e, n, body, older, q - 1, n - 1), n, Outcome(n, n - 1, body), older(q - 1, n - 1));
    } else {
      UntrustedAtFirst(e, n, body);
    }
  }

  lemma ExitClears(e: LEntry, taken: bool, older: bool)
    requires Stepped(e, taken, older).dir != taken
    ensures Stepped(e, taken, older).currentIter == 0
  {
  }

  lemma StepInWidth(e: LEntry, taken: bool, older: bool)
    requires e.InWidth()
    ensures Stepped(e, taken, older).InWidth()
  {
  }

  lemma {:induction false} StaysInWidth(e: LEntry, n: nat, body: bool, older: (nat, nat) -> bool, q: nat, r: nat)
    requires e.InWidth() && r < n
    ensures Driven(e, n, body, older, q, r).InWidth()
    decreases q, r
  {
    hide Stepped;
    if r > 0 {
      StaysInWidth(e, n, body, older, q, r - 1);
      StepInWidth(Driven(e, n, body, older, q, r - 1), Outcome(n, r - 1, body), older(q, r - 1));
    } else if q > 0 {
      StaysInWidth(e, n, body, older, q - 1, n - 1);
      StepInWidth(Driven(e, n, body, older, q - 1, n - 1), Outcome(n, n - 1, body), older(q - 1, n - 1));
    }
  }

  /** A right step inside the body, whose result is trusted, only counts. */
  lemma RightStepCounts(d: LEntry, body: bool, older: bool)
    requires d.Trusted() && d.Predicts() == body && d.dir == body && d.currentIter + 1 < ITERATIONS
    requires Stepped(d, body, older).Trusted()
    ensures var s := Stepped(d, body, older);
            s.dir == body && s.nbIter == d.nbIter && s.currentIter == d.currentIter + 1
  {
  }

  /** While every iteration of a long loop is predicted right, the entry just counts. */
  lemma {:induction false} LongLoopCounts(e: LEntry, n: nat, body: bool, older: (nat, nat) -> bool, q: nat, r: nat)
    requires n >= ITERATIONS && q > 0 && r < ITERATIONS - 1
    requires forall i :: 0 <= i <= r ==> Right(Driven(e, n, body, older, q, i), n, i, body)
    ensures var s := Driven(e, n, body, older, q, 0);
            var d := Driven(e, n, body, older, q, r);
            s.dir == body ==> d.dir == body && d.nbIter == s.nbIter && d.currentIter == r && r + 1 != d.nbIter
  {
    hide Stepped;
    hide LEntry.Trusted;
    var before := Driven(e, n, body, older, q - 1, n - 1);
    if Driven(e, n, body, older, q, 0).dir == body {
      ExitClears(before, !body, older(q - 1, n - 1));
      if r > 0 {
        LongLoopCounts(e, n, body, older, q, r - 1);
        var d := Driven(e, n, body, older, q, r - 1);
        assert Right(d, n, r - 1, body) && Right(Driven(e, n, body, older, q, r), n, r, body);
        RightStepCounts(d, body, older(q, r - 1));
      }
      assert Right(Driven(e, n, body, older, q, r), n, r, body);
    }
  }

  lemma WrongDirectionFails(s: LEntry, body: bool, older: bool)
    requires s.dir != body && s.Trusted() && s.Predicts() == body && s.currentIter < ITERATIONS && s.nbIter < ITERATIONS
    ensures var t := Stepped(s, body, older); !(t.Trusted() && t.Predicts() == body)
  {
  }

  /** No entry predicts a whole traversal of more than 1023 iterations right. */
  lemma LongLoopFails(e: LEntry, n: nat, body: bool, older: (nat, nat) -> bool, q: nat)
    requires e.InWidth() && n >= ITERATIONS && q > 0
    ensures exists r :: 0 <= r < n && !Right(Driven(e, n, body, older, q, r), n, r, body)
  {
    if forall r :: 0 <= r < n ==> Right(Driven(e, n, body, older, q, r), n, r, body) {
      var s := Driven(e, n, body, older, q, 0);
      StaysInWidth(e, n, body, older, q, 0);
      assert Right(s, n, 0, body) && Right(Driven(e, n, body, older, q, 1), n, 1, body);
      if s.dir == body {
        var r := if s.nbIter == 0 then 1 else s.nbIter - 1;
        LongLoopCounts(e, n, body, older, q, r);
        LongLoopCounts(e, n, body, older, q, 0);
        if s.nbIter == 0 {
          NeverTrusted(Stepped(s, body, older(q, 0)));
        }
        assert false;
      } else {
        WrongDirectionFails(s, body, older(q, 0));
        assert false;
      }
    }
  }

  ghost predicate Learns(e: LEntry, n: nat, body: bool, older: (nat, nat) -> bool) {
    forall q, r :: q >= 16 && 0 <= r < n ==> Right(Driven(e, n, body, older, q, r), n, r, body)
  }

  /** The loop predictor learns exactly the loops of 3 to 1023 iterations. */
  lemma LearnsIff(e: LEntry, n: nat, body: bool, older: (nat, nat) -> bool)
    requires JustAllocated(e, body) && n > 0
    ensures Learns(e, n, body, older) <==> 3 <= n < ITERATIONS
  {
    if 3 <= n < ITERATIONS {
      forall q, r | q >= 16 && 0 <= r < n
        ensures Right(Driven(e, n, body, older, q, r), n, r, body)
      {
        LoopLearned(e, n, body, older, q, r);
      }
    } else if n < 3 {
      ShortLoopUntrusted(e, n, body, older, 16, 0);
      NeverTrusted(Driven(e, n, body, older, 16, 0));
      assert !Right(Driven(e, n, body, older, 16, 0), n, 0, body);
    } else {
      LongLoopFails(e, n, body, older, 16);
    }
  }
}
