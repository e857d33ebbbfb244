/**
  When blocks arrive, over whole runs: every cache keeps of a block the cycle in which the miss that last
  brought it in was answered, and answers later accesses from that.
*/
module CacheArrivals {
  import opened Bits
  import opened CacheLevels
  import opened CacheRuns
  import opened Common
  import opened LruSets

  predicate SameBlock(cfg: Config, a: nat, b: nat) {
    a / Pow2(cfg.offsetBits) == b / Pow2(cfg.offsetBits)
  }

  lemma BlockIsQuotient(cfg: Config, a: nat, b: nat)
    ensures SameBlock(cfg, a, b) <==> cfg.Index(a) == cfg.Index(b) && cfg.Tag(a) == cfg.Tag(b)
  {
    ShrIsDiv(a, cfg.offsetBits);
    ShrIsDiv(b, cfg.offsetBits);
    SetAndTagNameTheBlock(cfg, a, b);
  }

  // ---------------------------------------------------------------- one set

  lemma DepthIs(stack: seq<Line>, tag: nat, d: nat)
    requires d <= |stack| && (d < |stack| ==> stack[d].tag == tag) && forall i :: 0 <= i < d ==> stack[i].tag != tag
    ensures Depth(stack, tag) == d
  {
  }

  /** A used line comes first; as a new one it brings its arrival, and otherwise keeps the one it had. */
  lemma UsedLineFirst(stack: seq<Line>, line: Line, assoc: nat)
    requires |stack| <= assoc && assoc > 0
    ensures var after, d := Accessed(stack, line, assoc), Depth(stack, line.tag);
            && Depth(after, line.tag) == 0 && after != []
            && after[0].avail == if d < |stack| then stack[d].avail else line.avail
  {
    DepthIs(Accessed(stack, line, assoc), line.tag, 0);
  }

  lemma TouchedKeeps(stack: seq<Line>, d: nat, tag: nat)
    requires d < |stack| && tag != stack[d].tag
    ensures var after, e := Touched(stack, d), Depth(stack, tag);
            && Depth(after, tag) == (if e < d then e + 1 else e)
            && (e < |stack| ==> after[Depth(after, tag)] == stack[e])
  {
    var e := Depth(stack, tag);
    DepthIs(Touched(stack, d), tag, if e < d then e + 1 else e);
  }

  lemma FilledKeeps(stack: seq<Line>, line: Line, assoc: nat, tag: nat)
    requires |stack| <= assoc && assoc > 0 && tag != line.tag
    ensures var after := Filled(stack, line, assoc);
            Depth(after, tag) < |after| ==>
              Depth(stack, tag) < |stack| && after[Depth(after, tag)] == stack[Depth(stack, tag)]
  {
    var after, e := Filled(stack, line, assoc), Depth(stack, tag);
    if e + 1 < |after| {
      DepthIs(after, tag, e + 1);
    } else {
      DepthIs(after, tag, |after|);
    }
  }

  lemma TouchedSize(stack: seq<Line>, d: nat)
    requires d < |stack|
    ensures |Touched(stack, d)| == |stack|
  {
  }

  /** Every other line that stays keeps its arrival. */
  lemma OtherLinesKeep(stack: seq<Line>, line: Line, assoc: nat, tag: nat)
    requires |stack| <= assoc && assoc > 0 && tag != line.tag
    ensures var after := Accessed(stack, line, assoc);
            Depth(after, tag) < |after| ==>
              Depth(stack, tag) < |stack| && after[Depth(after, tag)] == stack[Depth(stack, tag)]
  {
    hide Touched;
    hide Filled;
    if Depth(stack, line.tag) < |stack| {
      TouchedKeeps(stack, Depth(stack, line.tag), tag);
      TouchedSize(stack, Depth(stack, line.tag));
    } else {
      FilledKeeps(stack, line, assoc, tag);
    }
  }

  // ---------------------------------------------------------------- one level

  /** What an access changes at one level: its block is there, with its arrival, and others keep theirs. */
  lemma ArrivalAfter(l: Level, addr: nat, pf: bool, avail: nat, x: nat)
    requires l.Ok()
    ensures var after := l.After(addr, pf, avail);
            && (SameBlock(l.cfg, x, addr) ==>
                  && (l.Holds(x) <==> l.Holds(addr)) && after.Holds(x)
                  && after.Arrival(x) == if l.Holds(addr) then l.Arrival(addr) else avail)
            && (!SameBlock(l.cfg, x, addr) && after.Holds(x) ==> l.Holds(x) && after.Arrival(x) == l.Arrival(x))
  {
    var line := Line(l.cfg.Tag(addr), avail);
    BlockIsQuotient(l.cfg, x, addr);
    UsedLineFirst(l.Stack(addr), line, l.cfg.assoc);
    if l.cfg.Index(x) == l.cfg.Index(addr) && l.cfg.Tag(x) != l.cfg.Tag(addr) {
      OtherLinesKeep(l.Stack(addr), line, l.cfg.assoc, l.cfg.Tag(x));
    }
    hide SameBlock;
    hide Config.Index;
    hide Config.Tag;
    hide Accessed;
  }

  // ---------------------------------------------------------------- runs of a level

  /** An access as one level sees it: where it missed, `answer` is what the level below gave. */
  datatype Visit = Visit(addr: nat, cycle: nat, missed: bool, answer: nat)

  /** The visit at `k` is the last miss on the block of `addr`. */
  ghost predicate LastFill(cfg: Config, log: seq<Visit>, k: nat, addr: nat) {
    && k < |log| && log[k].missed && SameBlock(cfg, addr, log[k].addr)
    && forall j :: k < j < |log| ==> !(log[j].missed && SameBlock(cfg, addr, log[j].addr))
  }

  /** A held block has arrived when the miss that last brought it in was answered. */
  ghost predicate ArrivesAsAnswered(l: Level, log: seq<Visit>) {
    l.Ok() && forall x: nat :: l.Holds(x) ==>
      exists k: nat :: LastFill(l.cfg, log, k, x) && l.Arrival(x) == log[k].answer
  }

  /** A hit is answered at once, or when that answer comes. */
  ghost predicate HitAnswered(cfg: Config, log: seq<Visit>, n: nat) {
    n < |log| && !log[n].missed ==>
      exists k: nat :: LastFill(cfg, log[..n], k, log[n].addr)
                       && log[n].answer == Max(log[k].answer, log[n].cycle + cfg.latency)
  }

  ghost predicate Answers(l: Level, log: seq<Visit>) {
    ArrivesAsAnswered(l, log) && forall n: nat :: n < |log| ==> HitAnswered(l.cfg, log, n)
  }

  lemma FillStays(cfg: Config, log: seq<Visit>, k: nat, x: nat, v: Visit)
    requires LastFill(cfg, log, k, x) && !(v.missed && SameBlock(cfg, x, v.addr))
    ensures LastFill(cfg, log + [v], k, x)
  {
    hide SameBlock;
  }

  lemma VisitArrives(l: Level, log: seq<Visit>, pf: bool, v: Visit)
    requires ArrivesAsAnswered(l, log) && v.missed == !l.Holds(v.addr)
    ensures ArrivesAsAnswered(l.After(v.addr, pf, v.answer), log + [v])
  {
    var after := l.After(v.addr, pf, v.answer);
    forall x: nat | after.Holds(x)
      ensures exists k: nat :: LastFill(l.cfg, log + [v], k, x) && after.Arrival(x) == (log + [v])[k].answer
    {
      ArrivalAfter(l, v.addr, pf, v.answer, x);
      hide SameBlock;
      hide Level.After;
      hide Level.Holds;
      hide Level.Arrival;
      if v.missed && SameBlock(l.cfg, x, v.addr) {
        assert LastFill(l.cfg, log + [v], |log|, x);
      } else {
        ArrivalAfter(l, v.addr, pf, v.answer, v.addr);
        var k: nat :| LastFill(l.cfg, log, k, x) && l.Arrival(x) == log[k].answer;
        FillStays(l.cfg, log, k, x, v);
      }
    }
  }

  lemma VisitAnswers(l: Level, log: seq<Visit>, pf: bool, v: Visit)
    requires Answers(l, log) && v.missed == !l.Holds(v.addr)
    requires !v.missed ==> v.answer == Max(l.Arrival(v.addr), v.cycle + l.cfg.latency)
    ensures Answers(l.After(v.addr, pf, v.answer), log + [v])
  {
    hide Level.After;
    hide Level.Holds;
    hide Level.Arrival;
    VisitArrives(l, log, pf, v);
    assert (log + [v])[..|log|] == log;
    hide LastFill;
    forall n: nat | n < |log| + 1
      ensures HitAnswered(l.cfg, log + [v], n)
    {
      if n < |log| {
        assert HitAnswered(l.cfg, log, n);
        assert (log + [v])[..n] == log[..n];
      }
    }
  }

  // ---------------------------------------------------------------- runs of a hierarchy

  lemma HitIgnoresArrival(l: Level, addr: nat, pf: bool, a: nat, b: nat)
    requires l.Ok() && l.Holds(addr)
    ensures l.After(addr, pf, a) == l.After(addr, pf, b)
  {
  }

  ghost predicate ChainAnswers(chain: seq<Level>, logs: seq<seq<Visit>>) {
    |logs| == |chain| && forall i :: 0 <= i < |chain| ==> Answers(chain[i], logs[i])
  }

  /** The logs after one more access: each level that is searched adds what it answered. */
  ghost function Visited(chain: seq<Level>, memory: nat, logs: seq<seq<Visit>>, r: Request): (ls: seq<seq<Visit>>)
    requires ChainOk(chain) && |logs| == |chain|
    ensures |ls| == |logs|
    decreases |chain|
  {
    if chain == [] then []
    else
      var l := chain[0];
      var v := Visit(r.addr, r.cycle, !l.Holds(r.addr), Access(chain, memory, r.cycle, r.addr, r.pf).avail);
      [logs[0] + [v]]
      + (if l.Holds(r.addr) then logs[1..]
         else Visited(chain[1..], memory, logs[1..], r.(cycle := r.cycle + l.cfg.latency)))
  }

  /** What a miss gets is what the next level answers once this one has been searched, or the memory. */
  lemma MissTakesFromBelow(chain: seq<Level>, memory: nat, logs: seq<seq<Visit>>, r: Request)
    requires ChainOk(chain) && |logs| == |chain| && chain != [] && !chain[0].Holds(r.addr)
    ensures var ls := Visited(chain, memory, logs, r);
            && ls[0] != [] && ls[0][|ls[0]| - 1].missed
            && var got := ls[0][|ls[0]| - 1].answer;
               if |chain| == 1 then got == r.cycle + chain[0].cfg.latency + memory
               else ls[1] != [] && var v := ls[1][|ls[1]| - 1];
                    v.answer == got && v.cycle == r.cycle + chain[0].cfg.latency && v.addr == r.addr
  {
    hide Level.After;
    hide Level.Holds;
    AccessHere(chain, memory, r.cycle, r.addr, r.pf);
  }

  lemma AnswersTail(chain: seq<Level>, logs: seq<seq<Visit>>)
    requires chain != [] && ChainAnswers(chain, logs)
    ensures |logs| == |chain| && Answers(chain[0], logs[0]) && ChainAnswers(chain[1..], logs[1..])
  {
    hide Answers;
  }

  lemma AnswersCons(l: Level, log: seq<Visit>, rest: seq<Level>, logs: seq<seq<Visit>>)
    requires Answers(l, log) && ChainAnswers(rest, logs)
    ensures ChainAnswers([l] + rest, [log] + logs)
  {
    hide Answers;
  }

  lemma NothingAnswered()
    ensures ChainAnswers([], [])
  {
  }

  lemma {:induction false} AccessAnswers(chain: seq<Level>, memory: nat, logs: seq<seq<Visit>>, r: Request)
    requires ChainOk(chain) && ChainAnswers(chain, logs)
    ensures ChainAnswers(Access(chain, memory, r.cycle, r.addr, r.pf).chain, Visited(chain, memory, logs, r))
    decreases |chain|
  {
    hide Level.After;
    hide Level.Holds;
    hide Level.Arrival;
    hide ChainAnswers;
    hide Answers;
    if chain == [] {
      NothingAnswered();
    } else {
      var l := chain[0];
      AnswersTail(chain, logs);
      AccessHere(chain, memory, r.cycle, r.addr, r.pf);
      assert l.Ok() && ChainOk(chain[1..]) && |logs| == |chain|;
      hide ChainOk;
      var avail := Access(chain, memory, r.cycle, r.addr, r.pf).avail;
      var v := Visit(r.addr, r.cycle, !l.Holds(r.addr), avail);
      VisitAnswers(l, logs[0], r.pf, v);
      if l.Holds(r.addr) {
        HitIgnoresArrival(l, r.addr, r.pf, avail, l.Arrival(r.addr));
        AnswersCons(l.After(r.addr, r.pf, avail), logs[0] + [v], chain[1..], logs[1..]);
      } else {
        var later := r.(cycle := r.cycle + l.cfg.latency);
        AccessAnswers(chain[1..], memory, logs[1..], later);
        var below := Access(chain[1..], memory, later.cycle, r.addr, r.pf);
        AnswersCons(l.After(r.addr, r.pf, avail), logs[0] + [v], below.chain,
                    Visited(chain[1..], memory, logs[1..], later));
      }
    }
  }

  // ---------------------------------------------------------------- runs of the simulator's caches

  datatype Logs = Logs(l1: seq<Visit>, ic: seq<Visit>, shared: seq<seq<Visit>>)

  ghost function LogsAfter(sys: System, memory: nat, logs: Logs, r: SystemRequest): (s: Logs)
    requires sys.Ok() && |logs.shared| == |sys.shared|
    ensures |s.shared| == |sys.shared|
  {
    var chain := [if r.port.Data? then sys.l1 else sys.ic] + sys.shared;
    var ls := Visited(chain, memory, [if r.port.Data? then logs.l1 else logs.ic] + logs.shared, r.req);
    if r.port.Data? then Logs(ls[0], logs.ic, ls[1..]) else Logs(logs.l1, ls[0], ls[1..])
  }

  ghost function LogsAfterAll(sys: System, memory: nat, logs: Logs, reqs: seq<SystemRequest>): (s: Logs)
    requires sys.Ok() && |logs.shared| == |sys.shared|
    ensures |s.shared| == |sys.shared|
    decreases |reqs|
  {
    if reqs == [] then logs
    else LogsAfterAll(Serve(sys, memory, reqs[0]), memory, LogsAfter(sys, memory, logs, reqs[0]), reqs[1..])
  }

  ghost predicate SystemAnswers(sys: System, logs: Logs) {
    Answers(sys.l1, logs.l1) && Answers(sys.ic, logs.ic) && ChainAnswers(sys.shared, logs.shared)
  }

  lemma ServeAnswers(sys: System, memory: nat, logs: Logs, r: SystemRequest)
    requires sys.Ok() && SystemAnswers(sys, logs)
    ensures |logs.shared| == |sys.shared|
    ensures SystemAnswers(Serve(sys, memory, r), LogsAfter(sys, memory, logs, r))
  {
    hide Access;
    hide Visited;
    hide Answers;
    hide Level.Ok;
    var chain := [if r.port.Data? then sys.l1 else sys.ic] + sys.shared;
    var ls := [if r.port.Data? then logs.l1 else logs.ic] + logs.shared;
    assert ChainAnswers(chain, ls);
    AccessAnswers(chain, memory, ls, r.req);
  }

  lemma {:induction false} RunSystemAnswers(sys: System, memory: nat, logs: Logs, reqs: seq<SystemRequest>)
    requires sys.Ok() && SystemAnswers(sys, logs)
    ensures |logs.shared| == |sys.shared|
    ensures SystemAnswers(RunSystem(sys, memory, reqs), LogsAfterAll(sys, memory, logs, reqs))
    decreases |reqs|
  {
    hide Serve;
    hide LogsAfter;
    hide Level.Ok;
    hide Answers;
    if reqs != [] {
      ServeAnswers(sys, memory, logs, reqs[0]);
      hide SystemAnswers;
      RunSystemAnswers(Serve(sys, memory, reqs[0]), memory, LogsAfter(sys, memory, logs, reqs[0]), reqs[1..]);
    }
  }

  function NoVisits(n: nat): Logs {
    Logs([], [], seq(n, i => []))
  }

  lemma ColdAnswers(l: Level)
    requires Cold(l)
    ensures Answers(l, [])
  {
  }

  /**
    After any requests to a cold system, in every cache of it: a held block has arrived exactly when the miss that
    last brought it in was answered, and every hit was answered in the later of that and the end of its search.
  */
  lemma EveryLevelAnswers(sys: System, memory: nat, reqs: seq<SystemRequest>)
    requires ColdSystem(sys)
    ensures SystemAnswers(RunSystem(sys, memory, reqs), LogsAfterAll(sys, memory, NoVisits(|sys.shared|), reqs))
  {
    hide RunSystem;
    hide LogsAfterAll;
    hide Answers;
    ColdAnswers(sys.l1);
    ColdAnswers(sys.ic);
    forall i | 0 <= i < |sys.shared|
      ensures Answers(sys.shared[i], [])
    {
      ColdAnswers(sys.shared[i]);
    }
    RunSystemAnswers(sys, memory, NoVisits(|sys.shared|), reqs);
  }

  ghost function AfterOne(chain: seq<Level>, memory: nat, r: Request): (c: seq<Level>)
    requires ChainOk(chain)
    ensures |c| == |chain| && ChainOk(c)
  {
    Access(chain, memory, r.cycle, r.addr, r.pf).chain
  }

  lemma SameArrival(l: Level, a: nat, b: nat)
    requires l.Ok() && SameBlock(l.cfg, a, b)
    ensures (l.Holds(a) <==> l.Holds(b)) && (l.Holds(a) ==> l.Arrival(a) == l.Arrival(b))
  {
    BlockIsQuotient(l.cfg, a, b);
  }

  lemma {:induction false} StaysArrived(chain: seq<Level>, memory: nat, addr: nat, reqs: seq<Request>, t: nat)
    requires chain != [] && ChainOk(chain) && chain[0].Holds(addr) && chain[0].Arrival(addr) == t
    requires forall k :: 0 <= k <= |reqs| ==> Run(chain, memory, reqs[..k])[0].Holds(addr)
    ensures var l := Run(chain, memory, reqs)[0]; l.cfg == chain[0].cfg && l.Holds(addr) && l.Arrival(addr) == t
  {
    hide Level.Holds;
    hide Level.Arrival;
    hide Level.After;
    if reqs != [] {
      var n := |reqs| - 1;
      assert forall k :: 0 <= k <= n ==> reqs[..n][..k] == reqs[..k];
      assert reqs[..|reqs|] == reqs;
      StaysArrived(chain, memory, addr, reqs[..n], t);
      var before, r := Run(chain, memory, reqs[..n]), reqs[n];
      AccessHere(before, memory, r.cycle, r.addr, r.pf);
      var avail := Access(before, memory, r.cycle, r.addr, r.pf).avail;
      if before[0].Holds(r.addr) {
        HitIgnoresArrival(before[0], r.addr, r.pf, avail, before[0].Arrival(r.addr));
      }
      ArrivalAfter(before[0], r.addr, r.pf, avail, addr);
      if SameBlock(before[0].cfg, addr, r.addr) {
        ArrivalAfter(before[0], r.addr, r.pf, avail, r.addr);
        SameArrival(before[0], addr, r.addr);
      }
    }
  }

  /**
    Two accesses: if one misses and is answered in cycle t, then one to the same block at cycle c is answered in the
    later of t and c plus the latency, whatever other accesses come between, as long as the block is held.
  */
  lemma {:induction false} MissThenHit(chain: seq<Level>, memory: nat, r: Request, between: seq<Request>, q: Request)
    requires chain != [] && ChainOk(chain) && !chain[0].Holds(r.addr) && SameBlock(chain[0].cfg, q.addr, r.addr)
    requires forall k :: 0 <= k <= |between| ==> Run(AfterOne(chain, memory, r), memory, between[..k])[0].Holds(r.addr)
    ensures Run(AfterOne(chain, memory, r), memory, between)[0].cfg == chain[0].cfg
    ensures Access(Run(AfterOne(chain, memory, r), memory, between), memory, q.cycle, q.addr, q.pf).avail
            == Max(Access(chain, memory, r.cycle, r.addr, r.pf).avail, q.cycle + chain[0].cfg.latency)
  {
    hide Level.After;
    hide Access;
    assert SameBlock(chain[0].cfg, r.addr, r.addr);
    hide SameBlock;
    var t := Access(chain, memory, r.cycle, r.addr, r.pf).avail;
    AccessHere(chain, memory, r.cycle, r.addr, r.pf);
    ArrivalAfter(chain[0], r.addr, r.pf, t, r.addr);
    StaysArrived(AfterOne(chain, memory, r), memory, r.addr, between, t);
    var now := Run(AfterOne(chain, memory, r), memory, between);
    assert between[..|between|] == between;
    BlockIsQuotient(now[0].cfg, q.addr, r.addr);
    AccessHere(now, memory, q.cycle, q.addr, q.pf);
  }
}
