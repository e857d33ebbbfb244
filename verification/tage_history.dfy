/**
  The history state that TAGE indexes with: the ring of branch directions, the path history, and three
  folded registers for each bank. `Hist` is one value of it, as copied by a checkpoint; `TageHistory`
  updates it in place.
*/
module TageHistories {
  import opened Bits
  import opened FoldedHistories

  const HISTBUFFERLENGTH: nat := 4096
  const PHISTWIDTH: nat := 27

  predicate RegistersOk(fs: seq<Folded>) {
    forall i :: 1 <= i < |fs| ==> 0 < fs[i].compressed < UNSIGNED_BITS && 0 < fs[i].original < HISTBUFFERLENGTH
  }

  datatype Hist = Hist(ring: seq<bool>, pt: int, phist: nat,
                       chI: seq<Folded>, chT0: seq<Folded>, chT1: seq<Folded>) {
    predicate Ok() {
      && |ring| == HISTBUFFERLENGTH
      && |chI| == |chT0| == |chT1| > 0
      && RegistersOk(chI) && RegistersOk(chT0) && RegistersOk(chT1)
    }
  }

  /** A history that can be updated. */
  type LiveHist = h: Hist | h.Ok()
    witness Hist(seq(HISTBUFFERLENGTH, i => false), 0, 0, [Folded(Zero(), 1, 1)], [Folded(Zero(), 1, 1)],
        [Folded(Zero(), 1, 1)])

  /** Reads the ring `k` branches back from the position `pt`. */
  function RingBit(ring: seq<bool>, pt: int, k: nat): bool
    requires |ring| == HISTBUFFERLENGTH
  {
    ring[(pt + k) % HISTBUFFERLENGTH]
  }

  /** Bank 0 does not exist; every other register takes the new bit. */
  function AllUpdated(fs: seq<Folded>, ring: seq<bool>, pt: int): (r: seq<Folded>)
    requires RegistersOk(fs) && |ring| == HISTBUFFERLENGTH
    ensures |r| == |fs|
  {
    seq(|fs|, i requires 0 <= i < |fs| =>
      if i == 0 then fs[0] else fs[i].Updated(RingBit(ring, pt, 0), RingBit(ring, pt, fs[i].original)))
  }

  /** One round of the history loop: a direction bit and seven path bits. */
  function Pushed(h: Hist, dir: bool, pathBits: nat): (r: Hist)
    requires h.Ok()
    ensures r.Ok()
  {
    var pt := h.pt - 1;
    var ring := h.ring[pt % HISTBUFFERLENGTH := dir];
    Hist(ring, pt, Xor(2 * h.phist, pathBits), AllUpdated(h.chI, ring, pt), AllUpdated(h.chT0, ring, pt),
        AllUpdated(h.chT1, ring, pt))
  }

  /** A branch as the history sees it: brtype 0 is direct, 1 conditional, 2 indirect. */
  datatype Branch = Branch(pc: nat, brtype: nat, taken: bool, nextPc: nat)

  function Rounds(b: Branch): nat {
    if b.brtype % 2 == 1 then 2 else if (b.brtype / 2) % 2 == 1 then 3 else 2
  }

  function Directions(b: Branch): nat {
    var t := Xor(Xor(b.pc, Shr(b.pc, 2)), if b.taken then 1 else 0);
    if b.brtype == 3 && b.taken then Xor(t, Shr(b.nextPc, 2)) else t
  }

  function Path(b: Branch): nat {
    var p := Xor(Xor(b.pc, Shr(b.pc, 2)), Shr(b.pc, 4));
    if b.brtype == 3 && b.taken then Xor(Xor(p, Shr(b.nextPc, 2)), Shr(b.nextPc, 4)) else p
  }

  function PushedRounds(h: Hist, directions: nat, path: nat, rounds: nat): (r: Hist)
    requires h.Ok()
    ensures r.Ok()
    decreases rounds
  {
    if rounds == 0 then h
    else PushedRounds(Pushed(h, directions % 2 == 1, Low(path, 7)), directions / 2, path / 2, rounds - 1)
  }

  /** `HistoryUpdate`, the part that TAGE's tables are indexed with. */
  function AfterBranch(h: Hist, b: Branch): (r: Hist)
    requires h.Ok()
    ensures r.Ok()
  {
    var pushed := PushedRounds(h, Directions(b), Path(b), Rounds(b));
    pushed.(phist := Low(pushed.phist, PHISTWIDTH))
  }

  // ---------------------------------------------------------------- the registers fold the whole history

  ghost predicate AllFold(fs: seq<Folded>, recent: History) {
    forall i :: 1 <= i < |fs| ==> Folds(fs[i], recent)
  }

  /** The ring holds the last 4096 directions, and each register folds its own window of them. */
  ghost predicate Tracks(h: Hist, recent: History) {
    && h.Ok()
    && (forall k :: 0 <= k < HISTBUFFERLENGTH ==> RingBit(h.ring, h.pt, k) == Bit(recent, k))
    && AllFold(h.chI, recent) && AllFold(h.chT0, recent) && AllFold(h.chT1, recent)
  }

  lemma RingAfterPush(h: Hist, recent: History, dir: bool)
    requires h.Ok() && forall k :: 0 <= k < HISTBUFFERLENGTH ==> RingBit(h.ring, h.pt, k) == Bit(recent, k)
    ensures var ring := h.ring[(h.pt - 1) % HISTBUFFERLENGTH := dir];
            forall k :: 0 <= k < HISTBUFFERLENGTH ==> RingBit(ring, h.pt - 1, k) == Bit([dir] + recent, k)
  {
    var ring := h.ring[(h.pt - 1) % HISTBUFFERLENGTH := dir];
    forall k | 0 <= k < HISTBUFFERLENGTH
      ensures RingBit(ring, h.pt - 1, k) == Bit([dir] + recent, k)
    {
      if k > 0 {
        assert (h.pt - 1 + k) % HISTBUFFERLENGTH == (h.pt + (k - 1)) % HISTBUFFERLENGTH;
        assert RingBit(h.ring, h.pt, k - 1) == Bit(recent, k - 1);
        assert Bit([dir] + recent, k) == Bit(recent, k - 1);
      }
    }
  }

  lemma UpdatesFold(fs: seq<Folded>, ring: seq<bool>, pt: int, recent: History, dir: bool)
    requires RegistersOk(fs) && |ring| == HISTBUFFERLENGTH && AllFold(fs, recent)
    requires forall k :: 0 <= k < HISTBUFFERLENGTH ==> RingBit(ring, pt, k) == Bit([dir] + recent, k)
    ensures AllFold(AllUpdated(fs, ring, pt), [dir] + recent)
  {
    hide Folded.Updated;
    forall i | 1 <= i < |fs|
      ensures Folds(AllUpdated(fs, ring, pt)[i], [dir] + recent)
    {
      assert Folds(fs[i], recent);
      assert RingBit(ring, pt, 0) == Bit([dir] + recent, 0) == dir;
      UpdateFolds(fs[i], recent, dir);
    }
  }

  lemma PushTracks(h: Hist, recent: History, dir: bool, pathBits: nat)
    requires Tracks(h, recent)
    ensures Tracks(Pushed(h, dir, pathBits), [dir] + recent)
  {
    hide RingBit;
    hide AllUpdated;
    var pt := h.pt - 1;
    var ring := h.ring[pt % HISTBUFFERLENGTH := dir];
    RingAfterPush(h, recent, dir);
    UpdatesFold(h.chI, ring, pt, recent, dir);
    UpdatesFold(h.chT0, ring, pt, recent, dir);
    UpdatesFold(h.chT1, ring, pt, recent, dir);
  }

  /** The directions a branch adds, in front of those already recorded. */
  function Recorded(recent: History, directions: nat, rounds: nat): History
    decreases rounds
  {
    if rounds == 0 then recent else Recorded([directions % 2 == 1] + recent, directions / 2, rounds - 1)
  }

  lemma {:induction false} RoundsTrack(h: Hist, recent: History, directions: nat, path: nat, rounds: nat)
    requires Tracks(h, recent)
    ensures Tracks(PushedRounds(h, directions, path, rounds), Recorded(recent, directions, rounds))
    decreases rounds
  {
    assert h.Ok();
    hide Tracks;
    hide Pushed;
    hide Hist.Ok;
    if rounds > 0 {
      PushTracks(h, recent, directions % 2 == 1, Low(path, 7));
      RoundsTrack(Pushed(h, directions % 2 == 1, Low(path, 7)), [directions % 2 == 1] + recent, directions / 2,
          path / 2, rounds - 1);
    }
  }

  function AfterBranches(h: Hist, bs: seq<Branch>): (r: Hist)
    requires h.Ok()
    ensures r.Ok()
  {
    if bs == [] then h else AfterBranch(AfterBranches(h, bs[..|bs| - 1]), bs[|bs| - 1])
  }

  function RecordedBranches(bs: seq<Branch>): History {
    if bs == [] then []
    else
      var b := bs[|bs| - 1];
      Recorded(RecordedBranches(bs[..|bs| - 1]), Directions(b), Rounds(b))
  }

  ghost predicate Blank(h: Hist) {
    && h.Ok()
    && (forall k :: 0 <= k < HISTBUFFERLENGTH ==> !h.ring[k])
    && forall i :: 1 <= i < |h.chI| ==> h.chI[i].comp == h.chT0[i].comp == h.chT1[i].comp == Zero()
  }

  lemma {:induction false} BlankFold(n: nat, compressed: nat)
    requires compressed > 0
    ensures Fold([], n, compressed) == Zero()
  {
    if n > 0 {
      BlankFold(n - 1, compressed);
    }
  }

  /** After any branches, every register equals the fold of its window of all directions recorded so far. */
  lemma {:induction false} RegistersAlwaysFold(h: Hist, bs: seq<Branch>)
    requires Blank(h)
    ensures Tracks(AfterBranches(h, bs), RecordedBranches(bs))
  {
    hide PushedRounds;
    if bs == [] {
      forall i | 1 <= i < |h.chI|
        ensures Folds(h.chI[i], []) && Folds(h.chT0[i], []) && Folds(h.chT1[i], [])
      {
        BlankFold(h.chI[i].original, h.chI[i].compressed);
        BlankFold(h.chT0[i].original, h.chT0[i].compressed);
        BlankFold(h.chT1[i].original, h.chT1[i].compressed);
      }
    } else {
      var b := bs[|bs| - 1];
      RegistersAlwaysFold(h, bs[..|bs| - 1]);
      RoundsTrack(AfterBranches(h, bs[..|bs| - 1]), RecordedBranches(bs[..|bs| - 1]), Directions(b), Path(b),
          Rounds(b));
    }
  }

  // ---------------------------------------------------------------- the state updated in place

  lemma FrontBit(ring: seq<bool>, pt: int)
    requires |ring| == HISTBUFFERLENGTH
    ensures RingBit(ring, pt, 0) == ring[pt % HISTBUFFERLENGTH]
  {
  }

  class TageHistory {
    const ring: array<bool>
    var pt: int
    var phist: nat
    const chI: array<Folded>
    const chT0: array<Folded>
    const chT1: array<Folded>

    /** The value a checkpoint copies. */
    function Snapshot(): Hist
      reads this, ring, chI, chT0, chT1
    {
      Hist(ring[..], pt, phist, chI[..], chT0[..], chT1[..])
    }

    ghost predicate Valid()
      reads this, ring, chI, chT0, chT1
    {
      chI != chT0 && chI != chT1 && chT0 != chT1 && Snapshot().Ok()
    }

    /** Registers for the banks 1 up to `banks`, whose history and register lengths are given. */
    constructor (banks: nat, original: nat -> nat, indexBits: nat -> nat, tagBits: nat -> nat)
      requires forall i :: 1 <= i <= banks ==> 0 < original(i) < HISTBUFFERLENGTH
      requires forall i :: 1 <= i <= banks ==> 0 < indexBits(i) < UNSIGNED_BITS && 1 < tagBits(i) < UNSIGNED_BITS
      ensures Valid() && Blank(Snapshot())
      ensures fresh(ring) && fresh(chI) && fresh(chT0) && fresh(chT1)
      ensures chI.Length == chT0.Length == chT1.Length == banks + 1
      ensures forall i :: 1 <= i <= banks ==>
                && chI[i] == Folded(Zero(), indexBits(i), original(i))
                && chT0[i] == Folded(Zero(), tagBits(i), original(i))
                && chT1[i] == Folded(Zero(), tagBits(i) - 1, original(i))
    {
      ring := new bool[HISTBUFFERLENGTH](i => false);
      pt, phist := 0, 0;
      chI := new Folded[banks + 1]((i: nat) => Folded(Zero(), indexBits(i), original(i)));
      chT0 := new Folded[banks + 1]((i: nat) => Folded(Zero(), tagBits(i), original(i)));
      chT1 := new Folded[banks + 1]((i: nat) =>
        Folded(Zero(), if tagBits(i) > 0 then tagBits(i) - 1 else 0, original(i)));
    }

    method UpdateRegister(fs: array<Folded>, i: nat, newest: bool, ghost before: seq<Folded>)
      requires RegistersOk(before) && ring.Length == HISTBUFFERLENGTH && newest == RingBit(ring[..], pt, 0)
      requires 1 <= i < fs.Length == |before|
      requires fs[..] == AllUpdated(before, ring[..], pt)[..i] + before[i..]
      modifies fs
      ensures fs[..] == AllUpdated(before, ring[..], pt)[..i + 1] + before[i + 1..]
    {
      hide Folded.Updated;
      ghost var mixed := fs[..];
      assert fs[i] == mixed[i] == before[i];
      fs[i] := fs[i].Updated(newest, ring[(pt + fs[i].original) % HISTBUFFERLENGTH]);
      assert fs[..] == mixed[i := AllUpdated(before, ring[..], pt)[i]];
    }

    /** The inner loop: every bank's three registers take the newest bit. */
    method UpdateRegisters()
      requires Valid()
      modifies chI, chT0, chT1
      ensures chI[..] == AllUpdated(old(chI[..]), ring[..], pt)
      ensures chT0[..] == AllUpdated(old(chT0[..]), ring[..], pt)
      ensures chT1[..] == AllUpdated(old(chT1[..]), ring[..], pt)
    {
      hide RingBit;
      hide Folded.Updated;
      ghost var a, b, c := chI[..], chT0[..], chT1[..];
      var newest := ring[pt % HISTBUFFERLENGTH];
      assert newest == RingBit(ring[..], pt, 0) by {
        FrontBit(ring[..], pt);
      }
      ghost var a', b', c' := AllUpdated(a, ring[..], pt), AllUpdated(b, ring[..], pt), AllUpdated(c, ring[..], pt);
      var i := 1;
      while i < chI.Length
        invariant 1 <= i <= chI.Length
        invariant chI[..] == a'[..i] + a[i..]
        invariant chT0[..] == b'[..i] + b[i..]
        invariant chT1[..] == c'[..i] + c[i..]
      {
        UpdateRegister(chI, i, newest, a);
        UpdateRegister(chT0, i, newest, b);
        UpdateRegister(chT1, i, newest, c);
        i := i + 1;
      }
    }

    method Push(dir: bool, pathBits: nat)
      requires Valid()
      modifies this, ring, chI, chT0, chT1
      ensures Valid() && Snapshot() == Pushed(old(Snapshot()), dir, pathBits)
    {
      pt := pt - 1;
      ring[pt % HISTBUFFERLENGTH] := dir;
      phist := Xor(2 * phist, pathBits);
      UpdateRegisters();
    }

    /** The direction bits and path bits of a branch, lowest first. */
    static method Hashes(b: Branch) returns (directions: nat, path: nat)
      ensures directions == Directions(b) && path == Path(b)
    {
      hide Xor;
      hide Shr;
      directions := Xor(Xor(b.pc, Shr(b.pc, 2)), if b.taken then 1 else 0);
      path := Xor(Xor(b.pc, Shr(b.pc, 2)), Shr(b.pc, 4));
      if b.brtype == 3 && b.taken {
        directions := Xor(directions, Shr(b.nextPc, 2));
        path := Xor(Xor(path, Shr(b.nextPc, 2)), Shr(b.nextPc, 4));
      }
    }

    method HistoryUpdate(b: Branch)
      requires Valid()
      modifies this, ring, chI, chT0, chT1
      ensures Valid() && Snapshot() == AfterBranch(old(Snapshot()), b)
    {
      hide Pushed;
      hide Xor;
      hide Shr;
      var maxt := 2;
      if b.brtype % 2 == 1 {
        maxt := 2;
      } else if (b.brtype / 2) % 2 == 1 {
        maxt := 3;
      }
      hide Low;
      hide RegistersOk;
      hide Directions;
      hide Path;
      var directions, path := Hashes(b);
      var t := 0;
      while t < maxt
        invariant t <= maxt && Valid()
        invariant PushedRounds(Snapshot(), directions, path, maxt - t)
                    == PushedRounds(old(Snapshot()), Directions(b), Path(b), maxt)
      {
        Push(directions % 2 == 1, Low(path, 7));
        directions, path := directions / 2, path / 2;
        t := t + 1;
      }
      phist := Low(phist, PHISTWIDTH);
    }
  }
}
