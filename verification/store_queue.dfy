/** The store queue, byte by byte: when a load's bytes are there, and what a store leaves for later loads. */
module StoreQueues {
  import opened Common

  /** When the last store to a byte executes, and until when the byte can be forwarded. */
  datatype StoreByte = StoreByte(exec: nat, ret: nat)

  predicate Forwards(sq: map<nat, StoreByte>, addr: nat, cycle: nat) {
    addr in sq && cycle < sq[addr].ret
  }

  /** When one byte of a load is there: `cycle` is when the queue has been searched, `data` when the cache answers. */
  function ByteReady(sq: map<nat, StoreByte>, addr: nat, cycle: nat, data: nat): nat {
    if Forwards(sq, addr, cycle) then Max(cycle, sq[addr].exec) else data
  }

  /** When the first `n` bytes of a load are all there. */
  function LoadReady(sq: map<nat, StoreByte>, addr: nat, n: nat, cycle: nat, data: nat): nat {
    if n == 0 then 0
    else Max(LoadReady(sq, addr, n - 1, cycle, data), ByteReady(sq, addr + n - 1, cycle, data))
  }

  /** The queue after a store of `n` bytes. */
  function Written(sq: map<nat, StoreByte>, addr: nat, n: nat, b: StoreByte): map<nat, StoreByte> {
    if n == 0 then sq else Written(sq, addr, n - 1, b)[addr + n - 1 := b]
  }

  lemma {:induction false} WrittenAt(sq: map<nat, StoreByte>, addr: nat, n: nat, b: StoreByte, x: nat)
    ensures addr <= x < addr + n ==> x in Written(sq, addr, n, b) && Written(sq, addr, n, b)[x] == b
    ensures !(addr <= x < addr + n) ==>
              (x in Written(sq, addr, n, b) <==> x in sq) && (x in sq ==> Written(sq, addr, n, b)[x] == sq[x])
  {
    if n > 0 {
      WrittenAt(sq, addr, n - 1, b, x);
    }
  }

  /** A load is done exactly when its latest byte is. */
  lemma {:induction false} LoadReadyIsLatest(sq: map<nat, StoreByte>, addr: nat, n: nat, cycle: nat, data: nat)
    requires n > 0
    ensures forall x :: addr <= x < addr + n ==> ByteReady(sq, x, cycle, data) <= LoadReady(sq, addr, n, cycle, data)
    ensures exists x :: addr <= x < addr + n && ByteReady(sq, x, cycle, data) == LoadReady(sq, addr, n, cycle, data)
  {
    var last := addr + n - 1;
    assert ByteReady(sq, last, cycle, data) <= LoadReady(sq, addr, n, cycle, data);
    if n > 1 {
      LoadReadyIsLatest(sq, addr, n - 1, cycle, data);
    }
  }

  /** A load of at least one byte ends no earlier than the search of the queue. */
  lemma LoadReadyAfterSearch(sq: map<nat, StoreByte>, addr: nat, n: nat, cycle: nat, data: nat)
    requires n > 0 && data >= cycle
    ensures LoadReady(sq, addr, n, cycle, data) >= cycle
  {
  }

  /**
    A load that lies within an earlier store, and searches the queue before the store leaves it, gets all
    its bytes from the store, however long the cache takes.
  */
  lemma {:induction false} StoreForwards(sq: map<nat, StoreByte>, addr: nat, n: nat, b: StoreByte, at: nat, m: nat,
                                         cycle: nat, data: nat)
    requires 0 < m && addr <= at && at + m <= addr + n && cycle < b.ret
    ensures LoadReady(Written(sq, addr, n, b), at, m, cycle, data) == Max(cycle, b.exec)
  {
    WrittenAt(sq, addr, n, b, at + m - 1);
    if m > 1 {
      StoreForwards(sq, addr, n, b, at, m - 1, cycle, data);
    }
  }

  /** A load that shares no byte with a store is not affected by it. */
  lemma {:induction false} StoreElsewhere(sq: map<nat, StoreByte>, addr: nat, n: nat, b: StoreByte, at: nat, m: nat,
                                          cycle: nat, data: nat)
    requires at + m <= addr || addr + n <= at
    ensures LoadReady(Written(sq, addr, n, b), at, m, cycle, data) == LoadReady(sq, at, m, cycle, data)
  {
    if m > 0 {
      WrittenAt(sq, addr, n, b, at + m - 1);
      StoreElsewhere(sq, addr, n, b, at, m - 1, cycle, data);
    }
  }
}
