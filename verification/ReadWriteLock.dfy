/** A reader/writer lock shared by numbered activities, and the discipline under which it is used. */
module ReadWriteLock {
  import opened Options

  datatype RWLock = RWLock(
    writer: Option<nat>,             // who holds it exclusively
    readers: set<nat>)               // who holds it shared
  {
    predicate CanRead() { writer == None }
    predicate CanWrite() { writer == None && readers == {} }

    function RLock(i: nat): RWLock { this.(readers := readers + {i}) }
    function RUnlock(i: nat): RWLock { this.(readers := readers - {i}) }
    function Lock(i: nat): RWLock { this.(writer := Some(i)) }
    function Unlock(): RWLock { this.(writer := None) }
  }

  const FREE: RWLock := RWLock(None, {})

  /** The lock knows what activity i holds. */
  predicate Knows(lock: RWLock, i: nat, isReading: bool, isWriting: bool) {
    (isReading <==> i in lock.readers) && (isWriting <==> lock.writer == Some(i))
  }

  /** Nobody beyond the first n holds the lock, and a writer excludes readers. */
  predicate Exclusive(lock: RWLock, n: nat) {
    && (forall i :: i in lock.readers ==> i < n)
    && (lock.writer.Some? ==> lock.writer.value < n && lock.readers == {})
  }

  /** What activity i holds changed, only as the lock allows, and the lock changed with it. */
  predicate Moves(lock: RWLock, i: nat, wasReading: bool, wasWriting: bool, isReading: bool, isWriting: bool, lock': RWLock) {
    && (isWriting && !wasWriting ==> lock.CanWrite())
    && (isReading && !wasReading ==> lock.CanRead())
    && !(isReading && wasWriting) && !(isWriting && wasReading) && !(isReading && isWriting)
    && lock'.writer == (if isWriting then Some(i) else if wasWriting then None else lock.writer)
    && lock'.readers == (if isReading then lock.readers + {i} else lock.readers - {i})
  }

  /** A move keeps the discipline, for the activity that moved and for every other. */
  lemma MoveKeeps(lock: RWLock, n: nat, i: nat, wasReading: bool, wasWriting: bool, isReading: bool, isWriting: bool, lock': RWLock)
    requires i < n && Exclusive(lock, n) && Knows(lock, i, wasReading, wasWriting) && Moves(lock, i, wasReading, wasWriting, isReading, isWriting, lock')
    ensures Exclusive(lock', n) && Knows(lock', i, isReading, isWriting)
    ensures forall k: nat, r, w :: k != i && Knows(lock, k, r, w) ==> Knows(lock', k, r, w)
  {
  }
}
