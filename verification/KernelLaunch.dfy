/** A launch of one-store threads over two buffers: the threads run one after the other in an arbitrary order. */
module KernelLaunch {
  import opened Basics

  /** What a thread does: nothing, raise the error flag, or store one element in the first or second buffer. */
  datatype Effect<T> = Skip | Flag | Store(second: bool, addr: nat, value: T)

  /** Distinct threads never store to the same place. */
  ghost predicate RaceFree<T>(n: nat, thread: nat --> Effect<T>)
    requires forall i: nat :: i < n ==> thread.requires(i)
  {
    forall i: nat, j: nat ::
      i < j < n && thread(i).Store? && thread(j).Store? && thread(i).second == thread(j).second ==>
      thread(i).addr != thread(j).addr
  }

  ghost predicate InBounds<T>(n: nat, thread: nat --> Effect<T>, first: nat, second: nat)
    requires forall i: nat :: i < n ==> thread.requires(i)
  {
    forall i: nat :: i < n && thread(i).Store? ==> thread(i).addr < if thread(i).second then second else first
  }

  /** Some thread stores to this place. */
  ghost predicate Written<T>(n: nat, thread: nat --> Effect<T>, second: bool, addr: nat)
    requires forall i: nat :: i < n ==> thread.requires(i)
  {
    exists i: nat :: i < n && thread(i).Store? && thread(i).second == second && thread(i).addr == addr
  }

  /**
   * Whatever the order, every stored element is in place, everything else is as before, and the flag tells
   * whether some thread raised it: the outcome of a race-free launch does not depend on the schedule.
   */
  method Launch<T>(a: array<T>, b: array<T>, n: nat, thread: nat --> Effect<T>) returns (flagged: bool)
    requires forall i: nat :: i < n ==> thread.requires(i)
    requires a != b && RaceFree(n, thread) && InBounds(n, thread, a.Length, b.Length)
    modifies a, b
    ensures flagged <==> exists i: nat :: i < n && thread(i).Flag?
    ensures forall i: nat :: i < n && thread(i).Store? ==>
              (if thread(i).second then b[thread(i).addr] else a[thread(i).addr]) == thread(i).value
    ensures forall x: nat :: x < a.Length && !Written(n, thread, false, x) ==> a[x] == old(a[x])
    ensures forall x: nat :: x < b.Length && !Written(n, thread, true, x) ==> b[x] == old(b[x])
  {
    var pending := Threads(n);
    flagged := false;
    while pending != {}
      invariant forall i: nat :: i in pending ==> i < n
      invariant flagged <==> exists i: nat :: i < n && i !in pending && thread(i).Flag?
      invariant forall i: nat :: i < n && i !in pending && thread(i).Store? ==>
        (if thread(i).second then b[thread(i).addr] else a[thread(i).addr]) == thread(i).value
      invariant forall x: nat :: x < a.Length && !Written(n, thread, false, x) ==> a[x] == old(a[x])
      invariant forall x: nat :: x < b.Length && !Written(n, thread, true, x) ==> b[x] == old(b[x])
      decreases |pending|
    {
      var t :| t in pending;
      match thread(t) {
        case Skip =>
        case Flag =>
          flagged := true;
        case Store(second, addr, value) =>
          assert Written(n, thread, second, addr);
          if second {
            b[addr] := value;
          } else {
            a[addr] := value;
          }
      }
      pending := pending - {t};
    }
  }
}
