/**
Transaction ids: the lock-free allocator of the Go client, a load followed by a compare-and-swap that
is retried on failure, and the sequential counter of the Rust clients.
*/
module TxIds {
  import opened Common

  const U64 := 0x1_0000_0000_0000_0000
  /** The number of ids before the sequence repeats: zero is never one of them. */
  const PERIOD := 0xFFFF_FFFF_FFFF_FFFF

  type Id = n: nat | n < U64

  /** Go: add one, and if that wrapped to zero take one. */
  function GoNext(id: Id): Id {
    var next := (id + 1) % U64;
    if next == 0 then 1 else next
  }

  /** Rust: `wrapping_add(1).max(1)`. */
  function RustNext(id: Id): Id {
    var next := (id + 1) % U64;
    if next >= 1 then next else 1
  }

  /** The id of the k-th allocation, counting from zero. */
  function IdAt(k: nat): Id {
    1 + k % PERIOD
  }

  lemma NextIsIdAt(k: nat)
    ensures GoNext(IdAt(k)) == IdAt(k + 1) && RustNext(IdAt(k)) == IdAt(k + 1)
  {
    var r := k % PERIOD;
    var q := k / PERIOD;
    assert k == q * PERIOD + r;
    if r == PERIOD - 1 {
      assert k + 1 == (q + 1) * PERIOD;
      assert (k + 1) % PERIOD == 0;
    } else {
      assert k + 1 == q * PERIOD + (r + 1);
      assert (k + 1) % PERIOD == r + 1;
    }
  }

  // ---------------------------------------------------------------- goroutines

  /** Where a goroutine stands in `nextTxID`: about to load, or about to swap. */
  datatype Pc = Start | Loaded(id: Id)

  datatype State = State(next: Id, pcs: map<nat, Pc>, issued: seq<Id>)

  datatype Event = Load(g: nat) | Swap(g: nat)

  /** A client fresh from `New`, with the goroutines that will use it. */
  predicate Fresh(s: State) {
    s.next == 1 && s.issued == [] && forall g :: g in s.pcs ==> s.pcs[g].Start?
  }

  predicate Enabled(s: State, e: Event) {
    e.g in s.pcs && if e.Load? then s.pcs[e.g].Start? else s.pcs[e.g].Loaded?
  }

  predicate Succeeds(s: State, e: Event) {
    e.Swap? && e.g in s.pcs && s.pcs[e.g].Loaded? && s.next == s.pcs[e.g].id
  }

  function Apply(s: State, e: Event): State
    requires Enabled(s, e)
  {
    match e
    case Load(g) => s.(pcs := s.pcs[g := Loaded(s.next)])
    case Swap(g) =>
      var id := s.pcs[g].id;
      if s.next == id then State(GoNext(id), s.pcs[g := Start], s.issued + [id])
      else s.(pcs := s.pcs[g := Start])
  }

  ghost predicate Valid(s: State, es: seq<Event>)
    decreases |es|, 0
  {
    es == [] || (Valid(s, Front(es)) && Enabled(Run(s, Front(es)), Last(es)))
  }

  ghost function Run(s: State, es: seq<Event>): State
    requires Valid(s, es)
    decreases |es|, 1
  {
    if es == [] then s else Apply(Run(s, Front(es)), Last(es))
  }

  /** What was issued are the first ids of the sequence, and `next` comes after them. */
  ghost predicate InOrder(next: Id, issued: seq<Id>) {
    next == IdAt(|issued|) && forall k :: 0 <= k < |issued| ==> issued[k] == IdAt(k)
  }

  /**
  Under every interleaving of loads and swaps by any number of goroutines, the k-th successful swap
  returns `1 + k mod (2^64 - 1)`: zero is never issued, and the order of issue is fixed.
  */
  lemma {:induction false} IdsInOrder(s: State, es: seq<Event>)
    requires Fresh(s) && Valid(s, es)
    ensures InOrder(Run(s, es).next, Run(s, es).issued)
    ensures forall k :: 0 <= k < |Run(s, es).issued| ==>
      Run(s, es).issued[k] != 0 && Run(s, es).issued[k] == 1 + k % 0xFFFF_FFFF_FFFF_FFFF
    decreases |es|
  {
    if es == [] {
    } else {
      IdsInOrder(s, Front(es));
      NextIsIdAt(|Run(s, Front(es)).issued|);
    }
  }

  lemma SameRemainder(i: nat, j: nat)
    requires i < j < i + PERIOD
    ensures IdAt(i) != IdAt(j)
  {
  }

  /** Any `2^64 - 1` consecutive ids are distinct, whoever they were issued to. */
  lemma {:induction false} ConsecutiveIdsDistinct(s: State, es: seq<Event>, i: nat, j: nat)
    requires Fresh(s) && Valid(s, es) && i < j < |Run(s, es).issued| && j < i + PERIOD
    ensures Run(s, es).issued[i] != Run(s, es).issued[j]
  {
    IdsInOrder(s, es);
    SameRemainder(i, j);
  }

  /** The period is exact: one allocation later the same id comes again. */
  lemma PeriodIsExact(k: nat)
    ensures IdAt(k + PERIOD) == IdAt(k)
  {
    assert k + PERIOD == (k / PERIOD + 1) * PERIOD + k % PERIOD;
  }

  /**
  Lock-freedom.  If the swap of goroutine `g` is about to fail, then since `g` loaded another
  goroutine's swap has succeeded (the event at `k`).
  */
  lemma {:induction false} FailureMeansProgress(s: State, es: seq<Event>, g: nat) returns (k: nat)
    requires Valid(s, es) && (g in s.pcs ==> s.pcs[g].Start?)
    requires Enabled(Run(s, es), Swap(g)) && !Succeeds(Run(s, es), Swap(g))
    ensures k < |es| && es[k].g != g && Valid(s, es[..k]) && Succeeds(Run(s, es[..k]), es[k])
    ensures g in Run(s, es[..k]).pcs && Run(s, es[..k]).pcs[g] == Run(s, es).pcs[g]
    ensures forall i :: k <= i < |es| ==> es[i].g != g
    decreases |es|
  {
    var before, e := Run(s, Front(es)), Last(es);
    if Enabled(before, Swap(g)) && !Succeeds(before, Swap(g)) {
      k := FailureMeansProgress(s, Front(es), g);
      assert Front(es)[..k] == es[..k];
    } else {
      k := |es| - 1;
      assert es[..k] == Front(es);
    }
  }

  // ---------------------------------------------------------------- the methods

  /** `next_tx_id` of the Rust clients. */
  class RustCounter {
    var nextTx: Id
    ghost var issued: seq<Id>

    ghost predicate Good()
      reads this
    {
      InOrder(nextTx, issued)
    }

    constructor ()
      ensures Good() && issued == []
    {
      nextTx, issued := 1, [];
    }

    method NextTxId() returns (id: Id)
      requires Good()
      modifies this
      ensures Good() && issued == old(issued) + [id]
    {
      NextIsIdAt(|issued|);
      id := nextTx;
      nextTx := RustNext(nextTx);
      issued := issued + [id];
    }
  }

  /** `nextTxID` of the Go client, on the shared cell, with other goroutines running in between. */
  class GoAllocator {
    var nextTx: Id
    ghost var issued: seq<Id>

    ghost predicate Good()
      reads this
    {
      InOrder(nextTx, issued)
    }

    constructor ()
      ensures Good() && issued == []
    {
      nextTx, issued := 1, [];
    }

    /** `n` successful allocations by others. */
    method Others(n: nat)
      requires Good()
      modifies this
      ensures Good() && old(issued) <= issued && |issued| == |old(issued)| + n
    {
      for i := 0 to n
        invariant Good() && old(issued) <= issued && |issued| == |old(issued)| + i
      {
        NextIsIdAt(|issued|);
        issued := issued + [nextTx];
        nextTx := GoNext(nextTx);
      }
    }

    /**
    The retry loop; `contention[i]` is how many others succeed between the load and the swap of the
    i-th attempt.  The id returned is the next one in the common order.
    */
    method NextTxId(contention: seq<nat>) returns (id: Id)
      requires Good()
      modifies this
      ensures Good() && old(issued) < issued && issued[|issued| - 1] == id
    {
      var i := 0;
      while true
        invariant 0 <= i <= |contention|
        invariant Good() && old(issued) <= issued
        decreases |contention| - i
      {
        id := nextTx;
        var next := (id + 1) % U64;
        if next == 0 {
          next := 1;
        }
        if i < |contention| {
          Others(contention[i]);
        }
        if nextTx == id {
          NextIsIdAt(|issued|);
          issued := issued + [id];
          nextTx := next;
          return;
        }
        i := i + 1;
      }
    }
  }
}
