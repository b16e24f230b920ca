/**
The remote_write proxy: many connections, each forwarding one request upstream, counting the outcome
in a persistent hash, and only then replying.  A step is what happens between two await points of one
connection, of another writer of the hash, or of the flush task.
*/
module ProxyEdges {
  import opened Common

  const OK_KEY := "remote_write_ok"
  const ERR_KEY := "remote_write_err"
  const I64_MAX := 0x7FFF_FFFF_FFFF_FFFF
  const I64_MIN := -0x8000_0000_0000_0000
  const U64_MAX := 0xFFFF_FFFF_FFFF_FFFF

  type U64 = n: nat | n <= U64_MAX

  /** `delta as i64`, which wraps. */
  function AsI64(delta: U64): int {
    if delta <= I64_MAX then delta else delta - U64_MAX - 1
  }

  type Hash = map<string, int>

  /** The outcome of forwarding: the upstream status, or an error. */
  type Outcome = Option<nat>

  function KeyOf(o: Outcome): string {
    if o.Some? then OK_KEY else ERR_KEY
  }

  datatype Reply = Ack(txId: nat, status: nat) | Error(txId: nat)

  function ReplyTo(txId: nat, o: Outcome): Reply {
    if o.Some? then Ack(txId, o.value) else Error(txId)
  }

  /** Where a connection stands in `handle_conn`. */
  datatype Conn =
    | Forwarding(txId: nat)
    | Counting(txId: nat, outcome: Outcome)
    | Replying(txId: nat, outcome: Outcome)
    | Rejecting(txId: nat)                      // wrong message type: an error reply, nothing counted
    | Done

  datatype State = State(hash: Hash, conns: map<nat, Conn>)

  datatype Event =
    | Accept(c: nat, messageType: nat, txId: nat)
    | Forward(c: nat, outcome: Outcome)
    | Count(c: nat, key: string, stored: bool)     // HINCRBY by one, or a Redis error
    | Send(c: nat, reply: Reply, written: bool)    // the reply, or a failure to write it
    | Foreign(key: string, delta: U64)             // another caller of `incr` on the same hash
    | Flush

  /** The field of a hash, missing fields counting as zero. */
  function Get(h: Hash, key: string): int {
    if key in h then h[key] else 0
  }

  /** HINCRBY succeeds unless the sum leaves the signed 64-bit range. */
  predicate CanAdd(h: Hash, key: string, delta: int) {
    I64_MIN <= Get(h, key) + delta <= I64_MAX
  }

  function Add(h: Hash, key: string, delta: int): Hash {
    h[key := Get(h, key) + delta]
  }

  /** `totals`: the fields that are not negative. */
  function Totals(h: Hash): Hash {
    h - (set k | k in h && h[k] < 0)
  }

  predicate Enabled(s: State, e: Event) {
    match e
    case Accept(c, _, _) => c !in s.conns
    case Forward(c, _) => c in s.conns && s.conns[c].Forwarding?
    case Count(c, key, stored) =>
      c in s.conns && s.conns[c].Counting? && key == KeyOf(s.conns[c].outcome) && (stored ==> CanAdd(s.hash, key, 1))
    case Send(c, reply, _) =>
      c in s.conns &&
      ((s.conns[c].Replying? && reply == ReplyTo(s.conns[c].txId, s.conns[c].outcome)) ||
       (s.conns[c].Rejecting? && reply == Error(s.conns[c].txId)))
    case Foreign(key, delta) => delta == 0 || CanAdd(s.hash, key, AsI64(delta))
    case Flush => true
  }

  /** `accepted` is the message type the proxy is configured for. */
  function Apply(s: State, e: Event, accepted: nat): State
    requires Enabled(s, e)
  {
    match e
    case Accept(c, mt, txId) => s.(conns := s.conns[c := if mt == accepted then Forwarding(txId) else Rejecting(txId)])
    case Forward(c, o) => s.(conns := s.conns[c := Counting(s.conns[c].txId, o)])
    case Count(c, key, stored) =>
      State(if stored then Add(s.hash, key, 1) else s.hash,
            s.conns[c := Replying(s.conns[c].txId, s.conns[c].outcome)])
    case Send(c, _, _) => s.(conns := s.conns[c := Done])
    case Foreign(key, delta) => if delta == 0 then s else s.(hash := Add(s.hash, key, AsI64(delta)))
    case Flush => s
  }

  ghost predicate Valid(s: State, es: seq<Event>, accepted: nat)
    decreases |es|, 0
  {
    es == [] || (Valid(s, Front(es), accepted) && Enabled(Run(s, Front(es), accepted), Last(es)))
  }

  ghost function Run(s: State, es: seq<Event>, accepted: nat): State
    requires Valid(s, es, accepted)
    decreases |es|, 1
  {
    if es == [] then s else Apply(Run(s, Front(es), accepted), Last(es), accepted)
  }

  // ---------------------------------------------------------------- the counters

  /** What the successful increments of a run add to `key`. */
  function Added(es: seq<Event>, key: string): int
    decreases |es|
  {
    if es == [] then 0
    else
      Added(Front(es), key) +
      match Last(es)
      case Count(_, k, stored) => if k == key && stored then 1 else 0
      case Foreign(k, delta) =>
        if k != key then 0
        else if delta < 0x8000_0000_0000_0000 then delta
        else delta - 0x1_0000_0000_0000_0000
      case _ => 0
  }

  /** Every field is its initial value plus the successful increments of it, whatever the interleaving. */
  lemma {:induction false} CountersConserved(s: State, es: seq<Event>, accepted: nat, key: string)
    requires Valid(s, es, accepted)
    ensures Get(Run(s, es, accepted).hash, key) == Get(s.hash, key) + Added(es, key)
    ensures key in s.hash ==> key in Run(s, es, accepted).hash
    decreases |es|
  {
    if es == [] {
    } else {
      CountersConserved(s, Front(es), accepted, key);
    }
  }

  /** Every prefix of a run is a run, and no field and no connection it knows is forgotten later. */
  lemma {:induction false} PrefixRuns(s: State, es: seq<Event>, accepted: nat, k: nat)
    requires Valid(s, es, accepted) && k <= |es|
    ensures Valid(s, es[..k], accepted)
    ensures Run(s, es[..k], accepted).hash.Keys <= Run(s, es, accepted).hash.Keys
    ensures Run(s, es[..k], accepted).conns.Keys <= Run(s, es, accepted).conns.Keys
    decreases |es|
  {
    if k == |es| {
      assert es[..k] == es;
    } else {
      PrefixRuns(s, Front(es), accepted, k);
      assert Front(es)[..k] == es[..k];
    }
  }

  /** The state after the first `k` events. */
  ghost function At(s: State, es: seq<Event>, accepted: nat, k: nat): State
    requires Valid(s, es, accepted) && k <= |es|
  {
    PrefixRuns(s, es, accepted, k);
    Run(s, es[..k], accepted)
  }

  lemma {:induction false} AtNext(s: State, es: seq<Event>, accepted: nat, k: nat)
    requires Valid(s, es, accepted) && k < |es|
    ensures Enabled(At(s, es, accepted, k), es[k])
    ensures At(s, es, accepted, k + 1) == Apply(At(s, es, accepted, k), es[k], accepted)
  {
    PrefixRuns(s, es, accepted, k + 1);
    assert Front(es[..k + 1]) == es[..k] && Last(es[..k + 1]) == es[k];
  }

  ghost predicate Grows(earlier: Hash, later: Hash) {
    forall key :: key in earlier ==> key in later && earlier[key] <= later[key]
  }

  /** An increment of 2^63 or more, which the cast to i64 turns into a decrement, of a field that is read. */
  predicate Shrinks(s: State, e: Event) {
    e.Foreign? && e.delta > I64_MAX && e.key in Totals(s.hash)
  }

  lemma StepGrows(s: State, e: Event, accepted: nat)
    requires Enabled(s, e)
    ensures Grows(Totals(s.hash), Totals(Apply(s, e, accepted).hash)) <==> !Shrinks(s, e)
  {
    var before, after := Totals(s.hash), Totals(Apply(s, e, accepted).hash);
    if Shrinks(s, e) {
      assert e.key in after ==> after[e.key] < before[e.key];
    }
  }

  /** From one flush to a later one, as long as no step in between shrinks a field. */
  lemma {:induction false} GrowsAlong(s: State, es: seq<Event>, accepted: nat, j: nat, k: nat)
    requires Valid(s, es, accepted) && j <= k <= |es|
    requires forall i :: j <= i < k ==> !Shrinks(At(s, es, accepted, i), es[i])
    ensures Grows(Totals(At(s, es, accepted, j).hash), Totals(At(s, es, accepted, k).hash))
    decreases k
  {
    if j == k {
    } else {
      GrowsAlong(s, es, accepted, j, k - 1);
      AtNext(s, es, accepted, k - 1);
      StepGrows(At(s, es, accepted, k - 1), es[k - 1], accepted);
    }
  }

  /** What a flush at any point would read is at least what one at any earlier point would have read. */
  ghost predicate TotalsGrow(s: State, es: seq<Event>, accepted: nat)
    requires Valid(s, es, accepted)
  {
    forall j, k :: 0 <= j <= k <= |es| ==>
      Grows(Totals(At(s, es, accepted, j).hash), Totals(At(s, es, accepted, k).hash))
  }

  ghost predicate NothingShrinks(s: State, es: seq<Event>, accepted: nat)
    requires Valid(s, es, accepted)
  {
    forall k :: 0 <= k < |es| ==> !Shrinks(At(s, es, accepted, k), es[k])
  }

  /**
  What a flush reads is at least what any earlier one read, key by key, and no key disappears, if and
  only if nobody increments a field that is read by 2^63 or more.  The proxy, which adds one, never does.
  */
  lemma {:induction false} FlushesNeverDecrease(s: State, es: seq<Event>, accepted: nat)
    requires Valid(s, es, accepted)
    ensures TotalsGrow(s, es, accepted) <==> NothingShrinks(s, es, accepted)
  {
    if NothingShrinks(s, es, accepted) {
      forall j, k | 0 <= j <= k <= |es|
        ensures Grows(Totals(At(s, es, accepted, j).hash), Totals(At(s, es, accepted, k).hash))
      {
        GrowsAlong(s, es, accepted, j, k);
      }
    } else {
      var k :| 0 <= k < |es| && Shrinks(At(s, es, accepted, k), es[k]);
      AtNext(s, es, accepted, k);
      StepGrows(At(s, es, accepted, k), es[k], accepted);
      assert !Grows(Totals(At(s, es, accepted, k).hash), Totals(At(s, es, accepted, k + 1).hash));
    }
  }

  /** What a flush reads for a key is the initial value plus the successful increments of it. */
  lemma {:induction false} FlushReads(s: State, es: seq<Event>, accepted: nat, key: string)
    requires Valid(s, es, accepted)
    ensures
      var before := if key in s.hash then s.hash[key] else 0;
      var totals, total := Totals(Run(s, es, accepted).hash), before + Added(es, key);
      && (key in totals <==> key in Run(s, es, accepted).hash && total >= 0)
      && (key in totals ==> totals[key] == total)
  {
    CountersConserved(s, es, accepted, key);
  }

  // ---------------------------------------------------------------- count before reply

  /** Attempts to count a success, stored or not. */
  function OkCounts(es: seq<Event>): nat
    decreases |es|
  {
    if es == [] then 0
    else OkCounts(Front(es)) + (if Last(es).Count? && Last(es).key == OK_KEY then 1 else 0)
  }

  /** Acknowledgements written, and those whose write failed. */
  function Acks(es: seq<Event>, written: bool): nat
    decreases |es|
  {
    if es == [] then 0
    else
      Acks(Front(es), written) +
      (if Last(es).Send? && Last(es).reply.Ack? && Last(es).written == written then 1 else 0)
  }

  predicate AckDue(p: Conn) {
    p.Replying? && p.outcome.Some?
  }

  function PendingAcks(s: State): set<nat> {
    set c | c in s.conns && AckDue(s.conns[c])
  }

  lemma PendingStep(s: State, e: Event, accepted: nat)
    requires Enabled(s, e)
    ensures PendingAcks(Apply(s, e, accepted)) ==
      match e
      case Count(c, key, _) => if key == OK_KEY then PendingAcks(s) + {c} else PendingAcks(s)
      case Send(c, reply, _) => PendingAcks(s) - {c}
      case _ => PendingAcks(s)
  {
    assert OK_KEY[13] != ERR_KEY[13];
  }

  /**
  Conservation of acknowledgements: at every point the attempts to count a success are exactly the
  acknowledgements written, plus those whose write failed, plus those still due.  So acknowledgements
  never run ahead of the counter.
  */
  lemma {:induction false} AcksConserved(hash: Hash, es: seq<Event>, accepted: nat)
    requires Valid(State(hash, map[]), es, accepted)
    ensures OkCounts(es) == Acks(es, true) + Acks(es, false) + |PendingAcks(Run(State(hash, map[]), es, accepted))|
    ensures Acks(es, true) <= OkCounts(es)
    decreases |es|
  {
    var s0 := State(hash, map[]);
    if es == [] {
      assert PendingAcks(s0) == {};
    } else {
      AcksConserved(hash, Front(es), accepted);
      var before := Run(s0, Front(es), accepted);
      PendingStep(before, Last(es), accepted);
      if Last(es).Send? && !Last(es).reply.Ack? {
        assert PendingAcks(before) - {Last(es).c} == PendingAcks(before);
      }
    }
  }

  /**
  The part of the history that explains where connection `c` is: it sent its request at `a`, the
  upstream answered at `f`, and that outcome was counted at `k`.
  */
  predicate Story(es: seq<Event>, c: nat, p: Conn, accepted: nat, a: nat, f: nat, k: nat) {
    match p
    case Forwarding(txId) => a < |es| && es[a] == Accept(c, accepted, txId)
    case Counting(txId, o) => a < f < |es| && es[a] == Accept(c, accepted, txId) && es[f] == Forward(c, o)
    case Replying(txId, o) =>
      && a < f < k < |es|
      && es[a] == Accept(c, accepted, txId)
      && es[f] == Forward(c, o)
      && es[k].Count? && es[k].c == c && es[k].key == KeyOf(o)
    case Rejecting(txId) =>
      a < |es| && es[a].Accept? && es[a].c == c && es[a].txId == txId && es[a].messageType != accepted
    case Done => true
  }

  predicate Concerns(e: Event, c: nat) {
    (e.Accept? || e.Forward? || e.Count? || e.Send?) && e.c == c
  }

  lemma {:induction false} Explain(s: State, es: seq<Event>, accepted: nat, c: nat) returns (a: nat, f: nat, k: nat)
    requires s.conns == map[] && Valid(s, es, accepted) && c in Run(s, es, accepted).conns
    ensures Story(es, c, Run(s, es, accepted).conns[c], accepted, a, f, k)
    decreases |es|
  {
    var e, n := Last(es), |es| - 1;
    if e.Accept? && e.c == c {
      a, f, k := n, 0, 0;
    } else {
      a, f, k := Explain(s, Front(es), accepted, c);
      if Concerns(e, c) {
        if e.Forward? { f := n; }
        if e.Count? { k := n; }
      }
    }
  }

  /**
  Count before reply.  Every reply carries the transaction id of the request its connection sent (the
  event at `a`).  If that request had the accepted type, the reply comes after the upstream outcome it
  reports, an acknowledgement with its status or an error, was received and counted under its own
  key; otherwise it is an error and nothing was forwarded or counted for it.
  */
  lemma RepliesAreCounted(s: State, es: seq<Event>, accepted: nat, c: nat, reply: Reply, written: bool)
    returns (a: nat, f: nat, k: nat)
    requires s.conns == map[] && Valid(s, es, accepted)
    requires Enabled(Run(s, es, accepted), Send(c, reply, written))
    ensures a < |es| && es[a].Accept? && es[a].c == c && es[a].txId == reply.txId
    ensures es[a].messageType == accepted ==>
      && a < f < k < |es|
      && es[f].Forward? && es[f].c == c
      && (es[f].outcome.Some? ==> reply == Ack(es[a].txId, es[f].outcome.value))
      && (es[f].outcome.None? ==> reply == Error(es[a].txId))
      && es[k].Count? && es[k].c == c
      && es[k].key == (if es[f].outcome.Some? then "remote_write_ok" else "remote_write_err")
    ensures es[a].messageType != accepted ==> reply == Error(es[a].txId)
    ensures es[a].messageType != accepted ==>
      forall i :: 0 <= i < |es| ==> !((es[i].Forward? || es[i].Count?) && es[i].c == c)
  {
    a, f, k := Explain(s, es, accepted, c);
    if es[a].messageType != accepted {
      RejectedStaysOut(s, es, accepted, c);
    }
  }

  /** A rejected connection never forwards or counts. */
  lemma {:induction false} RejectedStaysOut(s: State, es: seq<Event>, accepted: nat, c: nat)
    requires s.conns == map[] && Valid(s, es, accepted)
    requires c !in Run(s, es, accepted).conns || Run(s, es, accepted).conns[c].Rejecting?
    ensures forall i :: 0 <= i < |es| ==> !((es[i].Forward? || es[i].Count?) && es[i].c == c)
    decreases |es|
  {
    if es == [] {
    } else {
      RejectedStaysOut(s, Front(es), accepted, c);
      assert forall i :: 0 <= i < |es| - 1 ==> es[i] == Front(es)[i];
    }
  }

  /** A connection that is done stays done. */
  lemma {:induction false} DoneForGood(s: State, es: seq<Event>, accepted: nat, k: nat, c: nat)
    requires Valid(s, es, accepted) && k <= |es| && Valid(s, es[..k], accepted)
    requires c in Run(s, es[..k], accepted).conns && Run(s, es[..k], accepted).conns[c].Done?
    ensures c in Run(s, es, accepted).conns && Run(s, es, accepted).conns[c].Done?
    decreases |es|
  {
    if k == |es| {
      assert es[..k] == es;
    } else {
      assert Front(es)[..k] == es[..k];
      DoneForGood(s, Front(es), accepted, k, c);
    }
  }

  /** Each connection gets at most one reply. */
  lemma {:induction false} AtMostOneReply(s: State, es: seq<Event>, accepted: nat, i: nat, j: nat)
    requires Valid(s, es, accepted) && i < j < |es| && es[i].Send? && es[j].Send?
    ensures es[i].c != es[j].c
  {
    PrefixRuns(s, es, accepted, i + 1);
    PrefixRuns(s, es, accepted, j);
    PrefixRuns(s, es, accepted, j + 1);
    assert Front(es[..i + 1]) == es[..i] && Last(es[..i + 1]) == es[i];
    assert Front(es[..j + 1]) == es[..j] && Last(es[..j + 1]) == es[j];
    assert es[..j][..i + 1] == es[..i + 1];
    DoneForGood(s, es[..j], accepted, i + 1, es[i].c);
  }

  // ---------------------------------------------------------------- the store and the handler

  /** `EdgeStore` over a Redis hash; `up` says whether Redis can be reached. */
  class EdgeStore {
    var hash: Hash

    method Incr(key: string, delta: U64, up: bool) returns (ok: bool)
      modifies this
      ensures
        var before := if key in old(hash) then old(hash)[key] else 0;
        var amount := if delta < 0x8000_0000_0000_0000 then delta else delta - 0x1_0000_0000_0000_0000;
        && (ok <==> delta == 0 || (up && -0x8000_0000_0000_0000 <= before + amount < 0x8000_0000_0000_0000))
        && hash == if ok && delta != 0 then old(hash)[key := before + amount] else old(hash)
    {
      if delta == 0 {
        return true;
      }
      var amount: int := if delta < 0x8000_0000_0000_0000 then delta else delta - 0x1_0000_0000_0000_0000;
      ok := up && CanAdd(hash, key, amount);
      if ok {
        hash := hash[key := (if key in hash then hash[key] else 0) + amount];
      }
    }

    method ReadTotals() returns (totals: Hash)
      ensures totals == Totals(hash)
      ensures forall k :: k in totals <==> k in hash && hash[k] >= 0
      ensures forall k :: k in totals ==> totals[k] == hash[k]
    {
      totals := map[];
      var rest := hash.Keys;
      while rest != {}
        invariant rest <= hash.Keys
        invariant totals.Keys == set k | k in hash.Keys - rest && hash[k] >= 0
        invariant forall k :: k in totals ==> totals[k] == hash[k]
      {
        var k :| k in rest;
        if hash[k] >= 0 {
          totals := totals[k := hash[k]];
        }
        rest := rest - {k};
      }
    }
  }

  /** The events of connection `c`, in order. */
  function Own(es: seq<Event>, c: nat): seq<Event> {
    Filter(es, (e: Event) => Concerns(e, c))
  }

  /** A run and what it did of connection `c`. */
  ghost predicate Traced(s0: State, es: seq<Event>, s: State, accepted: nat, c: nat, own: seq<Event>) {
    Valid(s0, es, accepted) && Run(s0, es, accepted) == s && Own(es, c) == own
  }

  lemma Trace(s0: State, es: seq<Event>, s: State, e: Event, accepted: nat, c: nat, own: seq<Event>)
    requires Traced(s0, es, s, accepted, c, own) && Enabled(s, e)
    ensures Traced(s0, es + [e], Apply(s, e, accepted), accepted, c, if Concerns(e, c) then own + [e] else own)
  {
    assert Front(es + [e]) == es && Last(es + [e]) == e;
  }

  /** The proxy's shared state: the edge store, and where each connection stands. */
  class Proxy {
    const accepted: nat
    const edges: EdgeStore
    var conns: map<nat, Conn>

    constructor (messageType: nat, store: EdgeStore)
      ensures accepted == messageType && edges == store && conns == map[]
    {
      accepted, edges, conns := messageType, store, map[];
    }

    function Abs(): State
      reads this, edges
    {
      State(edges.hash, conns)
    }

    /** What others do while connection `c` waits. */
    method Others(c: nat, events: seq<Event>, ghost s0: State, ghost trace: seq<Event>, ghost own: seq<Event>)
      returns (ghost trace': seq<Event>)
      requires Traced(s0, trace, Abs(), accepted, c, own)
      modifies this, edges
      ensures Traced(s0, trace', Abs(), accepted, c, own)
      ensures c in conns <==> c in old(conns)
      ensures c in conns ==> conns[c] == old(conns[c])
    {
      trace' := trace;
      for i := 0 to |events|
        invariant Traced(s0, trace', Abs(), accepted, c, own)
        invariant c in conns <==> c in old(conns)
        invariant c in conns ==> conns[c] == old(conns[c])
      {
        var e := events[i];
        if !Concerns(e, c) && Enabled(Abs(), e) {
          Trace(s0, trace', Abs(), e, accepted, c, own);
          trace' := trace' + [e];
          var next := Apply(Abs(), e, accepted);
          conns, edges.hash := next.conns, next.hash;
        }
      }
    }

    /** One step of connection `c` that does not touch the store. */
    method Take(c: nat, e: Event, ghost s0: State, ghost trace: seq<Event>, ghost own: seq<Event>)
      returns (ghost trace': seq<Event>)
      requires Traced(s0, trace, Abs(), accepted, c, own) && Enabled(Abs(), e)
      requires (e.Accept? || e.Forward? || e.Send?) && e.c == c
      modifies this
      ensures Abs() == Apply(old(Abs()), e, accepted) && Traced(s0, trace', Abs(), accepted, c, own + [e])
    {
      Trace(s0, trace, Abs(), e, accepted, c, own);
      trace' := trace + [e];
      conns := Apply(Abs(), e, accepted).conns;
    }

    /** The outcome is counted in the store; a Redis error is only logged. */
    method CountOutcome(c: nat, upstream: Outcome, up: bool,
                        ghost s0: State, ghost trace: seq<Event>, ghost own: seq<Event>)
      returns (stored: bool, ghost trace': seq<Event>)
      requires c in conns && conns[c].Counting? && conns[c].outcome == upstream
      requires Traced(s0, trace, Abs(), accepted, c, own)
      modifies this, edges
      ensures stored <==> up && CanAdd(old(edges.hash), KeyOf(upstream), 1)
      ensures Abs() == Apply(old(Abs()), Count(c, KeyOf(upstream), stored), accepted)
      ensures Traced(s0, trace', Abs(), accepted, c, own + [Count(c, KeyOf(upstream), stored)])
    {
      ghost var before := Abs();
      var key := if upstream.Some? then OK_KEY else ERR_KEY;
      stored := edges.Incr(key, 1, up);
      Trace(s0, trace, before, Count(c, key, stored), accepted, c, own);
      trace' := trace + [Count(c, key, stored)];
      conns := conns[c := Replying(conns[c].txId, upstream)];
    }

    /** Forwarding and counting, for a request of the accepted type. */
    method Serve(c: nat, txId: nat, upstream: Outcome, up: bool, others: nat -> seq<Event>,
                 ghost s0: State, ghost trace: seq<Event>, ghost own: seq<Event>)
      returns (stored: bool, ghost trace': seq<Event>)
      requires c in conns && conns[c] == Forwarding(txId)
      requires Traced(s0, trace, Abs(), accepted, c, own)
      modifies this, edges
      ensures c in conns && conns[c] == Replying(txId, upstream)
      ensures Traced(s0, trace', Abs(), accepted, c,
                     own + [Forward(c, upstream)] + [Count(c, KeyOf(upstream), stored)])
    {
      trace' := Take(c, Forward(c, upstream), s0, trace, own);
      ghost var own' := own + [Forward(c, upstream)];
      trace' := Others(c, others(1), s0, trace', own');
      stored, trace' := CountOutcome(c, upstream, up, s0, trace', own');
    }

    /** What a connection does in its life, with the reply it sends and whether its outcome was stored. */
    function Life(c: nat, messageType: nat, txId: nat, upstream: Outcome, stored: bool, reply: Reply, written: bool)
      : seq<Event>
    {
      if messageType == accepted then
        [Accept(c, messageType, txId), Forward(c, upstream),
         Count(c, if upstream.Some? then "remote_write_ok" else "remote_write_err", stored), Send(c, reply, written)]
      else
        [Accept(c, messageType, txId), Send(c, reply, written)]
    }

    /**
    `handle_conn`, with arbitrary steps of others (`others`) wherever it waits.  Whatever those are,
    the whole execution is a run of the state machine in which this connection forwards once, counts
    the outcome once under its key, and then replies once with that outcome; or, for another message
    type, only replies with an error.
    */
    method HandleConn(c: nat, messageType: nat, txId: nat, upstream: Outcome, up: bool, written: bool,
                      others: nat -> seq<Event>)
      returns (reply: Reply, stored: bool, ghost trace: seq<Event>)
      requires c !in conns
      modifies this, edges
      ensures Traced(old(Abs()), trace, Abs(), accepted, c,
                     Life(c, messageType, txId, upstream, stored, reply, written))
      ensures messageType == accepted && upstream.Some? ==> reply == Ack(txId, upstream.value)
      ensures messageType != accepted || upstream.None? ==> reply == Error(txId)
      ensures c in conns && conns[c].Done?
    {
      ghost var s0 := Abs();
      stored := false;
      trace := Take(c, Accept(c, messageType, txId), s0, [], []);
      ghost var own := [Accept(c, messageType, txId)];
      trace := Others(c, others(0), s0, trace, own);
      if messageType != accepted {
        reply := Error(txId);
      } else {
        stored, trace := Serve(c, txId, upstream, up, others, s0, trace, own);
        own := own + [Forward(c, upstream)] + [Count(c, KeyOf(upstream), stored)];
        trace := Others(c, others(2), s0, trace, own);
        reply := if upstream.Some? then Ack(txId, upstream.value) else Error(txId);
      }
      trace := Take(c, Send(c, reply, written), s0, trace, own);
    }
  }
}
