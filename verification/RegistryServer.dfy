/**
The server itself: `Inner` with its two maps updated in place, request handling and the probe
cycle.  Every method is tied to the state machine of module Registry, in which the guarantees are
proved; between the lock regions of a probe cycle arbitrary steps of others may happen.
*/
module RegistryServer {
  import opened Common
  import opened Registry
  import opened RegistryHistory
  import opened TinyFrame
  import Codec = TinyFrameCodec

  const MSG_REGISTER: Byte := 1
  const MSG_REGISTER_ACK: Byte := 2
  const MSG_QUERY: Byte := 3
  const MSG_QUERY_RESULT: Byte := 4
  const MSG_ERROR: Byte := 5

  datatype RegisterRequest = RegisterRequest(port: U16, labels: seq<string>, extra: string)

  datatype Content = Ack | Nodes(nodes: seq<Node>) | UnknownType(messageType: Byte) | NoLabels
  datatype Reply = Reply(messageType: Byte, txId: U64, content: Content)

  /** JSON, decoding (`None` is an error) and encoding. */
  datatype Json = Json(
    asRegister: Bytes -> Option<RegisterRequest>,
    asQuery: Bytes -> Option<seq<string>>,
    encode: Content -> Bytes)

  /** The data of a reply; an acknowledgement is `{}`. */
  function Body(json: Json, c: Content): Bytes {
    if c.Ack? then [123, 125] else json.encode(c)
  }

  /** `write_frame_plain` fails for a body that does not fit a frame, and then there is no reply. */
  function Sent(json: Json, r: Reply): Option<Reply> {
    if |Body(json, r.content)| <= U16_MAX then Some(r) else None
  }

  /** A reply is sent exactly if the codec can frame it, and the peer reads type, id and body as meant. */
  lemma SentIsFramed(w: Lib, r: Lib, key: Option<Key>, json: Json, reply: Reply, nonce: Nonce, rest: Bytes)
    requires Interops(w, r) && SealsWithTag(w) && reply.messageType <= MESSAGE_TYPE_MASK
    ensures
      var q := Codec.Request(reply.messageType, reply.txId, Body(json, reply.content), COMPRESS_NONE, nonce);
      var wire := Codec.Build(w, key, q);
      && q.data == (if reply.content == Ack then [123, 125] else json.encode(reply.content))    // {} or JSON
      && (Sent(json, reply).Some? <==> wire.Ok?)
      && (wire.Ok? ==>
            Codec.Read(r, key, wire.value + rest) ==
            Codec.Reading(Ok(Frame(reply.messageType, COMPRESS_NONE, false, reply.txId, q.data)), rest))
  {
    var q := Codec.Request(reply.messageType, reply.txId, Body(json, reply.content), COMPRESS_NONE, nonce);
    Codec.WriterDomain(w, key, q);
    if Codec.Build(w, key, q).Ok? {
      Codec.ReadUndoesBuild(w, r, key, q, rest);
    }
  }

  /** The replies that a query can get on these maps. */
  ghost predicate QueryReply(json: Json, frame: Frame, storeOk: bool, table: map<Ip, Node>, health: map<Ip, Health>,
                             reply: Option<Reply>)
  {
    match json.asQuery(frame.data)
    case None => reply == None
    case Some(labels) =>
      if labels == [] then reply == Sent(json, Reply(5, frame.txId, NoLabels))
      else if storeOk then
        exists nodes :: IsAnswer(nodes, labels, table, health) &&
                        reply == Sent(json, Reply(4, frame.txId, Nodes(nodes)))
      else reply == None
  }

  /** The events of loop `l`, in order. */
  function Own(es: seq<Event>, l: nat): seq<Event> {
    Filter(es, (e: Event) => OfLoop(e, l))
  }

  /** The probe answers of one cycle, one per node of its snapshot. */
  function Answers(l: nat, nodes: seq<Node>, probe: nat -> bool, n: nat): seq<Event>
    requires n <= |nodes|
  {
    if n == 0 then [] else Answers(l, nodes, probe, n - 1) + [Probe(l, nodes[n - 1].ip, probe(n - 1))]
  }

  lemma AnswersStep(l: nat, nodes: seq<Node>, probe: nat -> bool, n: nat, before: seq<Event>)
    requires n < |nodes|
    ensures nodes[n..][0] == nodes[n] && nodes[n..][1..] == nodes[n + 1..]
    ensures before + Answers(l, nodes, probe, n + 1) ==
      before + Answers(l, nodes, probe, n) + [Probe(l, nodes[n].ip, probe(n))]
  {
  }

  /** A run and what it did of loop `l`. */
  ghost predicate Traced(s0: State, es: seq<Event>, s: State, ttl: nat, l: nat, own: seq<Event>) {
    Valid(s0, es, ttl) && Run(s0, es, ttl) == s && Own(es, l) == own
  }

  lemma Trace(s0: State, es: seq<Event>, s: State, e: Event, ttl: nat, l: nat, own: seq<Event>)
    requires Traced(s0, es, s, ttl, l, own) && Enabled(s, e)
    ensures Traced(s0, es + [e], Apply(s, e, ttl), ttl, l, if OfLoop(e, l) then own + [e] else own)
  {
    assert Front(es + [e]) == es && Last(es + [e]) == e;
  }

  /** A run that ends with the sweep of loop `l`, whose own events are those of one whole cycle. */
  ghost predicate CycleDone(s0: State, es: seq<Event>, s: State, ttl: nat, l: nat, nodes: seq<Node>,
                            probe: nat -> bool, marked: seq<Ip>, removed: seq<Ip>)
  {
    && Traced(s0, es, s, ttl, l,
              [Begin(l, nodes), Stamp(l)] + Answers(l, nodes, probe, |nodes|) + [Finish(l, removed)])
    && removed <= marked
    && es != [] && Last(es) == Finish(l, removed)
    && var before := Run(s0, Front(es), ttl);
       l in before.loops && before.loops[l].Probing? && before.loops[l].todo == [] && before.loops[l].expired == marked
  }

  class Server {
    const ttl: nat
    var table: map<Ip, Node>
    var health: map<Ip, Health>
    var clock: nat
    var loops: map<nat, Loop>

    function Abs(): State
      reads this
    {
      State(table, health, clock, loops)
    }

    /** `Server::new` on an existing database. */
    constructor (rows: map<Ip, Node>, now: nat, offlineTtl: nat)
      requires WellKeyed(rows)
      ensures ttl == offlineTtl && Booted(Abs())
      ensures table == rows && clock == now && loops == map[0 := Idle]
    {
      ttl, table, clock, loops := offlineTtl, rows, now, map[0 := Idle];
      health := map[];
      new;
      var loaded: map<Ip, Health> := map[];
      var rest := rows.Keys;
      while rest != {}
        invariant rest <= rows.Keys && loaded.Keys == rows.Keys - rest
        invariant forall ip :: ip in loaded ==> loaded[ip] == Health(false, now)
        invariant ttl == offlineTtl && table == rows && clock == now && loops == map[0 := Idle]
      {
        var ip :| ip in rest;
        loaded := loaded[ip := Health(false, now)];
        rest := rest - {ip};
      }
      health := loaded;
    }

    /** `list_all`: every row once. */
    method ListAll() returns (nodes: seq<Node>)
      requires WellKeyed(table)
      ensures IsListing(nodes, table)
    {
      nodes := [];
      var rest := table.Keys;
      while rest != {}
        invariant rest <= table.Keys
        invariant forall i :: 0 <= i < |nodes| ==> nodes[i].ip in table.Keys - rest && table[nodes[i].ip] == nodes[i]
        invariant forall ip :: ip in table.Keys - rest ==> Lists(nodes, ip)
        invariant DistinctIps(nodes)
      {
        var ip :| ip in rest;
        ghost var before := nodes;
        assert forall other :: other in table.Keys - rest ==> Lists(before, other);
        nodes := nodes + [table[ip]];
        rest := rest - {ip};
        assert nodes[|before|].ip == ip;
        forall other | other in table.Keys - rest ensures Lists(nodes, other) {
          if other != ip {
            assert Lists(before, other);
            var i :| 0 <= i < |before| && before[i].ip == other;
            assert nodes[i].ip == other;
          }
        }
      }
    }

    /** The label filter of `list_by_labels`: every requested label is there. */
    method Carries(n: Node, labels: seq<string>) returns (all: bool)
      ensures all <==> forall l :: l in labels ==> l in n.labels
    {
      for i := 0 to |labels|
        invariant forall k :: 0 <= k < i ==> labels[k] in n.labels
      {
        if labels[i] !in n.labels {
          return false;
        }
      }
      all := true;
    }

    /** The read-locked part of `handle_query`: the stored rows that pass both filters, each once. */
    method Query(labels: seq<string>) returns (nodes: seq<Node>)
      requires WellKeyed(table)
      ensures forall n :: n in nodes <==>
        && n.ip in table && table[n.ip] == n
        && (forall l :: l in labels ==> l in n.labels)
        && n.ip in health && health[n.ip].healthy
      ensures DistinctIps(nodes) && IsAnswer(nodes, labels, table, health)
    {
      var rows := ListAll();
      nodes := [];
      var i := |rows|;
      while i > 0
        invariant 0 <= i <= |rows|
        invariant nodes == Answer(rows[i..], labels, health)
      {
        i := i - 1;
        assert rows[i..][1..] == rows[i + 1..];
        var carries := Carries(rows[i], labels);
        if carries && rows[i].ip in health && health[rows[i].ip].healthy {
          nodes := [rows[i]] + nodes;
        }
      }
      assert rows[0..] == rows;
      ListingAnswers(rows, labels, table, health);
    }

    /**
    `handle_frame`.  Which reply each request gets, if any, always with its transaction id; and the
    registry changes only by a registration that decodes, has a label and is accepted by the store,
    and then exactly as the Register step of the state machine does.
    */
    method HandleFrame(peer: Ip, frame: Frame, json: Json, storeOk: bool) returns (reply: Option<Reply>)
      requires WellKeyed(table)
      modifies this`table, this`health
      ensures reply.Some? ==> reply.value.txId == frame.txId
      ensures
        var req := json.asRegister(frame.data);
        if frame.messageType == 1 && req.Some? && req.value.labels != [] && storeOk then
          var node := Node(peer, req.value.port, req.value.labels, req.value.extra);
          Abs() == Apply(old(Abs()), Register(node), ttl)
        else
          Abs() == old(Abs())
      ensures frame.messageType == 1 ==>
        var req := json.asRegister(frame.data);
        reply ==
          if req.None? then None
          else if req.value.labels == [] then Sent(json, Reply(5, frame.txId, NoLabels))
          else if storeOk then Some(Reply(2, frame.txId, Ack))
          else None
      ensures frame.messageType == 3 ==> QueryReply(json, frame, storeOk, table, health, reply)
      ensures frame.messageType != 1 && frame.messageType != 3 ==>
        reply == Sent(json, Reply(5, frame.txId, UnknownType(frame.messageType)))
    {
      reply := None;
      if frame.messageType == MSG_REGISTER {
        var req := json.asRegister(frame.data);
        if req.Some? {
          if req.value.labels == [] {
            reply := Sent(json, Reply(MSG_ERROR, frame.txId, NoLabels));
          } else if storeOk {
            table := table[peer := Node(peer, req.value.port, req.value.labels, req.value.extra)];
            health := health[peer := Health(true, clock)];
            reply := Sent(json, Reply(MSG_REGISTER_ACK, frame.txId, Ack));
          }
        }
      } else if frame.messageType == MSG_QUERY {
        var labels := json.asQuery(frame.data);
        if labels.Some? {
          if labels.value == [] {
            reply := Sent(json, Reply(MSG_ERROR, frame.txId, NoLabels));
          } else if storeOk {
            var nodes := Query(labels.value);
            reply := Sent(json, Reply(MSG_QUERY_RESULT, frame.txId, Nodes(nodes)));
          }
        }
      } else {
        reply := Sent(json, Reply(MSG_ERROR, frame.txId, UnknownType(frame.messageType)));
      }
    }

    /** What others do while loop `l` holds no lock: clients, the clock, other probe loops. */
    method Others(l: nat, events: seq<Event>, ghost s0: State, ghost trace: seq<Event>, ghost own: seq<Event>)
      returns (ghost trace': seq<Event>)
      requires Inv(Abs()) && l in loops && Traced(s0, trace, Abs(), ttl, l, own)
      modifies this`table, this`health, this`clock, this`loops
      ensures Inv(Abs()) && l in loops && loops[l] == old(loops[l])
      ensures Traced(s0, trace', Abs(), ttl, l, own)
    {
      trace' := trace;
      for i := 0 to |events|
        invariant Inv(Abs()) && l in loops && loops[l] == old(loops[l])
        invariant Traced(s0, trace', Abs(), ttl, l, own)
      {
        var e := events[i];
        if !OfLoop(e, l) && !e.Restart? && Enabled(Abs(), e) {
          StepKeepsInv(Abs(), e, ttl);
          Trace(s0, trace', Abs(), e, ttl, l, own);
          trace' := trace' + [e];
          var next := Apply(Abs(), e, ttl);
          table, health, clock, loops := next.table, next.health, next.clock, next.loops;
        }
      }
    }

    /** The sweep, up to the first store error. */
    method Sweep(expired: seq<Ip>, storeOk: nat -> bool) returns (n: nat)
      modifies this`table, this`health
      ensures n <= |expired| && (n < |expired| ==> !storeOk(n)) && forall i: nat :: i < n ==> storeOk(i)
      ensures table == Without(old(table), expired[..n]) && health == Without(old(health), expired[..n])
    {
      n := 0;
      while n < |expired| && storeOk(n)
        invariant n <= |expired| && forall i: nat :: i < n ==> storeOk(i)
        invariant table == Without(old(table), expired[..n])
        invariant health == Without(old(health), expired[..n])
      {
        assert expired[..n + 1] == expired[..n] + [expired[n]];
        table := table - {expired[n]};
        health := health - {expired[n]};
        n := n + 1;
      }
    }

    /** The read-locked start of a cycle. */
    method Snapshot(l: nat) returns (nodes: seq<Node>)
      requires Inv(Abs()) && l in loops && loops[l].Idle?
      modifies this`loops
      ensures IsListing(nodes, table)
      ensures Enabled(old(Abs()), Begin(l, nodes)) && Abs() == Apply(old(Abs()), Begin(l, nodes), ttl)
    {
      nodes := ListAll();
      loops := loops[l := Listed(nodes)];
    }

    /** The one reading of the clock in a cycle. */
    method StampCycle(l: nat) returns (now: nat)
      requires l in loops && loops[l].Listed?
      modifies this`loops
      ensures Abs() == Apply(old(Abs()), Stamp(l), ttl) && now == clock
    {
      now := clock;
      loops := loops[l := Probing(now, loops[l].nodes, [])];
    }

    /** Snapshot and stamp of a cycle, with steps of others in between. */
    method OpenCycle(l: nat, between: seq<Event>)
      returns (nodes: seq<Node>, now: nat, ghost trace: seq<Event>)
      requires Inv(Abs()) && l in loops && loops[l].Idle?
      modifies this`table, this`health, this`clock, this`loops
      ensures Inv(Abs()) && l in loops && loops[l] == Probing(now, nodes, [])
      ensures IsListing(nodes, old(table))
      ensures Traced(old(Abs()), trace, Abs(), ttl, l, [Begin(l, nodes)] + [Stamp(l)])
    {
      ghost var s0 := Abs();
      nodes := Snapshot(l);
      StepKeepsInv(s0, Begin(l, nodes), ttl);
      Trace(s0, [], s0, Begin(l, nodes), ttl, l, []);
      assert [] + [Begin(l, nodes)] == [Begin(l, nodes)];
      trace := Others(l, between, s0, [Begin(l, nodes)], [Begin(l, nodes)]);
      Trace(s0, trace, Abs(), Stamp(l), ttl, l, [Begin(l, nodes)]);
      StepKeepsInv(Abs(), Stamp(l), ttl);
      trace := trace + [Stamp(l)];
      now := StampCycle(l);
    }

    /** The write-locked part of one probe: record the answer, and mark the node if it is overdue. */
    method WriteAnswer(l: nat, ip: Ip, answer: bool, now: nat, expired: seq<Ip>, rest: seq<Node>)
      returns (expired': seq<Ip>)
      requires Enabled(Abs(), Probe(l, ip, answer))
      requires loops[l].now == now && loops[l].expired == expired && loops[l].todo[1..] == rest
      modifies this`health, this`loops
      ensures Abs() == Apply(old(Abs()), Probe(l, ip, answer), ttl)
      ensures loops[l] == Probing(now, rest, expired')
    {
      var state := if ip in health then health[ip] else Health(false, now);
      expired' := expired;
      if answer {
        state := Health(true, now);
      } else {
        state := state.(healthy := false);
        if Since(now, state.lastOk) >= ttl {
          expired' := expired + [ip];
        }
      }
      health := health[ip := state];
      loops := loops[l := Probing(now, rest, expired')];
    }

    /** One node of the snapshot: others run while the probe is out, then its answer is written. */
    method ProbeOne(l: nat, answer: bool, now: nat, todo: seq<Node>, expired: seq<Ip>, meanwhile: seq<Event>,
                    ghost s0: State, ghost trace: seq<Event>, ghost own: seq<Event>)
      returns (expired': seq<Ip>, ghost trace': seq<Event>)
      requires Inv(Abs()) && l in loops && loops[l] == Probing(now, todo, expired) && todo != []
      requires Traced(s0, trace, Abs(), ttl, l, own)
      modifies this`table, this`health, this`clock, this`loops
      ensures Inv(Abs()) && l in loops && loops[l] == Probing(now, todo[1..], expired')
      ensures Traced(s0, trace', Abs(), ttl, l, own + [Probe(l, todo[0].ip, answer)])
    {
      trace' := Others(l, meanwhile, s0, trace, own);
      ghost var e := Probe(l, todo[0].ip, answer);
      Trace(s0, trace', Abs(), e, ttl, l, own);
      StepKeepsInv(Abs(), e, ttl);
      trace' := trace' + [e];
      expired' := WriteAnswer(l, todo[0].ip, answer, now, expired, todo[1..]);
    }

    /** The probe loop of a cycle: one answer per node of the snapshot, others in between. */
    method ProbeAll(l: nat, nodes: seq<Node>, now: nat, probe: nat -> bool, others: nat -> seq<Event>,
                    ghost s0: State, ghost trace: seq<Event>)
      returns (expired: seq<Ip>, ghost trace': seq<Event>)
      requires Inv(Abs()) && l in loops && loops[l] == Probing(now, nodes, [])
      requires Traced(s0, trace, Abs(), ttl, l, [Begin(l, nodes), Stamp(l)])
      modifies this`table, this`health, this`clock, this`loops
      ensures Inv(Abs()) && l in loops && loops[l] == Probing(now, [], expired)
      ensures Traced(s0, trace', Abs(), ttl, l, [Begin(l, nodes), Stamp(l)] + Answers(l, nodes, probe, |nodes|))
    {
      trace', expired := trace, [];
      ghost var own := [Begin(l, nodes), Stamp(l)] + Answers(l, nodes, probe, 0);
      assert own == [Begin(l, nodes), Stamp(l)];
      var i := 0;
      while i < |nodes|
        invariant 0 <= i <= |nodes| && Inv(Abs())
        invariant l in loops && loops[l] == Probing(now, nodes[i..], expired)
        invariant own == [Begin(l, nodes), Stamp(l)] + Answers(l, nodes, probe, i)
        invariant Traced(s0, trace', Abs(), ttl, l, own)
      {
        AnswersStep(l, nodes, probe, i, [Begin(l, nodes), Stamp(l)]);
        expired, trace' := ProbeOne(l, probe(i), now, nodes[i..], expired, others(i + 1), s0, trace', own);
        own := own + [Probe(l, nodes[i].ip, probe(i))];
        i := i + 1;
      }
    }

    /** All that is left of a cycle once it is open: the probes, and the sweep, complete or not. */
    method FinishCycle(l: nat, nodes: seq<Node>, now: nat, probe: nat -> bool, storeOk: nat -> bool,
                       others: nat -> seq<Event>, ghost s0: State, ghost trace: seq<Event>)
      returns (ok: bool, ghost trace': seq<Event>, ghost marked: seq<Ip>, ghost removed: seq<Ip>)
      requires Inv(Abs()) && l in loops && loops[l] == Probing(now, nodes, [])
      requires Traced(s0, trace, Abs(), ttl, l, [Begin(l, nodes), Stamp(l)])
      modifies this`table, this`health, this`clock, this`loops
      ensures Inv(Abs())
      ensures CycleDone(s0, trace', Abs(), ttl, l, nodes, probe, marked, removed)
      ensures ok <==> removed == marked
    {
      var expired;
      expired, trace' := ProbeAll(l, nodes, now, probe, others, s0, trace);
      ghost var own := [Begin(l, nodes), Stamp(l)] + Answers(l, nodes, probe, |nodes|);
      trace' := Others(l, others(|nodes| + 1), s0, trace', own);

      ghost var before := Abs();
      var n := Sweep(expired, storeOk);
      ok, marked, removed := n == |expired|, expired, expired[..n];
      Trace(s0, trace', before, Finish(l, removed), ttl, l, own);
      StepKeepsInv(before, Finish(l, removed), ttl);
      assert Front(trace' + [Finish(l, removed)]) == trace';
      trace' := trace' + [Finish(l, removed)];
      loops := loops[l := Idle];
    }

    /**
    `run_probe_cycle`, with arbitrary steps of others (`others`) between its lock regions.  Whatever
    those are, the whole execution is a run of the state machine in which loop `l` takes exactly one
    snapshot, one stamp, one health write per node of the snapshot with the answer its probe gave,
    and one sweep, which is complete unless the store failed.  If the rows cannot be listed (`listOk`)
    the cycle ends before it does anything.
    */
    method RunProbeCycle(l: nat, listOk: bool, probe: nat -> bool, storeOk: nat -> bool, others: nat -> seq<Event>)
      returns (ok: bool, ghost nodes: seq<Node>, ghost trace: seq<Event>, ghost marked: seq<Ip>, ghost removed: seq<Ip>)
      requires Inv(Abs()) && l in loops && loops[l].Idle?
      modifies this`table, this`health, this`clock, this`loops
      ensures Inv(Abs())
      ensures !listOk ==> !ok && Abs() == old(Abs())
      ensures listOk ==> IsListing(nodes, old(table)) && (ok <==> removed == marked)
      ensures listOk ==> CycleDone(old(Abs()), trace, Abs(), ttl, l, nodes, probe, marked, removed)
    {
      ghost var s0 := Abs();
      if !listOk {
        ok, nodes, trace, marked, removed := false, [], [], [], [];
        return;
      }
      var snapshot, now;
      snapshot, now, trace := OpenCycle(l, others(0));
      nodes := snapshot;
      ok, trace, marked, removed := FinishCycle(l, snapshot, now, probe, storeOk, others, s0, trace);
    }
  }
}
