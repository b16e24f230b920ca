/**
When the store and the health map hold the same addresses: with at most one probe loop always, with
two not.
*/
module RegistryAgreement {
  import opened Registry

  ghost predicate KeysAgree(s: State) {
    s.table.Keys == s.health.Keys
  }

  /**
  Index agreement.  With at most one probe loop the store and the health map have the same keys after
  every lock region, whatever store errors cut a sweep short, so a probe never meets a missing
  health entry and the `or_insert` default is dead code.
  */
  lemma {:induction false} IndexAgreement(s0: State, es: seq<Event>, ttl: nat)
    requires Booted(s0) && AtMostOneLoop(s0) && Valid(s0, es, ttl)
    ensures
      var s := Run(s0, es, ttl);
      KeysAgree(s) && forall l, ip, ok :: Enabled(s, Probe(l, ip, ok)) ==> ip in s.health
  {
    RunKeepsSoleInv(s0, es, ttl);
  }

  /** Every table has a listing. */
  lemma {:induction false} ListingExists(table: map<Ip, Node>) returns (nodes: seq<Node>)
    requires WellKeyed(table)
    ensures IsListing(nodes, table)
    decreases |table.Keys|
  {
    if table.Keys == {} {
      nodes := [];
    } else {
      var ip :| ip in table.Keys;
      nodes := ListingFrom(table, ip);
    }
  }

  /** And one that starts with any given row. */
  lemma {:induction false} ListingFrom(table: map<Ip, Node>, ip: Ip) returns (nodes: seq<Node>)
    requires WellKeyed(table) && ip in table
    ensures IsListing(nodes, table) && nodes != [] && nodes[0] == table[ip]
    decreases |table.Keys|, 0
  {
    var others := table - {ip};
    assert others.Keys == table.Keys - {ip};
    var rest := ListingExists(others);
    nodes := [table[ip]] + rest;
    forall other | other in table ensures Lists(nodes, other) {
      if other == ip {
        assert nodes[0].ip == other;
      } else {
        assert Lists(rest, other);
        ListsTail(nodes, other);
      }
    }
  }

  /**
  Two loops can leave an orphan in any registry, whatever it holds and however many more loops there
  are: both begin a cycle, the first one finds the node overdue and sweeps it, and then the second
  one writes its answer.
  */
  lemma TwoLoopsLeaveAnOrphan(s0: State, node: Node, a: nat, b: nat, ttl: nat)
    returns (es: seq<Event>, s: State)
    requires Booted(s0) && a in s0.loops && b in s0.loops && a != b && node.labels != []
    ensures Reaches(s0, es, s, ttl, 0) && node.ip in s.health && node.ip !in s.table
  {
    var es4, s4 := TwoCyclesOpen(s0, node, a, b, ttl);
    var es5, s5 := ThenProbe(s0, es4, s4, a, false, ttl, 0);
    var es6, s6 := CompleteCycle(s0, es5, s5, a, node.ip, ttl, 0);
    es, s := ThenProbe(s0, es6, s6, b, true, ttl, 0);
  }

  /** Two loops about to probe a node whose lease has just run out. */
  lemma TwoCyclesOpen(s0: State, node: Node, a: nat, b: nat, ttl: nat) returns (es: seq<Event>, s: State)
    requires Booted(s0) && a in s0.loops && b in s0.loops && a != b && node.labels != []
    ensures Reaches(s0, es, s, ttl, 0) && a in s.loops && b in s.loops && node.ip in s.health
    ensures s.loops[a].Probing? && s.loops[a].todo != [] && s.loops[a].todo[0].ip == node.ip
    ensures s.loops[a] == s.loops[b] && s.loops[a].now == s.clock == s.health[node.ip].lastOk + ttl
  {
    var es1, s1 := ThenRegister(s0, [], s0, node, ttl, 0);
    var es2, s2 := ThenTick(s0, es1, s1, s1.clock + ttl, ttl, 0);
    var nodes := ListingFrom(s2.table, node.ip);
    var es3, s3 := ThenOpenCycle(s0, es2, s2, a, nodes, ttl, 0);
    es, s := ThenOpenCycle(s0, es3, s3, b, nodes, ttl, 0);
  }

  /** Store and health hold the same addresses at every point of every run. */
  ghost predicate AlwaysAgree(s0: State, ttl: nat) {
    forall es :: Valid(s0, es, ttl) ==> KeysAgree(Run(s0, es, ttl))
  }

  lemma {:induction false} AgreeAt(s0: State, es: seq<Event>, ttl: nat)
    requires AlwaysAgree(s0, ttl) && Valid(s0, es, ttl)
    ensures KeysAgree(Run(s0, es, ttl))
  {
  }

  /** The exact condition: store and health always agree if and only if there is at most one probe loop. */
  lemma AgreementIffOneLoop(s0: State, ttl: nat)
    requires Booted(s0)
    ensures AlwaysAgree(s0, ttl) <==> AtMostOneLoop(s0)
  {
    if AtMostOneLoop(s0) {
      forall es | Valid(s0, es, ttl) ensures KeysAgree(Run(s0, es, ttl)) {
        IndexAgreement(s0, es, ttl);
      }
    } else {
      var a, b :| a in s0.loops && b in s0.loops && a != b;
      var node := Node("", 0, [""], "");
      var es, s := TwoLoopsLeaveAnOrphan(s0, node, a, b, ttl);
      assert !KeysAgree(Run(s0, es, ttl));
      if AlwaysAgree(s0, ttl) {
        AgreeAt(s0, es, ttl);
      }
    }
  }
}
