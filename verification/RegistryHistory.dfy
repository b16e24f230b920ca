/**
What a query sees, told by the history alone: the rows and verdicts that the events left behind,
read backwards from the end of the run, with no reference to the server's own maps.
*/
module RegistryHistory {
  import opened Common
  import opened Registry

  /** The row that the history leaves for `ip`: its latest registration, unless swept since. */
  function LatestRow(table0: map<Ip, Node>, es: seq<Event>, ip: Ip): Option<Node>
    decreases |es|
  {
    if es == [] then
      if ip in table0 then Some(table0[ip]) else None
    else
      match Last(es)
      case Register(node) => if node.ip == ip then Some(node) else LatestRow(table0, Front(es), ip)
      case Finish(_, removed) => if ip in removed then None else LatestRow(table0, Front(es), ip)
      case _ => LatestRow(table0, Front(es), ip)
  }

  /** The most recent health verdict on `ip` since the last restart; none counts as negative. */
  function LatestVerdict(es: seq<Event>, ip: Ip): bool
    decreases |es|
  {
    if es == [] then
      false
    else
      match Last(es)
      case Register(node) => node.ip == ip || LatestVerdict(Front(es), ip)
      case Probe(_, probed, ok) => if probed == ip then ok else LatestVerdict(Front(es), ip)
      case Restart(_) => false
      case _ => LatestVerdict(Front(es), ip)
  }

  predicate HasLabels(n: Node, labels: seq<string>) {
    forall i :: 0 <= i < |labels| ==> labels[i] in n.labels
  }

  /** What `handle_query` lets through of one row. */
  predicate Visible(n: Node, labels: seq<string>, health: map<Ip, Health>) {
    HasLabels(n, labels) && n.ip in health && health[n.ip].healthy
  }

  /** The answer to a query: the rows of a listing that pass both filters, in listing order. */
  function Answer(listing: seq<Node>, labels: seq<string>, health: map<Ip, Health>): seq<Node> {
    if listing == [] then []
    else
      (if Visible(listing[0], labels, health) then [listing[0]] else []) +
      Answer(listing[1..], labels, health)
  }

  lemma {:induction false} AnswerMembers(listing: seq<Node>, labels: seq<string>, health: map<Ip, Health>, n: Node)
    ensures n in Answer(listing, labels, health) <==>
      && n in listing
      && (forall l :: l in labels ==> l in n.labels)
      && n.ip in health && health[n.ip].healthy
  {
    if listing == [] {
    } else {
      AnswerMembers(listing[1..], labels, health, n);
      assert listing == [listing[0]] + listing[1..];
    }
  }

  lemma {:induction false} AnswerDistinct(listing: seq<Node>, labels: seq<string>, health: map<Ip, Health>)
    requires DistinctIps(listing)
    ensures DistinctIps(Answer(listing, labels, health))
  {
    if listing == [] {
    } else {
      HeadOnce(listing);
      AnswerDistinct(listing[1..], labels, health);
      var rest := Answer(listing[1..], labels, health);
      forall j | 0 <= j < |rest| ensures rest[j].ip != listing[0].ip {
        AnswerMembers(listing[1..], labels, health, rest[j]);
        var i :| 0 <= i < |listing[1..]| && listing[1..][i] == rest[j];
      }
    }
  }

  /** `nodes` are the stored rows that pass both filters, each address once, in any order. */
  ghost predicate IsAnswer(nodes: seq<Node>, labels: seq<string>, table: map<Ip, Node>, health: map<Ip, Health>) {
    && (forall n :: n in nodes <==>
          && n.ip in table && table[n.ip] == n
          && (forall l :: l in labels ==> l in n.labels)
          && n.ip in health && health[n.ip].healthy)
    && DistinctIps(nodes)
  }

  /** Whatever the order of the listing, filtering it answers the query. */
  lemma {:induction false} ListingAnswers(listing: seq<Node>, labels: seq<string>, table: map<Ip, Node>,
                                          health: map<Ip, Health>)
    requires IsListing(listing, table)
    ensures IsAnswer(Answer(listing, labels, health), labels, table, health)
  {
    AnswerDistinct(listing, labels, health);
    forall n
      ensures n in Answer(listing, labels, health) <==>
        && n.ip in table && table[n.ip] == n
        && (forall l :: l in labels ==> l in n.labels)
        && n.ip in health && health[n.ip].healthy
    {
      AnswerMembers(listing, labels, health, n);
      if n.ip in table { assert Lists(listing, n.ip); }
    }
  }

  /** The maps of `s` say of `ip` what the history says. */
  ghost predicate Refines(table0: map<Ip, Node>, es: seq<Event>, s: State, ip: Ip) {
    && LatestRow(table0, es, ip) == (if ip in s.table then Some(s.table[ip]) else None)
    && (ip in s.table ==> ip in s.health && s.health[ip].healthy == LatestVerdict(es, ip))
  }

  lemma StepRefines(table0: map<Ip, Node>, es: seq<Event>, s: State, ttl: nat, ip: Ip)
    requires es != [] && Enabled(s, Last(es)) && Refines(table0, Front(es), s, ip)
    ensures Refines(table0, es, Apply(s, Last(es), ttl), ip)
  {
  }

  /** The server's maps are a summary of the history: rows exactly, verdicts for every stored row. */
  lemma {:induction false} StateRefinesHistory(s0: State, es: seq<Event>, ttl: nat, ip: Ip)
    requires Booted(s0) && Valid(s0, es, ttl)
    ensures Refines(s0.table, es, Run(s0, es, ttl), ip)
    decreases |es|
  {
    if es == [] {
    } else {
      StateRefinesHistory(s0, Front(es), ttl, ip);
      StepRefines(s0.table, es, Run(s0, Front(es), ttl), ttl, ip);
    }
  }

  /**
  History refinement.  At any point of any run, with any number of probe loops, a query returns
  exactly the nodes whose latest registration or stored row has not been swept since, which carry
  every requested label, and whose most recent verdict since the last restart was positive; and it
  returns each address once.
  */
  lemma {:induction false} QueryRefinesHistory(s0: State, es: seq<Event>, ttl: nat, listing: seq<Node>,
                                               labels: seq<string>)
    requires Booted(s0) && Valid(s0, es, ttl)
    requires IsListing(listing, Run(s0, es, ttl).table)
    ensures
      var answer := Answer(listing, labels, Run(s0, es, ttl).health);
      && (forall n :: n in answer <==>
            && LatestRow(s0.table, es, n.ip) == Some(n)
            && (forall l :: l in labels ==> l in n.labels)
            && LatestVerdict(es, n.ip))
      && DistinctIps(answer)
  {
    var s := Run(s0, es, ttl);
    AnswerDistinct(listing, labels, s.health);
    forall n
      ensures n in Answer(listing, labels, s.health) <==>
        && LatestRow(s0.table, es, n.ip) == Some(n)
        && (forall l :: l in labels ==> l in n.labels)
        && LatestVerdict(es, n.ip)
    {
      AnswerMembers(listing, labels, s.health, n);
      StateRefinesHistory(s0, es, ttl, n.ip);
      if n.ip in s.table {
        assert Lists(listing, n.ip);
      }
    }
  }

  /**
  With several loops the store is still covered by the health map, and a health entry without a row
  never shows in an answer.
  */
  lemma {:induction false} OrphansStayHidden(s0: State, es: seq<Event>, ttl: nat, listing: seq<Node>,
                                             labels: seq<string>)
    requires Booted(s0) && Valid(s0, es, ttl)
    requires IsListing(listing, Run(s0, es, ttl).table)
    ensures
      var s := Run(s0, es, ttl);
      && s.table.Keys <= s.health.Keys
      && forall n :: n in Answer(listing, labels, s.health) ==> n.ip !in s.health.Keys - s.table.Keys
  {
    BootInv(s0);
    RunKeepsInv(s0, es, ttl);
    var s := Run(s0, es, ttl);
    forall n | n in Answer(listing, labels, s.health) ensures n.ip in s.table {
      AnswerMembers(listing, labels, s.health, n);
    }
  }
}
