/** Distributed knowledge verification (mitochondrion_protocol.py), as a transition system over the
    ledgers of a full mesh of nodes: when can two nodes assimilate different contents for one topic? */
module Consensus {
  import opened Prelude

  /** The two digests of the protocol, both SHA-256 over different inputs in the code. */
  datatype Digests = Digests(content: string -> string, sign: (string, string) -> string)

  datatype DataPayload = DataPayload(content: string, sourceNode: string, signature: string, topicId: string)

  datatype ConsensusResult = ConsensusResult(confirmations: nat, totalPolled: nat, ratio: real, reached: bool)

  const CONSENSUS_THRESHOLD := 2.0 / 3.0

  /** The verdict on a poll; an engine without peers never reaches consensus. */
  function Tally(confirmations: nat, total: nat): ConsensusResult {
    if total == 0 then ConsensusResult(0, 0, 0.0, false)
    else
      var ratio := confirmations as real / total as real;
      ConsensusResult(confirmations, total, ratio, ratio >= CONSENSUS_THRESHOLD)
  }

  lemma TallyIsTwoThirds(confirmations: nat, total: nat)
    ensures Tally(confirmations, total).reached <==> total > 0 && 3 * confirmations >= 2 * total
    ensures var c := Tally(confirmations, total);
            if total == 0 then c.confirmations == c.totalPolled == 0 && c.ratio == 0.0
            else c.confirmations == confirmations && c.totalPolled == total
                 && Times(c.ratio, total as real) == confirmations as real
  {
    if total > 0 {
      QuotientAtLeast(confirmations as real, total as real, CONSENSUS_THRESHOLD);
    }
  }

  // ---------------------------------------------------------------------------
  // The mesh as a value
  // ---------------------------------------------------------------------------

  type Ledger = map<string, string>

  datatype Node = Node(ledger: Ledger, knowledge: map<string, DataPayload>)

  /** The nodes of a full mesh, in the order in which they were added. */
  type Network = seq<Node>

  predicate Anchored(ledger: Ledger, topic: string, hash: string) {
    topic in ledger && ledger[topic] == hash
  }

  /** How many of the nodes anchor a topic to the given content hash. */
  function Holders(net: Network, topic: string, hash: string): (n: nat)
    ensures n <= |net|
  {
    if net == [] then 0
    else Holders(net[..|net| - 1], topic, hash) + if Anchored(net[|net| - 1].ledger, topic, hash) then 1 else 0
  }

  function Others(net: Network, id: nat): Network
    requires id < |net|
  {
    net[..id] + net[id + 1..]
  }

  function Poll(d: Digests, net: Network, id: nat, payload: DataPayload): ConsensusResult
    requires id < |net|
  {
    Tally(Holders(Others(net, id), payload.topicId, d.content(payload.content)), |net| - 1)
  }

  predicate Authentic(d: Digests, payload: DataPayload) {
    d.sign(payload.content, payload.sourceNode) == payload.signature
  }

  predicate Assimilates(d: Digests, net: Network, id: nat, payload: DataPayload)
    requires id < |net|
  {
    Authentic(d, payload) && Poll(d, net, id, payload).reached
  }

  /** A write-once update: an existing anchor is kept. */
  function SetDefault(ledger: Ledger, topic: string, hash: string): Ledger {
    if topic in ledger then ledger else ledger[topic := hash]
  }

  function Absorb(d: Digests, node: Node, payload: DataPayload): Node {
    Node(SetDefault(node.ledger, payload.topicId, d.content(payload.content)),
         node.knowledge[payload.topicId := payload])
  }

  /** One `metabolize` call at node `id`. */
  function Metabolize(d: Digests, net: Network, id: nat, payload: DataPayload): Network
    requires id < |net|
  {
    if Assimilates(d, net, id, payload) then net[id := Absorb(d, net[id], payload)] else net
  }

  datatype Delivery = Delivery(id: nat, payload: DataPayload)

  datatype Assimilation = Assimilation(id: nat, topic: string, hash: string)

  ghost predicate Addressed(net: Network, ds: seq<Delivery>) {
    forall i :: 0 <= i < |ds| ==> ds[i].id < |net|
  }

  /** The network after any sequence of deliveries. */
  ghost function After(d: Digests, net: Network, ds: seq<Delivery>): (net': Network)
    requires Addressed(net, ds)
    ensures |net'| == |net|
  {
    if ds == [] then net
    else
      var n := |ds| - 1;
      Metabolize(d, After(d, net, ds[..n]), ds[n].id, ds[n].payload)
  }

  /** Everything assimilated along the way, in order. */
  ghost function Assimilated(d: Digests, net: Network, ds: seq<Delivery>): seq<Assimilation>
    requires Addressed(net, ds)
  {
    if ds == [] then []
    else
      var n := |ds| - 1;
      var Delivery(id, payload) := ds[n];
      Assimilated(d, net, ds[..n])
      + if Assimilates(d, After(d, net, ds[..n]), id, payload)
        then [Assimilation(id, payload.topicId, d.content(payload.content))] else []
  }

  // ---------------------------------------------------------------------------
  // Agreement
  // ---------------------------------------------------------------------------

  /** No topic is ever assimilated with two different contents, at one node or across nodes. */
  ghost predicate Agree(events: seq<Assimilation>) {
    forall i, j :: 0 <= i < |events| && 0 <= j < |events| && events[i].topic == events[j].topic ==>
      events[i].hash == events[j].hash
  }

  /** Agreement on every run from every initial choice of anchors, for a mesh of `n` nodes. */
  ghost predicate AlwaysAgrees(d: Digests, n: nat) {
    forall net: Network, ds: seq<Delivery> :: |net| == n && Addressed(net, ds) ==> Agree(Assimilated(d, net, ds))
  }

  /** Enough nodes hold the hash for an assimilation to have happened. */
  ghost predicate Supported(net: Network, topic: string, hash: string) {
    |net| > 1 && 3 * Holders(net, topic, hash) >= 2 * (|net| - 1)
  }

  lemma {:induction false} HoldersConcat(a: Network, b: Network, topic: string, hash: string)
    ensures Holders(a + b, topic, hash) == Holders(a, topic, hash) + Holders(b, topic, hash)
  {
    if b == [] {
      assert a + b == a;
    } else {
      var n := |b| - 1;
      assert (a + b)[..|a + b| - 1] == a + b[..n];
      HoldersConcat(a, b[..n], topic, hash);
    }
  }

  /** Taking one node out of the count, or replacing it, changes the count by that node alone. */
  lemma HoldersSplit(net: Network, id: nat, node: Node, topic: string, hash: string)
    requires id < |net|
    ensures Holders(net, topic, hash) ==
            Holders(Others(net, id), topic, hash) + if Anchored(net[id].ledger, topic, hash) then 1 else 0
    ensures Others(net[id := node], id) == Others(net, id)
  {
    assert net == net[..id] + [net[id]] + net[id + 1..];
    HoldersConcat(net[..id] + [net[id]], net[id + 1..], topic, hash);
    HoldersConcat(net[..id], [net[id]], topic, hash);
    HoldersConcat(net[..id], net[id + 1..], topic, hash);
    assert [net[id]][..0] == [];
  }

  lemma AssimilationIsSupported(d: Digests, net: Network, id: nat, payload: DataPayload)
    requires id < |net| && Assimilates(d, net, id, payload)
    ensures Supported(net, payload.topicId, d.content(payload.content))
  {
    var hash := d.content(payload.content);
    TallyIsTwoThirds(Holders(Others(net, id), payload.topicId, hash), |net| - 1);
    HoldersSplit(net, id, net[id], payload.topicId, hash);
  }

  /** Anchors are write-once, so support is never lost. */
  lemma SupportPersists(d: Digests, net: Network, id: nat, payload: DataPayload, topic: string, hash: string)
    requires id < |net| && Supported(net, topic, hash)
    ensures Supported(Metabolize(d, net, id, payload), topic, hash)
  {
    var net' := Metabolize(d, net, id, payload);
    HoldersSplit(net, id, net'[id], topic, hash);
    HoldersSplit(net', id, net'[id], topic, hash);
    assert net' == net[id := net'[id]];
  }

  /** Whatever was assimilated on a run is still supported at its end. */
  lemma {:induction false} EventsAreSupported(d: Digests, net: Network, ds: seq<Delivery>)
    requires Addressed(net, ds)
    ensures forall e :: e in Assimilated(d, net, ds) ==> Supported(After(d, net, ds), e.topic, e.hash)
  {
    if ds != [] {
      var n := |ds| - 1;
      var Delivery(id, payload) := ds[n];
      var before := After(d, net, ds[..n]);
      EventsAreSupported(d, net, ds[..n]);
      forall e | e in Assimilated(d, net, ds)
        ensures Supported(After(d, net, ds), e.topic, e.hash)
      {
        if e !in Assimilated(d, net, ds[..n]) {
          AssimilationIsSupported(d, before, id, payload);
        }
        SupportPersists(d, before, id, payload, e.topic, e.hash);
      }
    }
  }

  // ---------------------------------------------------------------------------
  // What a delivery does
  // ---------------------------------------------------------------------------

  /** The other nodes that anchor the payload's topic to its content. */
  ghost function Confirming(d: Digests, net: Network, id: nat, payload: DataPayload): set<nat> {
    set j: nat | j < |net| && j != id && payload.topicId in net[j].ledger
                 && net[j].ledger[payload.topicId] == d.content(payload.content)
  }

  ghost function HolderSet(net: Network, topic: string, hash: string): set<nat> {
    set j: nat | j < |net| && topic in net[j].ledger && net[j].ledger[topic] == hash
  }

  lemma {:induction false} HoldersAreCounted(net: Network, topic: string, hash: string)
    ensures Holders(net, topic, hash) == |HolderSet(net, topic, hash)|
  {
    if net != [] {
      var n := |net| - 1;
      HoldersAreCounted(net[..n], topic, hash);
      var rest := HolderSet(net[..n], topic, hash);
      assert HolderSet(net, topic, hash) == rest + if Anchored(net[n].ledger, topic, hash) then {n} else {};
    }
  }

  /** A delivery is assimilated if and only if its signature is genuine and two thirds of the other nodes, of which
      there is at least one, anchor its topic to its content. */
  lemma AssimilatesIff(d: Digests, net: Network, id: nat, payload: DataPayload)
    requires id < |net|
    ensures Assimilates(d, net, id, payload) <==>
            && d.sign(payload.content, payload.sourceNode) == payload.signature
            && |net| > 1 && 3 * |Confirming(d, net, id, payload)| >= 2 * (|net| - 1)
  {
    var hash := d.content(payload.content);
    TallyIsTwoThirds(Holders(Others(net, id), payload.topicId, hash), |net| - 1);
    HoldersSplit(net, id, net[id], payload.topicId, hash);
    HoldersAreCounted(net, payload.topicId, hash);
    var all, others := HolderSet(net, payload.topicId, hash), Confirming(d, net, id, payload);
    assert all == others + if Anchored(net[id].ledger, payload.topicId, hash) then {id} else {};
  }

  /** A payload with a broken signature leaves the network as it was, whatever the others anchor. */
  lemma ForgeryIsInert(d: Digests, net: Network, id: nat, payload: DataPayload)
    requires id < |net| && d.sign(payload.content, payload.sourceNode) != payload.signature
    ensures !Assimilates(d, net, id, payload) && Metabolize(d, net, id, payload) == net
  {
    AssimilatesIff(d, net, id, payload);
  }

  lemma {:induction false} HoldersDisjoint(net: Network, topic: string, h1: string, h2: string)
    requires h1 != h2
    ensures Holders(net, topic, h1) + Holders(net, topic, h2) <= |net|
  {
    if net != [] {
      HoldersDisjoint(net[..|net| - 1], topic, h1, h2);
    }
  }

  /** Quorum intersection: two hashes cannot both be supported, outside meshes of two and of four. */
  lemma SupportIsUnique(net: Network, topic: string, h1: string, h2: string)
    requires |net| != 2 && |net| != 4
    requires Supported(net, topic, h1) && Supported(net, topic, h2)
    ensures h1 == h2
  {
    if h1 != h2 {
      HoldersDisjoint(net, topic, h1, h2);
    }
  }

  lemma AgreesOutsideTwoAndFour(d: Digests, net: Network, ds: seq<Delivery>)
    requires |net| != 2 && |net| != 4 && Addressed(net, ds)
    ensures Agree(Assimilated(d, net, ds))
  {
    EventsAreSupported(d, net, ds);
    var events := Assimilated(d, net, ds);
    forall i, j | 0 <= i < |events| && 0 <= j < |events| && events[i].topic == events[j].topic
      ensures events[i].hash == events[j].hash
    {
      assert events[i] in events && events[j] in events;
      SupportIsUnique(After(d, net, ds), events[i].topic, events[i].hash, events[j].hash);
    }
  }

  function Signed(d: Digests, content: string, topic: string): DataPayload {
    DataPayload(content, "source", d.sign(content, "source"), topic)
  }

  function Believer(topic: string, hash: string): Node {
    Node(map[topic := hash], map[])
  }

  lemma TwoDeliveries(d: Digests, net: Network, first: Delivery, second: Delivery)
    requires first.id < |net| && second.id < |net|
    requires Assimilates(d, net, first.id, first.payload)
    requires Assimilates(d, Metabolize(d, net, first.id, first.payload), second.id, second.payload)
    ensures Addressed(net, [first, second])
    ensures Assimilated(d, net, [first, second]) ==
            [Assimilation(first.id, first.payload.topicId, d.content(first.payload.content)),
             Assimilation(second.id, second.payload.topicId, d.content(second.payload.content))]
  {
    var ds := [first, second];
    assert ds[..1] == [first];
    assert [first][..0] == [];
    assert After(d, net, [first]) == Metabolize(d, net, first.id, first.payload);
    assert Assimilated(d, net, [first]) ==
           [Assimilation(first.id, first.payload.topicId, d.content(first.payload.content))];
  }

  /** A node whose others are split in favour of a content assimilates it, keeping the anchor it has. */
  lemma BelieverAssimilates(d: Digests, net: Network, id: nat, content: string, topic: string, others: nat)
    requires id < |net| && topic in net[id].ledger
    requires Holders(Others(net, id), topic, d.content(content)) == others && 3 * others >= 2 * (|net| - 1) > 0
    ensures Assimilates(d, net, id, Signed(d, content, topic))
    ensures Metabolize(d, net, id, Signed(d, content, topic))
         == net[id := Node(net[id].ledger, net[id].knowledge[topic := Signed(d, content, topic)])]
  {
    TallyIsTwoThirds(others, |net| - 1);
  }

  /** Two nodes that anchor different contents persuade each other of the opposite. */
  lemma PairDisagrees(d: Digests, x: string, y: string)
    requires d.content(x) != d.content(y)
    ensures !AlwaysAgrees(d, 2)
  {
    var a, b := Believer("t", d.content(x)), Believer("t", d.content(y));
    var net := [a, b];
    assert Others(net, 0) == [b];
    assert [b][..0] == [];
    BelieverAssimilates(d, net, 0, y, "t", 1);
    var net' := Metabolize(d, net, 0, Signed(d, y, "t"));
    assert Others(net', 1) == [net'[0]];
    assert [net'[0]][..0] == [];
    BelieverAssimilates(d, net', 1, x, "t", 1);
    var ds := [Delivery(0, Signed(d, y, "t")), Delivery(1, Signed(d, x, "t"))];
    TwoDeliveries(d, net, ds[0], ds[1]);
    Disagreement(Assimilated(d, net, ds));
  }

  /** So do two pairs. */
  lemma PairsDisagree(d: Digests, x: string, y: string)
    requires d.content(x) != d.content(y)
    ensures !AlwaysAgrees(d, 4)
  {
    var a, b := Believer("t", d.content(x)), Believer("t", d.content(y));
    var net := [a, a, b, b];
    assert Others(net, 0) == [a, b, b];
    CountThree(a, b, b, "t", d.content(y));
    BelieverAssimilates(d, net, 0, y, "t", 2);
    var net' := Metabolize(d, net, 0, Signed(d, y, "t"));
    assert Others(net', 2) == [net'[0], a, b];
    CountThree(net'[0], a, b, "t", d.content(x));
    BelieverAssimilates(d, net', 2, x, "t", 2);
    var ds := [Delivery(0, Signed(d, y, "t")), Delivery(2, Signed(d, x, "t"))];
    TwoDeliveries(d, net, ds[0], ds[1]);
    Disagreement(Assimilated(d, net, ds));
  }

  lemma CountThree(p: Node, q: Node, r: Node, topic: string, hash: string)
    ensures Holders([p, q, r], topic, hash) ==
            (if Anchored(p.ledger, topic, hash) then 1 else 0) + (if Anchored(q.ledger, topic, hash) then 1 else 0)
            + (if Anchored(r.ledger, topic, hash) then 1 else 0)
  {
    assert [p, q, r] == [p] + [q] + [r];
    HoldersConcat([p] + [q], [r], topic, hash);
    HoldersConcat([p], [q], topic, hash);
  }

  lemma Disagreement(events: seq<Assimilation>)
    requires |events| == 2 && events[0].topic == events[1].topic && events[0].hash != events[1].hash
    ensures !Agree(events)
  {
  }

  /** The exact sizes for which the two-thirds rule agrees: every size but two and four. */
  lemma AgreementIff(d: Digests, x: string, y: string, n: nat)
    requires d.content(x) != d.content(y)
    ensures AlwaysAgrees(d, n) <==> n != 2 && n != 4
  {
    if n == 2 {
      PairDisagrees(d, x, y);
    } else if n == 4 {
      PairsDisagree(d, x, y);
    } else {
      forall net: Network, ds: seq<Delivery> | |net| == n && Addressed(net, ds)
        ensures Agree(Assimilated(d, net, ds))
      {
        AgreesOutsideTwoAndFour(d, net, ds);
      }
    }
  }

  // ---------------------------------------------------------------------------
  // Stored knowledge
  // ---------------------------------------------------------------------------

  ghost predicate KnowledgeSupported(d: Digests, net: Network) {
    forall id, topic :: 0 <= id < |net| && topic in net[id].knowledge ==>
      Supported(net, topic, d.content(net[id].knowledge[topic].content))
  }

  ghost predicate Unlearned(net: Network) {
    forall id :: 0 <= id < |net| ==> net[id].knowledge == map[]
  }

  lemma MetabolizeKeepsSupport(d: Digests, net: Network, to: nat, payload: DataPayload)
    requires to < |net| && KnowledgeSupported(d, net)
    ensures KnowledgeSupported(d, Metabolize(d, net, to, payload))
  {
    var net' := Metabolize(d, net, to, payload);
    forall id, topic | 0 <= id < |net'| && topic in net'[id].knowledge
      ensures Supported(net', topic, d.content(net'[id].knowledge[topic].content))
    {
      if net' != net && id == to && topic == payload.topicId {
        AssimilationIsSupported(d, net, to, payload);
      }
      SupportPersists(d, net, to, payload, topic, d.content(net'[id].knowledge[topic].content));
    }
  }

  /** Stored knowledge is supported, whichever node stores it. */
  lemma {:induction false} KnowledgeIsSupported(d: Digests, net: Network, ds: seq<Delivery>)
    requires Addressed(net, ds) && Unlearned(net)
    ensures KnowledgeSupported(d, After(d, net, ds))
  {
    if ds != [] {
      var n := |ds| - 1;
      KnowledgeIsSupported(d, net, ds[..n]);
      MetabolizeKeepsSupport(d, After(d, net, ds[..n]), ds[n].id, ds[n].payload);
    }
  }

  /** So any two knowledge bases agree on every topic they share. */
  lemma KnowledgeAgrees(d: Digests, net: Network, ds: seq<Delivery>, i: nat, j: nat, topic: string)
    requires |net| != 2 && |net| != 4 && Addressed(net, ds) && Unlearned(net) && i < |net| && j < |net|
    requires var end := After(d, net, ds); topic in end[i].knowledge && topic in end[j].knowledge
    ensures var end := After(d, net, ds);
            d.content(end[i].knowledge[topic].content) == d.content(end[j].knowledge[topic].content)
  {
    KnowledgeIsSupported(d, net, ds);
    var end := After(d, net, ds);
    SupportIsUnique(end, topic, d.content(end[i].knowledge[topic].content), d.content(end[j].knowledge[topic].content));
  }

  /** Every stored payload is genuine and filed under its own topic. */
  ghost predicate KnowledgeGenuine(d: Digests, net: Network) {
    forall id, topic :: 0 <= id < |net| && topic in net[id].knowledge ==>
      var p := net[id].knowledge[topic];
      d.sign(p.content, p.sourceNode) == p.signature && p.topicId == topic
  }

  /** On every run from nodes that have learned nothing, no knowledge base ever holds a forgery. */
  lemma {:induction false} KnowledgeIsGenuine(d: Digests, net: Network, ds: seq<Delivery>)
    requires Addressed(net, ds) && Unlearned(net)
    ensures KnowledgeGenuine(d, After(d, net, ds))
  {
    if ds != [] {
      var n := |ds| - 1;
      KnowledgeIsGenuine(d, net, ds[..n]);
      AssimilatesIff(d, After(d, net, ds[..n]), ds[n].id, ds[n].payload);
    }
  }

  /** The first content a node assimilated on a topic, and the last. */
  function First(events: seq<Assimilation>, id: nat, topic: string): Option<string> {
    if events == [] then None
    else
      var before, last := First(events[..|events| - 1], id, topic), events[|events| - 1];
      if before.None? && last.id == id && last.topic == topic then Some(last.hash) else before
  }

  function Last(events: seq<Assimilation>, id: nat, topic: string): Option<string> {
    if events == [] then None
    else
      var last := events[|events| - 1];
      if last.id == id && last.topic == topic then Some(last.hash) else Last(events[..|events| - 1], id, topic)
  }

  ghost function AnchorOf(node: Node, topic: string): Option<string> {
    if topic in node.ledger then Some(node.ledger[topic]) else None
  }

  ghost function KnownOf(d: Digests, node: Node, topic: string): Option<string> {
    if topic in node.knowledge then Some(d.content(node.knowledge[topic].content)) else None
  }

  /** On every run a node's anchor for a topic is the one it started with, or else the first content it assimilated;
      and what it knows is the last one, or else what it knew at the start. */
  lemma {:induction false} FirstAnchorsLastIsKnown(d: Digests, net: Network, ds: seq<Delivery>, id: nat, topic: string)
    requires Addressed(net, ds) && id < |net|
    ensures var node, events := After(d, net, ds)[id], Assimilated(d, net, ds);
            && AnchorOf(node, topic) ==
               (if topic in net[id].ledger then Some(net[id].ledger[topic]) else First(events, id, topic))
            && KnownOf(d, node, topic) ==
               (if Last(events, id, topic).Some? then Last(events, id, topic) else KnownOf(d, net[id], topic))
  {
    if ds != [] {
      var n := |ds| - 1;
      var Delivery(to, payload) := ds[n];
      var before, events := After(d, net, ds[..n]), Assimilated(d, net, ds[..n]);
      FirstAnchorsLastIsKnown(d, net, ds[..n], id, topic);
      var event := Assimilation(to, payload.topicId, d.content(payload.content));
      assert (events + [event])[..|events|] == events && events + [] == events;
    }
  }
}
