/** The engines that run the consensus protocol and the network that wires them into a full mesh
    (mitochondrion_protocol.py, lines 122-260), proved against the transition system of `Consensus`. */
module Mitochondrion {
  import opened Prelude
  import opened Consensus

  datatype Reason = ConsensusReached | ConsensusNotReached | SignatureMismatch

  datatype MetabolismResult = MetabolismResult(assimilated: bool, reason: Reason, consensus: Option<ConsensusResult>)

  datatype QuarantineEvent = QuarantineEvent(nodeId: string, reason: Reason, topicId: string, sourceNode: string,
                                             contentHash: string, consensusRatio: Option<real>)

  /** What `metabolize` reports for a payload, given the poll it would hold. */
  function Verdict(d: Digests, payload: DataPayload, poll: ConsensusResult): MetabolismResult {
    if !Authentic(d, payload) then MetabolismResult(false, SignatureMismatch, None)
    else MetabolismResult(poll.reached, if poll.reached then ConsensusReached else ConsensusNotReached, Some(poll))
  }

  class MitochondrionEngine {
    const nodeId: string
    const d: Digests
    var peers: seq<MitochondrionEngine>
    var knowledgeBase: map<string, DataPayload>
    var verifiedLedger: Ledger
    var quarantine: seq<QuarantineEvent>

    constructor (nodeId: string, d: Digests)
      ensures this.nodeId == nodeId && this.d == d
      ensures peers == [] && knowledgeBase == map[] && verifiedLedger == map[] && quarantine == []
    {
      this.nodeId := nodeId;
      this.d := d;
      peers, knowledgeBase, verifiedLedger, quarantine := [], map[], map[], [];
    }

    /** All engines hash with the same functions. */
    ghost predicate Valid()
      reads this
    {
      forall p :: p in peers ==> p.d == d
    }

    ghost function Own(): Node
      reads this
    {
      Node(verifiedLedger, knowledgeBase)
    }

    predicate PollPeerConfirmation(payload: DataPayload)
      reads this
    {
      Anchored(verifiedLedger, payload.topicId, d.content(payload.content))
    }

    /** The poll the engine would hold now. */
    ghost function PeerPoll(payload: DataPayload): ConsensusResult
      reads this, peers
    {
      Tally(Holders(Nodes(peers), payload.topicId, d.content(payload.content)), |peers|)
    }

    method RequestConsensus(payload: DataPayload) returns (c: ConsensusResult)
      requires Valid()
      ensures c == PeerPoll(payload)
    {
      if |peers| == 0 {
        return ConsensusResult(0, 0, 0.0, false);
      }
      var confirmations := 0;
      ghost var nodes := Nodes(peers);
      for i := 0 to |peers|
        invariant confirmations == Holders(nodes[..i], payload.topicId, d.content(payload.content))
      {
        ghost var upTo := nodes[..i + 1];
        assert upTo[..|upTo| - 1] == nodes[..i] && upTo[|upTo| - 1] == nodes[i] == peers[i].Own();
        if peers[i].PollPeerConfirmation(payload) {
          confirmations := confirmations + 1;
        }
      }
      assert nodes[..|peers|] == nodes;
      c := Tally(confirmations, |peers|);
    }

    /** The pipeline: reject a broken signature unpolled, else assimilate on consensus and quarantine otherwise. */
    method Metabolize(payload: DataPayload) returns (r: MetabolismResult)
      requires Valid()
      modifies this`knowledgeBase, this`verifiedLedger, this`quarantine
      ensures r == Verdict(d, payload, old(PeerPoll(payload)))
      ensures d.sign(payload.content, payload.sourceNode) != payload.signature ==>
                && r == MetabolismResult(false, SignatureMismatch, None) && Own() == old(Own())
                && quarantine == old(quarantine) + [QuarantineEvent(nodeId, SignatureMismatch, payload.topicId,
                                                                    payload.sourceNode, d.content(payload.content), None)]
      ensures d.sign(payload.content, payload.sourceNode) == payload.signature ==>
                && r.consensus == Some(old(PeerPoll(payload))) && r.assimilated == r.consensus.value.reached
                && r.reason == (if r.assimilated then ConsensusReached else ConsensusNotReached)
      ensures Own() == if r.assimilated then Absorb(d, old(Own()), payload) else old(Own())
      ensures quarantine == if r.assimilated then old(quarantine) else
                old(quarantine) + [QuarantineEvent(nodeId, r.reason, payload.topicId, payload.sourceNode,
                                                   d.content(payload.content),
                                                   if r.consensus.Some? then Some(r.consensus.value.ratio) else None)]
    {
      if !Authentic(d, payload) {
        Quarantine(payload, SignatureMismatch, None);
        return MetabolismResult(false, SignatureMismatch, None);
      }
      var consensus := RequestConsensus(payload);
      if consensus.reached {
        knowledgeBase := knowledgeBase[payload.topicId := payload];
        verifiedLedger := SetDefault(verifiedLedger, payload.topicId, d.content(payload.content));
        return MetabolismResult(true, ConsensusReached, Some(consensus));
      }
      Quarantine(payload, ConsensusNotReached, Some(consensus));
      return MetabolismResult(false, ConsensusNotReached, Some(consensus));
    }

    method Quarantine(payload: DataPayload, reason: Reason, consensus: Option<ConsensusResult>)
      modifies this`quarantine
      ensures quarantine == old(quarantine) +
                [QuarantineEvent(nodeId, reason, payload.topicId, payload.sourceNode, d.content(payload.content),
                                 if consensus.Some? then Some(consensus.value.ratio) else None)]
    {
      var ratio := if consensus.Some? then Some(consensus.value.ratio) else None;
      quarantine := quarantine + [QuarantineEvent(nodeId, reason, payload.topicId, payload.sourceNode,
                                                  d.content(payload.content), ratio)];
    }
  }

  ghost function Nodes(engines: seq<MitochondrionEngine>): seq<Node>
    reads engines
  {
    seq(|engines|, i requires 0 <= i < |engines| reads engines => engines[i].Own())
  }

  predicate FreshName(engines: seq<MitochondrionEngine>, name: string) {
    forall i :: 0 <= i < |engines| ==> engines[i].nodeId != name
  }

  /** Assignment to a dictionary that keeps insertion order: a taken name keeps its place. */
  function TableSet(engines: seq<MitochondrionEngine>, engine: MitochondrionEngine): seq<MitochondrionEngine> {
    if engines == [] then [engine]
    else if engines[0].nodeId == engine.nodeId then [engine] + engines[1..]
    else [engines[0]] + TableSet(engines[1..], engine)
  }

  lemma {:induction false} TableSetKeepsNames(engines: seq<MitochondrionEngine>, engine: MitochondrionEngine)
    ensures var after := TableSet(engines, engine);
            && (forall e :: e in after ==> e == engine || e in engines)
            && (FreshName(engines, engine.nodeId) ==> after == engines + [engine])
            && (DistinctNames(engines) ==> DistinctNames(after))
  {
    if engines != [] {
      var rest, after := engines[1..], TableSet(engines, engine);
      TableSetKeepsNames(rest, engine);
      assert engines == [engines[0]] + rest;
      assert FreshName(engines, engine.nodeId) ==> FreshName(rest, engine.nodeId);
      if DistinctNames(engines) {
        assert DistinctNames(rest);
        assert forall e :: e in rest ==> e.nodeId != engines[0].nodeId;
        assert forall e :: e in after[1..] ==> e.nodeId != after[0].nodeId;
        DistinctCons(after);
      }
    }
  }

  /** A taken name is replaced in its place; a fresh one goes last. */
  lemma {:induction false} TableSetReplaces(engines: seq<MitochondrionEngine>, engine: MitochondrionEngine, i: nat)
    requires DistinctNames(engines) && i < |engines| && engines[i].nodeId == engine.nodeId
    ensures TableSet(engines, engine) == engines[i := engine]
  {
    if i == 0 {
      assert engines[0 := engine] == [engine] + engines[1..];
    } else {
      var rest := engines[1..];
      assert forall j, k :: 0 <= j < k < |rest| ==> rest[j] == engines[j + 1] && rest[k] == engines[k + 1];
      TableSetReplaces(rest, engine, i - 1);
      assert engines[i := engine] == [engines[0]] + rest[i - 1 := engine];
    }
  }

  lemma DistinctCons(engines: seq<MitochondrionEngine>)
    requires engines != [] && DistinctNames(engines[1..])
    requires forall e :: e in engines[1..] ==> e.nodeId != engines[0].nodeId
    ensures DistinctNames(engines)
  {
    forall i, j | 0 <= i < j < |engines|
      ensures engines[i].nodeId != engines[j].nodeId
    {
      var rest := engines[1..];
      assert engines[j] == rest[j - 1] && rest[j - 1] in rest;
      assert i > 0 ==> engines[i] == rest[i - 1];
    }
  }

  ghost predicate DistinctNames(engines: seq<MitochondrionEngine>) {
    forall i, j :: 0 <= i < j < |engines| ==> engines[i].nodeId != engines[j].nodeId
  }

  lemma NodesAppend(engines: seq<MitochondrionEngine>, engine: MitochondrionEngine)
    ensures Nodes(engines + [engine]) == Nodes(engines) + [engine.Own()]
  {
  }

  lemma MeshStep<T>(xs: seq<T>, x: T, i: nat)
    requires i <= |xs|
    ensures var ys := xs + [x]; ys[..i] + ys[i + 1..] == if i == |xs| then xs else xs[..i] + xs[i + 1..] + [x]
  {
    var ys := xs + [x];
    if i < |xs| {
      assert ys[..i] == xs[..i] && ys[i + 1..] == xs[i + 1..] + [x];
    }
  }

  ghost predicate AllListed(engines: seq<MitochondrionEngine>)
    reads engines
  {
    forall i :: 0 <= i < |engines| ==> engines[i].peers == engines[..i] + engines[i + 1..]
  }

  lemma MeshGrows(before: seq<MitochondrionEngine>, engine: MitochondrionEngine)
    requires engine.peers == before
    requires forall i :: 0 <= i < |before| ==> before[i].peers == before[..i] + before[i + 1..] + [engine]
    ensures AllListed(before + [engine])
  {
    var after := before + [engine];
    forall i | 0 <= i < |after|
      ensures after[i].peers == after[..i] + after[i + 1..]
    {
      MeshStep(before, engine, i);
    }
  }

  lemma MeshExtends(before: seq<MitochondrionEngine>, engine: MitochondrionEngine, nodes: seq<Node>)
    requires Nodes(before) == nodes && engine.Own() == Node(map[], map[]) && engine.peers == before
    requires forall i :: 0 <= i < |before| ==> before[i].peers == before[..i] + before[i + 1..] + [engine]
    ensures AllListed(before + [engine]) && Nodes(before + [engine]) == nodes + [Node(map[], map[])]
  {
    MeshGrows(before, engine);
    NodesAppend(before, engine);
  }

  class KnowledgeNetwork {
    const d: Digests
    var engines: seq<MitochondrionEngine>  // the values of the engine table, in insertion order

    constructor (d: Digests)
      ensures Mesh() && engines == [] && this.d == d
    {
      this.d := d;
      engines := [];
    }

    /** The table is keyed by the engines' names. */
    ghost predicate Valid()
      reads this, engines
    {
      (forall e :: e in engines ==> e.d == d) && DistinctNames(engines)
    }

    /** Every engine polls exactly the other engines of the network, each once. */
    ghost predicate Mesh()
      reads this, engines
    {
      Valid() && AllListed(engines)
    }

    ghost function View(): Network
      reads this, engines
    {
      Nodes(engines)
    }

    /** Wires a new engine with every existing one. Under a fresh name this extends the mesh by a node that
        knows nothing; a name already taken is replaced in the table, as in the code, and the mesh is lost. */
    method AddNode(nodeId: string) returns (engine: MitochondrionEngine)
      requires Valid()
      modifies this, engines`peers
      ensures Valid() && fresh(engine) && engine.nodeId == nodeId
      ensures engines == TableSet(old(engines), engine) && engine.peers == old(engines)
      ensures FreshName(old(engines), nodeId) && old(Mesh()) ==> Mesh() && View() == old(View()) + [Node(map[], map[])]
    {
      engine := new MitochondrionEngine(nodeId, d);
      ghost var before, nodes := engines, View();
      assert nodes == old(View()) && engine.Own() == Node(map[], map[]);
      WireAll(engine);
      assert Nodes(before) == nodes && engine.Own() == Node(map[], map[]);
      ghost var grows := FreshName(before, nodeId) && old(Mesh());
      if grows {
        assert forall i :: 0 <= i < |before| ==> before[i].peers == before[..i] + before[i + 1..] + [engine];
        MeshExtends(before, engine, nodes);
      }
      Enter(engine);
      if grows {
        assert engines == before + [engine];
      }
    }

    method Enter(engine: MitochondrionEngine)
      requires Valid() && engine.d == d
      modifies this`engines
      ensures Valid() && engines == TableSet(old(engines), engine)
      ensures FreshName(old(engines), engine.nodeId) ==> engines == old(engines) + [engine]
    {
      TableSetKeepsNames(engines, engine);
      engines := TableSet(engines, engine);
    }

    /** The wiring loop: the new engine and each existing one list each other. */
    method WireAll(engine: MitochondrionEngine)
      requires engine !in engines && engine.peers == []
      requires forall i, j :: 0 <= i < j < |engines| ==> engines[i] != engines[j]
      modifies engine`peers, engines`peers
      ensures engine.peers == engines
      ensures forall i :: 0 <= i < |engines| ==> engines[i].peers == old(engines[i].peers) + [engine]
      ensures Nodes(engines) == old(Nodes(engines)) && engine.Own() == old(engine.Own())
    {
      for i := 0 to |engines|
        invariant engine.peers == engines[..i]
        invariant forall j :: 0 <= j < i ==> engines[j].peers == old(engines[j].peers) + [engine]
        invariant forall j :: i <= j < |engines| ==> engines[j].peers == old(engines[j].peers)
      {
        var other := engines[i];
        engine.peers := engine.peers + [other];
        other.peers := other.peers + [engine];
      }
      assert forall i :: 0 <= i < |engines| ==> engines[i].Own() == old(engines[i].Own());
    }

    /** In the mesh, an engine's poll of its peers is the poll of all other nodes. */
    lemma PeerPollIsPoll(id: nat, payload: DataPayload)
      requires Mesh() && id < |engines|
      ensures engines[id].PeerPoll(payload) == Poll(d, View(), id, payload)
    {
      assert Nodes(engines[id].peers) == Others(View(), id);
    }

    /** What a caller does with the network: hand one of its engines a payload. */
    method Deliver(id: nat, payload: DataPayload) returns (r: MetabolismResult)
      requires Mesh() && id < |engines|
      modifies engines[id]
      ensures Mesh() && View() == Consensus.Metabolize(d, old(View()), id, payload)
      ensures r.assimilated == Assimilates(d, old(View()), id, payload)
      ensures |engines[id].quarantine| == |old(engines[id].quarantine)| + if r.assimilated then 0 else 1
    {
      PeerPollIsPoll(id, payload);
      ghost var before := View();
      r := engines[id].Metabolize(payload);
      var expected := if r.assimilated then Absorb(d, before[id], payload) else before[id];
      forall k | 0 <= k < |engines|
        ensures View()[k] == before[id := expected][k]
      {
        assert View()[k] == engines[k].Own();
        assert k != id ==> engines[k] != engines[id];
      }
      assert View() == before[id := expected];
    }
  }
}
