/** The node side of the antigen network (networked_node.py, lines 194-301): what a node does with an
    antigen from the network, and with an oscillating finding of its own. */
module NetworkedNode {
  import opened Prelude
  import opened Fingerprint
  import opened MinHashIndex
  import opened Leukocyte
  import opened CoreEngine
  import Erythrocyte
  import opened RelayStore
  import opened NodeTransport
  import RelayProtocol

  const OSCILLATING := "oscillating"

  /** An antigen message read with the handler's defaults for what is missing. */
  function AntigenOf(p: Payload): AntigenSignature {
    AntigenSignature(p.targetWeight, p.distortionType, if p.signatureHash.Some? then p.signatureHash.value else "",
                     p.minhashSignature)
  }

  function PayloadOf(a: AntigenSignature): Payload {
    Payload(Some(a.signatureHash), a.targetWeight, a.distortionType, a.minhashSignature)
  }

  /** One antigen per observed context, in the order given. */
  ghost function Vaccines(env: Hashing, weight: string, contexts: seq<string>): seq<AntigenSignature> {
    if contexts == [] then []
    else Vaccines(env, weight, contexts[..|contexts| - 1])
         + [Vaccine(env, weight, OSCILLATING, contexts[|contexts| - 1])]
  }

  function Repeated(entry: LogEntry, n: nat): seq<LogEntry> {
    if n == 0 then [] else Repeated(entry, n - 1) + [entry]
  }

  // ---------------------------------------------------------------------------
  // What an escalation protects
  // ---------------------------------------------------------------------------

  lemma RegisterAllOne(im: Immunity, antigens: seq<AntigenSignature>, antigen: AntigenSignature)
    ensures RegisterAll(im, antigens + [antigen]) == Register(RegisterAll(im, antigens), antigen)
  {
    assert (antigens + [antigen])[..|antigens|] == antigens;
  }

  /** What a node holds apart from its matrix. */
  datatype NodeState = NodeState(immunity: Immunity, scheduled: seq<AntigenSignature>, log: seq<LogEntry>)

  /** One context handled: self-vaccinated, its broadcast scheduled, and logged. */
  ghost function Vaccinated(env: Hashing, id: string, s: NodeState, weight: string, context: string): NodeState {
    var vaccine := Vaccine(env, weight, OSCILLATING, context);
    NodeState(Register(s.immunity, vaccine), s.scheduled + [vaccine],
              s.log + [LogEntry("antigen_escalated", id, weight)])
  }

  ghost function AllVaccinated(env: Hashing, id: string, s: NodeState, weight: string, contexts: seq<string>): NodeState {
    if contexts == [] then s
    else
      Vaccinated(env, id, AllVaccinated(env, id, s, weight, contexts[..|contexts| - 1]), weight,
                 contexts[|contexts| - 1])
  }

  /** A finding without contexts is logged, and nothing is fabricated from it. */
  function WithoutPrint(id: string, s: NodeState, weight: string): NodeState {
    s.(log := s.log + [LogEntry("escalation_without_fingerprint", id, weight)])
  }

  /** Without a context nothing is fabricated: no antigen is registered or scheduled, and the log says why. */
  lemma NothingIsFabricated(id: string, s: NodeState, weight: string)
    ensures var after := WithoutPrint(id, s, weight);
            && after.immunity == s.immunity && after.scheduled == s.scheduled
            && after.log == s.log + [LogEntry("escalation_without_fingerprint", id, weight)]
  {
  }

  /** All contexts handled: every vaccine is registered and scheduled, in order, and nothing else is. */
  lemma {:induction false} AllAreVaccinated(env: Hashing, id: string, s: NodeState, weight: string, contexts: seq<string>)
    ensures var after, vaccines := AllVaccinated(env, id, s, weight, contexts), Vaccines(env, weight, contexts);
            && after.immunity == RegisterAll(s.immunity, vaccines)
            && after.scheduled == s.scheduled + vaccines
            && after.log == s.log + Repeated(LogEntry("antigen_escalated", id, weight), |contexts|)
  {
    if contexts != [] {
      var init, last := contexts[..|contexts| - 1], contexts[|contexts| - 1];
      var vaccines, vaccine := Vaccines(env, weight, init), Vaccine(env, weight, OSCILLATING, last);
      var entry := LogEntry("antigen_escalated", id, weight);
      AllAreVaccinated(env, id, s, weight, init);
      RegisterAllOne(s.immunity, vaccines, vaccine);
      assert Vaccines(env, weight, contexts) == vaccines + [vaccine];
      assert s.scheduled + vaccines + [vaccine] == s.scheduled + (vaccines + [vaccine]);
      assert s.log + Repeated(entry, |init|) + [entry] == s.log + (Repeated(entry, |init|) + [entry]);
    } else {
      assert s.scheduled + [] == s.scheduled && s.log + [] == s.log;
    }
  }

  /** A payload whose exact text was fingerprinted for the weight is blocked for it. */
  lemma ReplayIsBlocked(env: Hashing, im: Immunity, weight: string, context: string)
    ensures MustBlock(env, Register(im, Vaccine(env, weight, OSCILLATING, context)), weight, context)
  {
    assert ExactHit(env, Register(im, Vaccine(env, weight, OSCILLATING, context)), weight, context);
  }

  /** After an escalation, each observed context is blocked for the weight, and so is everything that folds to
      the same non-empty text. */
  lemma {:induction false} EscalationProtects(env: Hashing, im: Immunity, weight: string, contexts: seq<string>,
                                              context: string, payload: string)
    requires context in contexts
    requires payload == context || Canonicalize(env, context) == Canonicalize(env, payload) != ""
    ensures MustBlock(env, RegisterAll(im, Vaccines(env, weight, contexts)), weight, payload)
  {
    var init, last := contexts[..|contexts| - 1], contexts[|contexts| - 1];
    assert contexts == init + [last];
    var before := RegisterAll(im, Vaccines(env, weight, init));
    var vaccine := Vaccine(env, weight, OSCILLATING, last);
    RegisterAllOne(im, Vaccines(env, weight, init), vaccine);
    if context == last {
      if payload == context {
        ReplayIsBlocked(env, before, weight, context);
      } else {
        VaccinationBlocksVariants(env, before, weight, OSCILLATING, context, payload);
      }
    } else {
      EscalationProtects(env, im, weight, init, context, payload);
      RegisterNeverUnblocks(env, before, vaccine, payload);
    }
  }

  /** From a poisoned write to immunity: a write from outside with its input as context, up to nineteen further
      writes to the weight, then a finding on it. Escalating that finding blocks the input and all its variants. */
  lemma {:induction false} PoisonIsBlocked(env: Hashing, im: Immunity, name: string, w: WeightState, written: Written,
                                           later: seq<Written>, contexts: seq<string>, payload: string)
    requires |w.history| <= HISTORY_LIMIT && |later| < HISTORY_LIMIT
    requires written.source !in Erythrocyte.LEGITIMATE_SOURCES && written.context.Some? && written.context.value != ""
    requires var touched := Touched(w, written.value, written.source, written.context);
             var finding := Erythrocyte.FindingOn(name, TouchedAll(touched, later));
             forall c :: c in contexts <==> c in finding.observedContexts
    requires payload == written.context.value || Canonicalize(env, written.context.value) == Canonicalize(env, payload) != ""
    ensures MustBlock(env, RegisterAll(im, Vaccines(env, name, contexts)), name, payload)
  {
    Erythrocyte.ContextIsObserved(w, written, later);
    EscalationProtects(env, im, name, contexts, written.context.value, payload);
  }

  /** The broadcast of a vaccine arrives as the vaccine it was. */
  lemma BroadcastArrives(a: AntigenSignature)
    ensures AntigenOf(PayloadOf(a)) == a
  {
  }

  /** What the network protocol tracks of a node is what the node's agent registers. */
  lemma ReceiptIsRegistration(im: Immunity, p: Payload)
    ensures Register(im, AntigenOf(p)).blacklist.Keys == im.blacklist.Keys + {RelayProtocol.BlacklistKey(p)}
    ensures p.Proper() ==> Register(im, AntigenOf(p)).blacklist[p.signatureHash.value].targetWeight == p.targetWeight
  {
  }

  /** Payloads that arrive without a hash all go under the empty one: of any number in a row the last alone is left in
      the exact index, under "", and no other entry of it is touched. */
  lemma {:induction false} HashlessShareOneKey(im: Immunity, payloads: seq<Payload>)
    requires payloads != [] && forall p :: p in payloads ==> p.signatureHash == None
    ensures var after, last := RegisterAll(im, Arrived(payloads)), payloads[|payloads| - 1];
            after.blacklist == im.blacklist["" := Hashless(last)]
  {
    var init, last := payloads[..|payloads| - 1], payloads[|payloads| - 1];
    assert last in payloads;
    RegisterAllOne(im, Arrived(init), AntigenOf(last));
    HashlessArrives(RegisterAll(im, Arrived(init)), last);
    if init != [] {
      assert forall p :: p in init ==> p in payloads;
      HashlessShareOneKey(im, init);
      Overwrites(im.blacklist, Hashless(init[|init| - 1]), Hashless(last));
    } else {
      assert RegisterAll(im, Arrived(init)) == im;
    }
  }

  function Hashless(p: Payload): AntigenSignature {
    AntigenSignature(p.targetWeight, p.distortionType, "", p.minhashSignature)
  }

  lemma HashlessArrives(im: Immunity, p: Payload)
    requires p.signatureHash == None
    ensures Register(im, AntigenOf(p)).blacklist == im.blacklist["" := Hashless(p)]
  {
  }

  lemma Overwrites(m: map<string, AntigenSignature>, x: AntigenSignature, y: AntigenSignature)
    ensures m["" := x]["" := y] == m["" := y]
  {
  }

  /** From the relay's memory to the guard of every node: on any run, a live node with nothing on its way blocks
      each payload whose hash the relay remembers, when all it knows is for that weight, unless a broken-off broadcast
      owes its session the antigen; after a restart, also unless the antigen's broadcast skipped its session. */
  lemma SettledNodesBlockReplays(env: Hashing, net: RelayProtocol.Env, steps: seq<RelayProtocol.Step>, node: string,
                                 e: Entry, im: Immunity, weight: string, payload: string)
    requires RelayProtocol.Runs(net, RelayProtocol.INITIAL, steps)
    requires var end := RelayProtocol.After(net, RelayProtocol.INITIAL, steps);
             && RelayProtocol.Settled(end, node) && end.sessions[end.connections[node]].open && e in end.known
             && (end.connections[node], e.key) !in end.lost
             && (RelayProtocol.KeepsRunning(steps, node) || (end.connections[node], e.key) !in end.skipped)
             && im.blacklist.Keys == RelayProtocol.Blacklist(end, node)
    requires forall h :: h in im.blacklist ==> im.blacklist[h].targetWeight == weight
    requires e.payload.signatureHash == Some(env.sha256(payload))
    ensures MustBlock(env, im, weight, payload)
  {
    RelayProtocol.SettledNodesAreImmune(net, steps, node, e);
    RelayProtocol.RunKeepsInv(net, RelayProtocol.INITIAL, steps);
    assert ExactHit(env, im, weight, payload);
  }

  function Arrived(payloads: seq<Payload>): seq<AntigenSignature> {
    if payloads == [] then [] else Arrived(payloads[..|payloads| - 1]) + [AntigenOf(payloads[|payloads| - 1])]
  }

  function Tracked(payloads: seq<Payload>): set<string> {
    if payloads == [] then {}
    else Tracked(payloads[..|payloads| - 1]) + {RelayProtocol.BlacklistKey(payloads[|payloads| - 1])}
  }

  /** After any deliveries, in any order, the agent's blacklist has grown by exactly the keys the network protocol
      tracks for the node. */
  lemma {:induction false} DeliveriesAreTracked(im: Immunity, payloads: seq<Payload>)
    ensures RegisterAll(im, Arrived(payloads)).blacklist.Keys == im.blacklist.Keys + Tracked(payloads)
  {
    if payloads != [] {
      var init, last := payloads[..|payloads| - 1], payloads[|payloads| - 1];
      DeliveriesAreTracked(im, init);
      RegisterAllOne(im, Arrived(init), AntigenOf(last));
      ReceiptIsRegistration(RegisterAll(im, Arrived(init)), last);
    }
  }

  /** A peer that has received the broadcast of a context, and after it anything at all for the same weight,
      blocks that context and its variants as the sender does. */
  lemma {:induction false} PeersAreProtected(env: Hashing, im: Immunity, weight: string, context: string,
                                             later: seq<Payload>, payload: string)
    requires payload == context || Canonicalize(env, context) == Canonicalize(env, payload) != ""
    requires forall p :: p in later ==> p.targetWeight == weight
    ensures var first := AntigenOf(PayloadOf(Vaccine(env, weight, OSCILLATING, context)));
            MustBlock(env, RegisterAll(Register(im, first), Arrived(later)), weight, payload)
  {
    var vaccine := Vaccine(env, weight, OSCILLATING, context);
    BroadcastArrives(vaccine);
    if later == [] {
      if payload == context {
        ReplayIsBlocked(env, im, weight, context);
      } else {
        VaccinationBlocksVariants(env, im, weight, OSCILLATING, context, payload);
      }
    } else {
      var init, last := later[..|later| - 1], later[|later| - 1];
      assert last in later;
      PeersAreProtected(env, im, weight, context, init, payload);
      RegisterAllOne(Register(im, vaccine), Arrived(init), AntigenOf(last));
      RegisterNeverUnblocks(env, RegisterAll(Register(im, vaccine), Arrived(init)), AntigenOf(last), payload);
    }
  }

  // ---------------------------------------------------------------------------
  // The node
  // ---------------------------------------------------------------------------

  class NetworkedLeukocyteNode {
    const nodeId: string
    const agent: LeukocyteAgent
    const matrix: CriticalityMatrix
    const transport: LogBuffer
    /** The broadcast tasks scheduled so far. */
    var scheduled: seq<AntigenSignature>

    ghost predicate Valid()
      reads this, agent, agent.fuzzyIndex, matrix
    {
      agent.Valid() && matrix.Valid()
    }

    constructor (nodeId: string, env: Hashing, matrix: CriticalityMatrix)
      requires matrix.Valid()
      ensures Valid() && this.matrix == matrix && agent.env == env && agent.View() == NAIVE
      ensures scheduled == [] && transport.View() == NO_LOGS
      ensures fresh(agent) && fresh(agent.fuzzyIndex) && fresh(transport)
    {
      this.nodeId, this.matrix, this.scheduled := nodeId, matrix, [];
      this.agent := new LeukocyteAgent(nodeId, env);
      this.transport := new LogBuffer();
    }

    method OnNetworkAntigen(payload: Payload)
      requires Valid()
      modifies agent, agent.fuzzyIndex, transport
      ensures Valid() && agent.View() == Register(old(agent.View()), AntigenOf(payload))
      ensures transport.logBuffer == old(transport.logBuffer) + [LogEntry("antigen_received", nodeId, payload.targetWeight)]
    {
      var antigen := AntigenOf(payload);
      agent.RegisterAntigen(antigen);
      transport.QueueLog(LogEntry("antigen_received", nodeId, antigen.targetWeight));
    }

    ghost function View(): NodeState
      reads this, agent, agent.fuzzyIndex, transport
    {
      NodeState(agent.View(), scheduled, transport.logBuffer)
    }

    /** One pass of the loop over the contexts. */
    method Vaccinate(weight: string, context: string)
      requires Valid()
      modifies this`scheduled, agent, agent.fuzzyIndex, transport
      ensures Valid() && View() == Vaccinated(agent.env, nodeId, old(View()), weight, context)
    {
      var fingerprint := ComputeMinhash(agent.env, context);
      var antigen := AntigenSignature(weight, OSCILLATING, agent.env.sha256(context), fingerprint);
      agent.RegisterAntigen(antigen);
      scheduled := scheduled + [antigen];
      transport.QueueLog(LogEntry("antigen_escalated", nodeId, weight));
    }

    method VaccinateAll(weight: string, contexts: seq<string>)
      requires Valid()
      modifies this`scheduled, agent, agent.fuzzyIndex, transport
      ensures Valid() && View() == AllVaccinated(agent.env, nodeId, old(View()), weight, contexts)
    {
      for i := 0 to |contexts|
        invariant Valid() && View() == AllVaccinated(agent.env, nodeId, old(View()), weight, contexts[..i])
      {
        assert contexts[..i + 1][..i] == contexts[..i];
        Vaccinate(weight, contexts[i]);
      }
      assert contexts[..|contexts|] == contexts;
    }

    /** `contexts` lists the finding's observed contexts. */
    method OnLocalOscillatingFinding(finding: Erythrocyte.Finding, baseline: real, contexts: seq<string>)
      returns (failure: Option<Failure>)
      requires Valid()
      requires forall c :: c in contexts <==> c in finding.observedContexts
      modifies this`scheduled, agent, agent.fuzzyIndex, transport, matrix.weights.Values
      ensures Valid() && matrix.weights == old(matrix.weights)
      ensures Reflects(AfterUpdate(old(matrix.View()), finding.weight, baseline, Erythrocyte.CORRECTION, None),
                       failure, old(matrix.View()), matrix.View())
      ensures failure.Some? ==> View() == old(View())
      ensures failure.None? ==>
                View() == if contexts == [] then WithoutPrint(nodeId, old(View()), finding.weight)
                          else AllVaccinated(agent.env, nodeId, old(View()), finding.weight, contexts)
    {
      failure := matrix.Update(finding.weight, baseline, Erythrocyte.CORRECTION, None);
      if failure == None {
        Escalate(finding.weight, contexts);
      }
    }

    /** What follows the correction. */
    method Escalate(weight: string, contexts: seq<string>)
      requires Valid()
      modifies this`scheduled, agent, agent.fuzzyIndex, transport
      ensures Valid()
      ensures View() == if contexts == [] then WithoutPrint(nodeId, old(View()), weight)
                        else AllVaccinated(agent.env, nodeId, old(View()), weight, contexts)
    {
      if contexts == [] {
        transport.QueueLog(LogEntry("escalation_without_fingerprint", nodeId, weight));
      } else {
        VaccinateAll(weight, contexts);
      }
    }
  }
}
