/** The relay object itself (bootstrap_relay.py, lines 114-244): the code of each step of the protocol,
    proved to perform that step. */
module RelayServer {
  import opened RelayStore
  import opened RelayProtocol

  class Relay {
    const env: Env
    var connections: map<NodeId, SessionId>
    var knownAntigens: Store
    var sessions: map<SessionId, Session>       // the suspended handlers and their sockets
    ghost var blacklists: map<NodeId, set<string>>  // the nodes' side
    ghost var published: set<(NodeId, string)>
    ghost var lost: set<(SessionId, string)>
    ghost var skipped: set<(SessionId, string)>

    ghost function View(): State
      reads this
    {
      State(connections, knownAntigens, sessions, blacklists, published, lost, skipped)
    }

    constructor (env: Env)
      ensures View() == INITIAL && this.env == env
    {
      this.env := env;
      connections, knownAntigens, sessions := map[], [], map[];
      blacklists, published, lost, skipped := map[], {}, {}, {};
    }

    /** Re-inserts the antigen at the end, then trims from the front. */
    method RememberAntigen(payload: Payload)
      modifies this`knownAntigens
      ensures knownAntigens == Remember(env.max, old(knownAntigens), Entry(env.KeyOf(payload), payload))
    {
      var key := if payload.Proper() then payload.signatureHash.value else "raw:" + env.digest(payload);
      knownAntigens := Without(knownAntigens, key);
      knownAntigens := knownAntigens + [Entry(key, payload)];
      ghost var full := knownAntigens;
      ghost var cut := 0;
      while |knownAntigens| > env.max
        invariant cut <= |full| && knownAntigens == full[cut..]
        invariant cut > 0 ==> |knownAntigens| >= env.max
        decreases |knownAntigens|
      {
        knownAntigens := knownAntigens[1..];
        cut := cut + 1;
      }
    }

    /** A node has authenticated: its socket replaces any earlier one, and the replay takes its snapshot. */
    method HandleJoin(sid: SessionId, node: NodeId)
      requires Enabled(View(), Join(sid, node))
      modifies this
      ensures View() == Apply(env, old(View()), Join(sid, node))
    {
      connections := connections[node := sid];
      var snapshot := Payloads(knownAntigens);
      sessions := sessions[sid := Session(node, true, ResumeSync(snapshot), [], [], {})];
    }

    /** `send`: a closed socket raises, which both send loops swallow. */
    method Send(sid: SessionId, payload: Payload)
      requires sid in sessions
      modifies this`sessions
      ensures View() == SendTo(old(View()), sid, payload)
    {
      var s := sessions[sid];
      if s.open {
        sessions := sessions[sid := s.(inbox := s.inbox + [payload])];
      }
    }

    method Resume(sid: SessionId, task: Task)
      requires sid in sessions
      modifies this`sessions
      ensures View() == SetTask(old(View()), sid, task)
    {
      sessions := sessions[sid := sessions[sid].(task := task)];
    }

    /** One turn of the replay loop; a closed socket ends the replay. */
    method SyncKnownAntigens(sid: SessionId)
      requires Enabled(View(), SyncSend(sid))
      modifies this`sessions
      ensures View() == Apply(env, old(View()), SyncSend(sid))
    {
      var snapshot := sessions[sid].task.snapshot;
      if sessions[sid].open {
        Send(sid, snapshot[0]);
        Resume(sid, ResumeSync(snapshot[1..]));
      } else {
        Resume(sid, Idle);
      }
    }

    method Targets(sender: NodeId) returns (targets: seq<NodeId>)
      ensures IsTargetList(targets, connections, sender)
    {
      targets := [];
      var rest := connections.Keys;
      while rest != {}
        invariant rest <= connections.Keys
        invariant forall n :: n in targets ==> n in connections && n != sender
        invariant forall n :: n in connections && n != sender && n !in rest ==> n in targets
        decreases rest
      {
        var nid :| nid in rest;
        if nid != sender {
          targets := targets + [nid];
        }
        rest := rest - {nid};
      }
    }

    /** The relay reads an antigen message: it remembers first, then lists the targets. */
    method RelayAntigen(sid: SessionId) returns (targets: seq<NodeId>)
      requires sid in sessions && sessions[sid].task.Idle? && sessions[sid].outbox != []
      modifies this`sessions, this`knownAntigens, this`skipped
      ensures Enabled(old(View()), Dispatch(sid, targets))
      ensures View() == Apply(env, old(View()), Dispatch(sid, targets))
    {
      var s := sessions[sid];
      var payload := s.outbox[0];
      skipped := skipped + Skips(env, View(), s.node, env.KeyOf(payload));
      RememberAntigen(payload);
      targets := Targets(s.node);
      sessions := sessions[sid := s.(outbox := s.outbox[1..], task := ResumeFan(payload, targets))];
    }

    /** One turn of the send loop. Looking up a target that has left ends the handler. */
    method FanOut(sid: SessionId)
      requires Enabled(View(), FanSend(sid))
      requires forall n :: n in connections ==> connections[n] in sessions
      modifies this
      ensures View() == Apply(env, old(View()), FanSend(sid))
    {
      var payload, targets := sessions[sid].task.payload, sessions[sid].task.targets;
      if targets[0] !in connections {
        lost := lost + set n | n in targets && n in connections :: (connections[n], env.KeyOf(payload));
        var s := sessions[sid];
        sessions := sessions[sid := s.(task := Done, open := false)];
        Remove(s.node, sid);
        return;
      }
      Send(connections[targets[0]], payload);
      Resume(sid, ResumeFan(payload, targets[1..]));
    }

    method Remove(node: NodeId, sid: SessionId)
      modifies this`connections
      ensures connections == Detach(old(connections), node, sid)
    {
      if node in connections && connections[node] == sid {
        connections := connections - {node};
      }
    }

    method HandleLeave(sid: SessionId)
      requires Enabled(View(), Leave(sid))
      modifies this
      ensures View() == Apply(env, old(View()), Leave(sid))
    {
      Remove(sessions[sid].node, sid);
      Resume(sid, Done);
    }
  }
}
