/** The hub protocol that spreads antigens (bootstrap_relay.py, lines 131-244) together with the nodes at
    its far end (networked_node.py, lines 197-206 and 244-261), as a machine whose steps interleave freely. A step
    is a stretch of code between two awaits, with one cut more than the code has: the stretch up to the first send
    of a replay or a broadcast is a step of its own. What holds of every run thus holds of the code's; that a run
    is one of the code's is said by `CutAtAwaits`. */
module RelayProtocol {
  import opened Prelude
  import opened RelayStore

  type NodeId = string
  type SessionId = nat

  /** Where a session's handler is suspended. */
  datatype Task =
    | Syncing(snapshot: seq<Payload>)                  // replaying what was known at the join
    | Idle                                             // waiting for a message
    | Fanning(payload: Payload, targets: seq<NodeId>)  // in the send loop of a broadcast
    | Done

  /** One connection: `inbox` is sent by the relay and not yet handled by the node, `outbox` the reverse.
      `handled` is history: the keys the node has registered from this very session. */
  datatype Session = Session(node: NodeId, open: bool, task: Task, inbox: seq<Payload>, outbox: seq<Payload>,
                             handled: set<string>)

  /** `blacklists` is what the running process of each node has registered. Three fields are history: what has been
      published under each node's name, by whichever of its processes; the keys that a session was promised by a
      broadcast that broke off; and the keys whose broadcast left a session out for its node's name, although the
      node neither had the key nor was to get it. */
  datatype State = State(
    connections: map<NodeId, SessionId>,
    known: Store,
    sessions: map<SessionId, Session>,
    blacklists: map<NodeId, set<string>>,
    published: set<(NodeId, string)>,
    lost: set<(SessionId, string)>,
    skipped: set<(SessionId, string)>)

  const INITIAL := State(map[], [], map[], map[], {}, {}, {})

  datatype Env = Env(digest: Payload -> string, max: nat) {
    function KeyOf(p: Payload): string {
      Key(digest, p)
    }
  }

  /** The key under which a node registers a payload: missing hashes read as the empty string. */
  function BlacklistKey(p: Payload): string {
    if p.signatureHash.Some? then p.signatureHash.value else ""
  }

  datatype Step =
    | Join(sid: SessionId, node: NodeId)
    | SyncSend(sid: SessionId)
    | Learn(node: NodeId, payload: Payload)                // a local finding: self-vaccination
    | Publish(sid: SessionId, payload: Payload)            // ... and its broadcast task, later
    | Dispatch(sid: SessionId, targets: seq<NodeId>)       // the relay takes up a published antigen
    | FanSend(sid: SessionId)
    | Receive(sid: SessionId)
    | Close(sid: SessionId)                                // the connection drops
    | Leave(sid: SessionId)                                // its handler notices and cleans up
    | Restart(node: NodeId)                                // a new process of the node, with an empty agent

  // ---------------------------------------------------------------------------
  // The steps
  // ---------------------------------------------------------------------------

  function Payloads(store: Store): seq<Payload> {
    seq(|store|, i requires 0 <= i < |store| => store[i].payload)
  }

  function ResumeSync(rest: seq<Payload>): Task {
    if rest == [] then Idle else Syncing(rest)
  }

  function ResumeFan(payload: Payload, rest: seq<NodeId>): Task {
    if rest == [] then Idle else Fanning(payload, rest)
  }

  function Blacklist(st: State, node: NodeId): set<string> {
    if node in st.blacklists then st.blacklists[node] else {}
  }

  function Register(st: State, node: NodeId, p: Payload): State {
    st.(blacklists := st.blacklists[node := Blacklist(st, node) + {BlacklistKey(p)}])
  }

  /** `send` on a session's socket: a closed socket raises, and every caller swallows that. */
  function SendTo(st: State, sid: SessionId, p: Payload): State
    requires sid in st.sessions
  {
    var s := st.sessions[sid];
    if s.open then st.(sessions := st.sessions[sid := s.(inbox := s.inbox + [p])]) else st
  }

  function SetTask(st: State, sid: SessionId, task: Task): State
    requires sid in st.sessions
  {
    st.(sessions := st.sessions[sid := st.sessions[sid].(task := task)])
  }

  /** The `finally` clause: a session removes its own connection only. */
  function Detach(connections: map<NodeId, SessionId>, node: NodeId, sid: SessionId): map<NodeId, SessionId> {
    if node in connections && connections[node] == sid then connections - {node} else connections
  }

  /** The broadcast's targets: everyone connected but the sender, in some order. */
  predicate IsTargetList(targets: seq<NodeId>, connections: map<NodeId, SessionId>, sender: NodeId) {
    && (forall n :: n in targets ==> n in connections && n != sender)
    && (forall n :: n in connections && n != sender ==> n in targets)
  }

  /** Where a key can be, seen from a node's current session. */
  predicate InInbox(env: Env, st: State, sid: SessionId, key: string)
    requires sid in st.sessions
  {
    exists p :: p in st.sessions[sid].inbox && env.KeyOf(p) == key
  }

  predicate InSnapshot(env: Env, st: State, sid: SessionId, key: string)
    requires sid in st.sessions
  {
    st.sessions[sid].task.Syncing? && exists p :: p in st.sessions[sid].task.snapshot && env.KeyOf(p) == key
  }

  predicate FansTo(env: Env, s: Session, node: NodeId, key: string) {
    s.task.Fanning? && env.KeyOf(s.task.payload) == key && node in s.task.targets
  }

  predicate Pending(env: Env, st: State, node: NodeId, key: string) {
    exists f :: f in st.sessions && FansTo(env, st.sessions[f], node, key)
  }

  /** The node has the key or is to get it. */
  predicate Accounted(env: Env, st: State, node: NodeId, sid: SessionId, key: string)
    requires sid in st.sessions
  {
    || key in Blacklist(st, node)
    || InInbox(env, st, sid, key)
    || InSnapshot(env, st, sid, key)
    || Pending(env, st, node, key)
  }

  /** Whom a broadcast under the name `node` wrongly counts on to have its key. */
  function Skips(env: Env, st: State, node: NodeId, key: string): set<(SessionId, string)> {
    if node in st.connections && st.connections[node] in st.sessions
       && !Accounted(env, st, node, st.connections[node], key)
    then {(st.connections[node], key)} else {}
  }

  predicate Enabled(st: State, step: Step) {
    match step
    case Join(sid, _) => sid !in st.sessions
    case Learn(_, payload) => payload.Proper()
    case Publish(sid, payload) =>
      && sid in st.sessions && st.sessions[sid].open
      && payload.Proper() && BlacklistKey(payload) in Blacklist(st, st.sessions[sid].node)
    case SyncSend(sid) => sid in st.sessions && st.sessions[sid].task.Syncing? && st.sessions[sid].task.snapshot != []
    case Dispatch(sid, targets) =>
      && sid in st.sessions && st.sessions[sid].task.Idle? && st.sessions[sid].outbox != []
      && IsTargetList(targets, st.connections, st.sessions[sid].node)
    case FanSend(sid) => sid in st.sessions && st.sessions[sid].task.Fanning? && st.sessions[sid].task.targets != []
    case Receive(sid) => sid in st.sessions && st.sessions[sid].open && st.sessions[sid].inbox != []
    case Close(sid) => sid in st.sessions
    case Leave(sid) => sid in st.sessions && !st.sessions[sid].open && st.sessions[sid].task.Idle?
    case Restart(node) => forall sid <- st.sessions :: st.sessions[sid].node == node ==> !st.sessions[sid].open
  }

  /** A fan-out step whose next target has left: the lookup raises and the handler ends. */
  predicate BreaksOff(st: State, step: Step)
    requires Enabled(st, step)
  {
    step.FanSend? && st.sessions[step.sid].task.targets[0] !in st.connections
  }

  function Apply(env: Env, st: State, step: Step): State
    requires Enabled(st, step)
  {
    match step
    case Join(sid, node) =>
      st.(sessions := st.sessions[sid := Session(node, true, ResumeSync(Payloads(st.known)), [], [], {})],
          connections := st.connections[node := sid])
    case Learn(node, payload) => Register(st, node, payload)
    case Publish(sid, payload) =>
      var s := st.sessions[sid];
      st.(sessions := st.sessions[sid := s.(outbox := s.outbox + [payload])],
          published := st.published + {(s.node, BlacklistKey(payload))})
    case SyncSend(sid) =>
      var snapshot := st.sessions[sid].task.snapshot;
      if st.sessions[sid].open then SetTask(SendTo(st, sid, snapshot[0]), sid, ResumeSync(snapshot[1..]))
      else SetTask(st, sid, Idle)
    case Dispatch(sid, targets) =>
      var s := st.sessions[sid];
      var p := s.outbox[0];
      st.(known := Remember(env.max, st.known, Entry(env.KeyOf(p), p)),
          sessions := st.sessions[sid := s.(outbox := s.outbox[1..], task := ResumeFan(p, targets))],
          skipped := st.skipped + Skips(env, st, s.node, env.KeyOf(p)))
    case FanSend(sid) =>
      var Fanning(p, targets) := st.sessions[sid].task;
      if targets[0] in st.connections then
        var to := st.connections[targets[0]];
        var st' := if to in st.sessions then SendTo(st, to, p) else st;
        SetTask(st', sid, ResumeFan(p, targets[1..]))
      else
        var s := st.sessions[sid];
        st.(sessions := st.sessions[sid := s.(task := Done, open := false)],
            connections := Detach(st.connections, s.node, sid),
            lost := st.lost + set n | n in targets && n in st.connections :: (st.connections[n], env.KeyOf(p)))
    case Receive(sid) =>
      var s := st.sessions[sid];
      var p := s.inbox[0];
      Register(st.(sessions := st.sessions[sid := s.(inbox := s.inbox[1..], handled := s.handled + {BlacklistKey(p)})]),
               s.node, p)
    case Close(sid) =>
      st.(sessions := st.sessions[sid := st.sessions[sid].(open := false)])
    case Leave(sid) =>
      SetTask(st.(connections := Detach(st.connections, st.sessions[sid].node, sid)), sid, Done)
    case Restart(node) => st.(blacklists := st.blacklists[node := {}])
  }

  // ---------------------------------------------------------------------------
  // The invariant
  // ---------------------------------------------------------------------------

  /** Delivered in this very session, still in its snapshot or on its way to it, or published under its node's
      name and known to the running process; unless a broken-off broadcast owes it, or its own left it out. */
  ghost predicate Covered(env: Env, st: State, node: NodeId, sid: SessionId, key: string)
    requires sid in st.sessions
  {
    || key in st.sessions[sid].handled
    || ((node, key) in st.published && key in Blacklist(st, node))
    || InInbox(env, st, sid, key)
    || InSnapshot(env, st, sid, key)
    || Pending(env, st, node, key)
    || (sid, key) in st.lost
    || (sid, key) in st.skipped
  }

  /** Every payload that moves through a session carries a hash, what a node sends is on record as published by
      it, and what a live session delivered is registered with the running process. */
  ghost predicate SessionProper(st: State, s: Session) {
    && (forall p :: p in s.inbox ==> p.Proper())
    && (forall p :: p in s.outbox ==> p.Proper() && (s.node, BlacklistKey(p)) in st.published)
    && (s.open ==> s.handled <= Blacklist(st, s.node))
    && (s.task.Syncing? ==> forall p :: p in s.task.snapshot ==> p.Proper())
    && (s.task.Fanning? ==> s.task.payload.Proper())
  }

  ghost predicate Sane(env: Env, st: State) {
    && (forall n :: n in st.connections ==>
          st.connections[n] in st.sessions && st.sessions[st.connections[n]].node == n)
    && (forall sid :: sid in st.sessions ==> SessionProper(st, st.sessions[sid]))
    && (forall e :: e in st.known ==> e.payload.Proper() && e.key == env.KeyOf(e.payload))
  }

  ghost predicate Complete(env: Env, st: State) {
    forall n, e :: n in st.connections && st.connections[n] in st.sessions
                   && st.sessions[st.connections[n]].open && e in st.known ==>
      Covered(env, st, n, st.connections[n], e.key)
  }

  ghost predicate Inv(env: Env, st: State) {
    Sane(env, st) && Complete(env, st)
  }

  // ---------------------------------------------------------------------------
  // Every step keeps the invariant
  // ---------------------------------------------------------------------------

  lemma {:induction false} WithoutSubset(store: Store, key: string)
    ensures forall e :: e in Without(store, key) ==> e in store
  {
    if store != [] {
      WithoutSubset(store[1..], key);
    }
  }

  lemma RememberSubset(max: nat, store: Store, entry: Entry)
    ensures forall e :: e in Remember(max, store, entry) ==> e in store || e == entry
  {
    WithoutSubset(store, entry.key);
    assert forall e :: e in TakeLast(max, Without(store, entry.key) + [entry]) ==> e in Without(store, entry.key) + [entry];
  }

  lemma PayloadsOf(store: Store, p: Payload)
    ensures p in Payloads(store) <==> exists e :: e in store && e.payload == p
  {
    if e :| e in store && e.payload == p {
      var i :| 0 <= i < |store| && store[i] == e;
      assert Payloads(store)[i] == p;
    }
  }

  lemma JoinSane(env: Env, st: State, sid: SessionId, node: NodeId)
    requires Sane(env, st) && Enabled(st, Join(sid, node))
    ensures Sane(env, Apply(env, st, Join(sid, node)))
  {
    var st' := Apply(env, st, Join(sid, node));
    forall f | f in st'.sessions
      ensures SessionProper(st', st'.sessions[f])
    {
      assert f != sid ==> SessionProper(st, st.sessions[f]);
    }
  }

  lemma JoinKeeps(env: Env, st: State, sid: SessionId, node: NodeId)
    requires Inv(env, st) && Enabled(st, Join(sid, node))
    ensures Inv(env, Apply(env, st, Join(sid, node)))
  {
    var st' := Apply(env, st, Join(sid, node));
    JoinSane(env, st, sid, node);
    forall e | e in st.known
      ensures e.payload in Payloads(st.known)
    {
      PayloadsOf(st.known, e.payload);
    }
    forall n, e | n in st'.connections && st'.sessions[st'.connections[n]].open && e in st'.known
      ensures Covered(env, st', n, st'.connections[n], e.key)
    {
      if n == node {
        assert InSnapshot(env, st', sid, e.key);
      } else {
        forall f | f in st.sessions && FansTo(env, st.sessions[f], n, e.key)
          ensures Pending(env, st', n, e.key)
        {
          assert FansTo(env, st'.sessions[f], n, e.key);
        }
        CoverCarries(env, st, st', n, e.key);
      }
    }
  }

  /** A session whose own queues are unchanged stays covered if broadcasts to it are neither lost nor forgotten. */
  lemma CoverCarries(env: Env, st: State, st': State, node: NodeId, key: string)
    requires node in st.connections && st.connections[node] in st.sessions
    requires Covered(env, st, node, st.connections[node], key)
    requires node in st'.connections && st'.connections[node] == st.connections[node]
    requires var sid := st.connections[node];
             && sid in st'.sessions
             && st.sessions[sid].handled <= st'.sessions[sid].handled
             && (forall p :: p in st.sessions[sid].inbox ==> p in st'.sessions[sid].inbox)
             && (InSnapshot(env, st, sid, key) ==> Covered(env, st', node, sid, key))
    requires st.published <= st'.published && st.lost <= st'.lost && st.skipped <= st'.skipped
    requires Blacklist(st, node) <= Blacklist(st', node)
    requires forall f :: f in st.sessions && FansTo(env, st.sessions[f], node, key) ==>
               Covered(env, st', node, st.connections[node], key)
    ensures Covered(env, st', node, st.connections[node], key)
  {
    var sid := st.connections[node];
    if InInbox(env, st, sid, key) {
      var p :| p in st.sessions[sid].inbox && env.KeyOf(p) == key;
      assert p in st'.sessions[sid].inbox;
    }
  }

  /** Steps that touch neither tasks nor inboxes, nor open a session, keep every session covered. */
  lemma SameTasksKeep(env: Env, st: State, st': State)
    requires Inv(env, st) && Sane(env, st')
    requires st'.connections == st.connections && st'.known == st.known && st.published <= st'.published
    requires st'.lost == st.lost && st'.skipped == st.skipped && st'.sessions.Keys == st.sessions.Keys
    requires forall n :: n in st.connections && st.sessions[st.connections[n]].open ==>
               Blacklist(st, n) <= Blacklist(st', n)
    requires forall f :: f in st.sessions ==>
               && st'.sessions[f].task == st.sessions[f].task && st'.sessions[f].inbox == st.sessions[f].inbox
               && st'.sessions[f].handled == st.sessions[f].handled
               && (st'.sessions[f].open ==> st.sessions[f].open)
    ensures Inv(env, st')
  {
    forall n, e | n in st'.connections && st'.sessions[st'.connections[n]].open && e in st'.known
      ensures Covered(env, st', n, st'.connections[n], e.key)
    {
      var sid := st.connections[n];
      assert st.sessions[sid].open;
      forall f | f in st.sessions && FansTo(env, st.sessions[f], n, e.key)
        ensures Pending(env, st', n, e.key)
      {
        assert FansTo(env, st'.sessions[f], n, e.key);
      }
      assert InSnapshot(env, st, sid, e.key) ==> InSnapshot(env, st', sid, e.key);
      CoverCarries(env, st, st', n, e.key);
    }
  }

  lemma LearnKeeps(env: Env, st: State, node: NodeId, payload: Payload)
    requires Inv(env, st) && Enabled(st, Learn(node, payload))
    ensures Inv(env, Apply(env, st, Learn(node, payload)))
  {
    SameTasksKeep(env, st, Apply(env, st, Learn(node, payload)));
  }

  lemma PublishKeeps(env: Env, st: State, sid: SessionId, payload: Payload)
    requires Inv(env, st) && Enabled(st, Publish(sid, payload))
    ensures Inv(env, Apply(env, st, Publish(sid, payload)))
  {
    SameTasksKeep(env, st, Apply(env, st, Publish(sid, payload)));
  }

  lemma CloseKeeps(env: Env, st: State, sid: SessionId)
    requires Inv(env, st) && Enabled(st, Close(sid))
    ensures Inv(env, Apply(env, st, Close(sid)))
  {
    SameTasksKeep(env, st, Apply(env, st, Close(sid)));
  }

  /** A restarted node has no live session, so nothing it forgets was promised to one. */
  lemma RestartKeeps(env: Env, st: State, node: NodeId)
    requires Inv(env, st) && Enabled(st, Restart(node))
    ensures Inv(env, Apply(env, st, Restart(node)))
  {
    SameTasksKeep(env, st, Apply(env, st, Restart(node)));
  }

  lemma SyncSendSane(env: Env, st: State, sid: SessionId)
    requires Sane(env, st) && Enabled(st, SyncSend(sid))
    ensures Sane(env, Apply(env, st, SyncSend(sid)))
  {
    var st' := Apply(env, st, SyncSend(sid));
    var snapshot := st.sessions[sid].task.snapshot;
    assert forall p :: p in snapshot[1..] ==> p in snapshot;
    assert snapshot[0] in snapshot;
    forall f | f in st'.sessions
      ensures SessionProper(st', st'.sessions[f])
    {
      assert SessionProper(st, st.sessions[f]);
    }
  }

  lemma SyncSendKeeps(env: Env, st: State, sid: SessionId)
    requires Inv(env, st) && Enabled(st, SyncSend(sid))
    ensures Inv(env, Apply(env, st, SyncSend(sid)))
  {
    var st' := Apply(env, st, SyncSend(sid));
    var snapshot := st.sessions[sid].task.snapshot;
    SyncSendSane(env, st, sid);
    forall n, e | n in st'.connections && st'.sessions[st'.connections[n]].open && e in st'.known
      ensures Covered(env, st', n, st'.connections[n], e.key)
    {
      var own := st.connections[n];
      forall f | f in st.sessions && FansTo(env, st.sessions[f], n, e.key)
        ensures Pending(env, st', n, e.key)
      {
        assert FansTo(env, st'.sessions[f], n, e.key);
      }
      if InSnapshot(env, st, own, e.key) {
        var p :| p in st.sessions[own].task.snapshot && env.KeyOf(p) == e.key;
        if own == sid && p !in snapshot[1..] {
          assert p == snapshot[0] && p in st'.sessions[sid].inbox;
          assert InInbox(env, st', own, e.key);
        } else {
          assert InSnapshot(env, st', own, e.key);
        }
      }
      CoverCarries(env, st, st', n, e.key);
    }
  }

  lemma DispatchSane(env: Env, st: State, sid: SessionId, targets: seq<NodeId>)
    requires Sane(env, st) && Enabled(st, Dispatch(sid, targets))
    ensures Sane(env, Apply(env, st, Dispatch(sid, targets)))
  {
    var st' := Apply(env, st, Dispatch(sid, targets));
    var outbox := st.sessions[sid].outbox;
    assert outbox[0] in outbox && forall q :: q in outbox[1..] ==> q in outbox;
    assert SessionProper(st, st.sessions[sid]);
    RememberSubset(env.max, st.known, Entry(env.KeyOf(outbox[0]), outbox[0]));
    forall f | f in st'.sessions
      ensures SessionProper(st', st'.sessions[f])
    {
      assert SessionProper(st, st.sessions[f]);
    }
  }

  lemma DispatchKeeps(env: Env, st: State, sid: SessionId, targets: seq<NodeId>)
    requires Inv(env, st) && Enabled(st, Dispatch(sid, targets))
    ensures Inv(env, Apply(env, st, Dispatch(sid, targets)))
  {
    var st' := Apply(env, st, Dispatch(sid, targets));
    var p := st.sessions[sid].outbox[0];
    DispatchSane(env, st, sid, targets);
    RememberSubset(env.max, st.known, Entry(env.KeyOf(p), p));
    forall n, e | n in st'.connections && st'.sessions[st'.connections[n]].open && e in st'.known
      ensures Covered(env, st', n, st'.connections[n], e.key)
    {
      if e == Entry(env.KeyOf(p), p) {
        DispatchCovers(env, st, sid, targets, n);
      } else {
        var own := st.connections[n];
        forall f | f in st.sessions && FansTo(env, st.sessions[f], n, e.key)
          ensures Pending(env, st', n, e.key)
        {
          assert FansTo(env, st'.sessions[f], n, e.key);
        }
        assert InSnapshot(env, st, own, e.key) ==> InSnapshot(env, st', own, e.key);
        CoverCarries(env, st, st', n, e.key);
      }
    }
  }

  /** What is dispatched is pending for every connected node but its sender, who published it; if the sender's
      name has passed to a process that has not, it is accounted for all the same or on record as skipped. */
  lemma DispatchCovers(env: Env, st: State, sid: SessionId, targets: seq<NodeId>, node: NodeId)
    requires Sane(env, st) && Enabled(st, Dispatch(sid, targets)) && node in st.connections
    ensures var st', key := Apply(env, st, Dispatch(sid, targets)), env.KeyOf(st.sessions[sid].outbox[0]);
            st.connections[node] in st'.sessions && Covered(env, st', node, st.connections[node], key)
  {
    var s, st' := st.sessions[sid], Apply(env, st, Dispatch(sid, targets));
    var own, key := st.connections[node], env.KeyOf(s.outbox[0]);
    assert s.outbox[0] in s.outbox && SessionProper(st, s);
    if node != s.node {
      assert FansTo(env, st'.sessions[sid], node, key);
    } else if Accounted(env, st, node, own, key) {
      assert InInbox(env, st, own, key) ==> InInbox(env, st', own, key);
      assert InSnapshot(env, st, own, key) ==> InSnapshot(env, st', own, key);
      if f :| f in st.sessions && FansTo(env, st.sessions[f], node, key) {
        assert FansTo(env, st'.sessions[f], node, key);
      }
    }
  }

  lemma SendShape(st: State, to: SessionId, p: Payload)
    requires to in st.sessions
    ensures var st' := SendTo(st, to, p);
            && st' == st.(sessions := st'.sessions) && st'.sessions.Keys == st.sessions.Keys
            && (forall f :: f in st.sessions && f != to ==> st'.sessions[f] == st.sessions[f])
            && st'.sessions[to] == (if st.sessions[to].open
                                    then st.sessions[to].(inbox := st.sessions[to].inbox + [p]) else st.sessions[to])
  {
  }

  /** One send of a broadcast, seen from outside: the task moves on and one inbox may grow. */
  ghost predicate FansOne(st: State, st': State, sid: SessionId)
    requires Enabled(st, FanSend(sid)) && !BreaksOff(st, FanSend(sid))
  {
    var Fanning(p, targets) := st.sessions[sid].task;
    var to := st.connections[targets[0]];
    && st' == st.(sessions := st'.sessions) && st'.sessions.Keys == st.sessions.Keys
    && st'.sessions[sid].task == ResumeFan(p, targets[1..])
    && (forall f :: f in st.sessions ==>
          && (f != sid ==> st'.sessions[f].task == st.sessions[f].task)
          && st'.sessions[f].open == st.sessions[f].open && st'.sessions[f].node == st.sessions[f].node
          && st'.sessions[f].outbox == st.sessions[f].outbox && st'.sessions[f].handled == st.sessions[f].handled
          && st'.sessions[f].inbox == st.sessions[f].inbox + if f == to && st.sessions[f].open then [p] else [])
  }

  lemma FanSendShape(env: Env, st: State, sid: SessionId)
    requires Sane(env, st) && Enabled(st, FanSend(sid)) && !BreaksOff(st, FanSend(sid))
    ensures FansOne(st, Apply(env, st, FanSend(sid)), sid)
  {
    var Fanning(p, targets) := st.sessions[sid].task;
    var to := st.connections[targets[0]];
    SendShape(st, to, p);
    assert Apply(env, st, FanSend(sid)) == SetTask(SendTo(st, to, p), sid, ResumeFan(p, targets[1..]));
    SentShape(st, to, p, sid, targets[1..]);
  }

  lemma SentShape(st: State, to: SessionId, p: Payload, sid: SessionId, rest: seq<NodeId>)
    requires to in st.sessions && sid in st.sessions
    ensures var sent := SendTo(st, to, p);
            var st' := SetTask(sent, sid, ResumeFan(p, rest));
            && st' == st.(sessions := st'.sessions) && st'.sessions.Keys == st.sessions.Keys
            && forall f :: f in st.sessions ==>
                 st'.sessions[f] == st.sessions[f].(
                   task := if f == sid then ResumeFan(p, rest) else st.sessions[f].task,
                   inbox := st.sessions[f].inbox + if f == to && st.sessions[f].open then [p] else [])
  {
    assert forall f :: f in st.sessions ==> st.sessions[f].inbox + [] == st.sessions[f].inbox;
  }

  lemma FanSendSane(env: Env, st: State, st': State, sid: SessionId)
    requires Sane(env, st) && Enabled(st, FanSend(sid)) && !BreaksOff(st, FanSend(sid)) && FansOne(st, st', sid)
    ensures Sane(env, st')
  {
    assert SessionProper(st, st.sessions[sid]);
    forall f | f in st'.sessions
      ensures SessionProper(st', st'.sessions[f])
    {
      StillProper(st, st', st.sessions[f], st'.sessions[f], st.sessions[sid].task.payload);
    }
  }

  /** A session stays proper when it moves on to a task for the same payloads and may get one more message. */
  lemma StillProper(st: State, st': State, s: Session, s': Session, p: Payload)
    requires SessionProper(st, s) && p.Proper()
    requires st'.published == st.published && st'.blacklists == st.blacklists
    requires s' == s.(task := s'.task, inbox := s'.inbox)
    requires s'.task == s.task || s'.task.Idle? || (s'.task.Fanning? && s'.task.payload == p)
    requires s'.inbox == s.inbox || s'.inbox == s.inbox + [p] || s'.inbox == s.inbox + []
    ensures SessionProper(st', s')
  {
  }

  lemma FanSendKeeps(env: Env, st: State, sid: SessionId)
    requires Inv(env, st) && Enabled(st, FanSend(sid)) && !BreaksOff(st, FanSend(sid))
    ensures Inv(env, Apply(env, st, FanSend(sid)))
  {
    var st' := Apply(env, st, FanSend(sid));
    FanSendShape(env, st, sid);
    FanSendSane(env, st, st', sid);
    forall n, e | n in st'.connections && st'.sessions[st'.connections[n]].open && e in st'.known
      ensures Covered(env, st', n, st'.connections[n], e.key)
    {
      FanSendCovers(env, st, st', sid, n, e);
    }
  }

  lemma FanSendCovers(env: Env, st: State, st': State, sid: SessionId, n: NodeId, e: Entry)
    requires Inv(env, st) && Enabled(st, FanSend(sid)) && !BreaksOff(st, FanSend(sid)) && FansOne(st, st', sid)
    requires n in st.connections && st.sessions[st.connections[n]].open && e in st.known
    ensures st.connections[n] in st'.sessions && Covered(env, st', n, st.connections[n], e.key)
  {
    var Fanning(p, targets) := st.sessions[sid].task;
    var own := st.connections[n];
    forall f | f in st.sessions && FansTo(env, st.sessions[f], n, e.key)
      ensures Covered(env, st', n, own, e.key)
    {
      if f != sid {
        assert FansTo(env, st'.sessions[f], n, e.key);
      } else if n in targets[1..] {
        assert FansTo(env, st'.sessions[sid], n, e.key);
      } else {
        assert n == targets[0];
        assert p in st'.sessions[own].inbox;
        assert InInbox(env, st', own, e.key);
      }
    }
    assert InSnapshot(env, st, own, e.key) ==> InSnapshot(env, st', own, e.key);
    CoverCarries(env, st, st', n, e.key);
  }

  lemma BreakOffSane(env: Env, st: State, sid: SessionId)
    requires Sane(env, st) && Enabled(st, FanSend(sid)) && BreaksOff(st, FanSend(sid))
    ensures Sane(env, Apply(env, st, FanSend(sid)))
  {
  }

  /** A broken-off broadcast records exactly what it fails to deliver, so the account still balances. */
  lemma BreakOffKeeps(env: Env, st: State, sid: SessionId)
    requires Inv(env, st) && Enabled(st, FanSend(sid)) && BreaksOff(st, FanSend(sid))
    ensures Inv(env, Apply(env, st, FanSend(sid)))
  {
    var st' := Apply(env, st, FanSend(sid));
    BreakOffSane(env, st, sid);
    forall n, e | n in st'.connections && st'.sessions[st'.connections[n]].open && e in st'.known
      ensures Covered(env, st', n, st'.connections[n], e.key)
    {
      var own := st.connections[n];
      assert st'.connections[n] == own && own != sid;
      forall f | f in st.sessions && FansTo(env, st.sessions[f], n, e.key)
        ensures Covered(env, st', n, own, e.key)
      {
        if f != sid {
          assert FansTo(env, st'.sessions[f], n, e.key);
        } else {
          assert (own, e.key) in st'.lost;
        }
      }
      assert InSnapshot(env, st, own, e.key) ==> InSnapshot(env, st', own, e.key);
      CoverCarries(env, st, st', n, e.key);
    }
  }

  lemma ReceiveSane(env: Env, st: State, sid: SessionId)
    requires Sane(env, st) && Enabled(st, Receive(sid))
    ensures Sane(env, Apply(env, st, Receive(sid)))
  {
    var st' := Apply(env, st, Receive(sid));
    var s := st.sessions[sid];
    assert forall q :: q in s.inbox[1..] ==> q in s.inbox;
    forall f | f in st'.sessions
      ensures SessionProper(st', st'.sessions[f])
    {
      assert SessionProper(st, st.sessions[f]);
    }
  }

  lemma ReceiveKeeps(env: Env, st: State, sid: SessionId)
    requires Inv(env, st) && Enabled(st, Receive(sid))
    ensures Inv(env, Apply(env, st, Receive(sid)))
  {
    var st' := Apply(env, st, Receive(sid));
    var s := st.sessions[sid];
    var p := s.inbox[0];
    ReceiveSane(env, st, sid);
    assert p in s.inbox && SessionProper(st, s);
    forall n, e | n in st'.connections && st'.sessions[st'.connections[n]].open && e in st'.known
      ensures Covered(env, st', n, st'.connections[n], e.key)
    {
      var own := st.connections[n];
      if InInbox(env, st, own, e.key) {
        var q :| q in st.sessions[own].inbox && env.KeyOf(q) == e.key;
        assert q in st'.sessions[own].inbox || (q == p && own == sid && e.key in st'.sessions[sid].handled);
      } else if Pending(env, st, n, e.key) {
        var f :| f in st.sessions && FansTo(env, st.sessions[f], n, e.key);
        assert FansTo(env, st'.sessions[f], n, e.key);
      } else {
        assert InSnapshot(env, st, own, e.key) ==> InSnapshot(env, st', own, e.key);
      }
    }
  }

  lemma LeaveKeeps(env: Env, st: State, sid: SessionId)
    requires Inv(env, st) && Enabled(st, Leave(sid))
    ensures Inv(env, Apply(env, st, Leave(sid)))
  {
    var st' := Apply(env, st, Leave(sid));
    forall n, e | n in st'.connections && st'.sessions[st'.connections[n]].open && e in st'.known
      ensures Covered(env, st', n, st'.connections[n], e.key)
    {
      var own := st.connections[n];
      forall f | f in st.sessions && FansTo(env, st.sessions[f], n, e.key)
        ensures Pending(env, st', n, e.key)
      {
        assert FansTo(env, st'.sessions[f], n, e.key);
      }
      assert InSnapshot(env, st, own, e.key) ==> InSnapshot(env, st', own, e.key);
      CoverCarries(env, st, st', n, e.key);
    }
  }

  lemma StepKeepsInv(env: Env, st: State, step: Step)
    requires Inv(env, st) && Enabled(st, step)
    ensures Inv(env, Apply(env, st, step))
  {
    match step
    case Join(sid, node) => JoinKeeps(env, st, sid, node);
    case Learn(node, payload) => LearnKeeps(env, st, node, payload);
    case Publish(sid, payload) => PublishKeeps(env, st, sid, payload);
    case SyncSend(sid) => SyncSendKeeps(env, st, sid);
    case Dispatch(sid, targets) => DispatchKeeps(env, st, sid, targets);
    case FanSend(sid) =>
      if BreaksOff(st, step) {
        BreakOffKeeps(env, st, sid);
      } else {
        FanSendKeeps(env, st, sid);
      }
    case Receive(sid) => ReceiveKeeps(env, st, sid);
    case Close(sid) => CloseKeeps(env, st, sid);
    case Leave(sid) => LeaveKeeps(env, st, sid);
    case Restart(node) => RestartKeeps(env, st, node);
  }

  // ---------------------------------------------------------------------------
  // Whole runs
  // ---------------------------------------------------------------------------

  ghost predicate Runs(env: Env, st: State, steps: seq<Step>)
    decreases |steps|
  {
    steps != [] ==> Enabled(st, steps[0]) && Runs(env, Apply(env, st, steps[0]), steps[1..])
  }

  ghost function After(env: Env, st: State, steps: seq<Step>): State
    requires Runs(env, st, steps)
    decreases |steps|
  {
    if steps == [] then st else After(env, Apply(env, st, steps[0]), steps[1..])
  }

  /** No target of a broadcast leaves before its turn comes. */
  ghost predicate NeverBreaksOff(env: Env, st: State, steps: seq<Step>)
    requires Runs(env, st, steps)
    decreases |steps|
  {
    steps != [] ==> !BreaksOff(st, steps[0]) && NeverBreaksOff(env, Apply(env, st, steps[0]), steps[1..])
  }

  /** A step that the code goes on from to a first send, without an await in between. */
  predicate Opens(st: State, step: Step) {
    (step.Join? && st.known != []) || (step.Dispatch? && step.targets != [])
  }

  function FirstSend(step: Step): Step
    requires step.Join? || step.Dispatch?
  {
    if step.Join? then SyncSend(step.sid) else FanSend(step.sid)
  }

  /** A run of the code: what opens a replay or a broadcast is followed by its first send. */
  ghost predicate CutAtAwaits(env: Env, st: State, steps: seq<Step>)
    requires Runs(env, st, steps)
    decreases |steps|
  {
    steps != [] ==>
      && (Opens(st, steps[0]) ==> |steps| > 1 && steps[1] == FirstSend(steps[0]))
      && CutAtAwaits(env, Apply(env, st, steps[0]), steps[1..])
  }

  /** So the first target of a broadcast is always still there: what breaks one off is the departure of a later
      target while an earlier send is awaited. */
  lemma FirstSendNeverBreaks(env: Env, st: State, step: Step)
    requires Enabled(st, step) && Opens(st, step)
    ensures var next := Apply(env, st, step);
            Enabled(next, FirstSend(step)) && !BreaksOff(next, FirstSend(step))
  {
    if step.Dispatch? {
      assert step.targets[0] in step.targets;
    }
  }

  lemma {:induction false} RunKeepsInv(env: Env, st: State, steps: seq<Step>)
    requires Inv(env, st) && Runs(env, st, steps)
    ensures Inv(env, After(env, st, steps))
    ensures NeverBreaksOff(env, st, steps) ==> After(env, st, steps).lost == st.lost
    decreases |steps|
  {
    if steps != [] {
      StepKeepsInv(env, st, steps[0]);
      RunKeepsInv(env, Apply(env, st, steps[0]), steps[1..]);
    }
  }

  /** Nothing is on its way to the node: its current session has been replayed to and has no unread message,
      and no broadcast under way still lists the node. Other sessions, dead or alive, may be in any state. */
  ghost predicate Settled(st: State, node: NodeId) {
    && node in st.connections && st.connections[node] in st.sessions
    && !st.sessions[st.connections[node]].task.Syncing? && st.sessions[st.connections[node]].inbox == []
    && forall f :: f in st.sessions && st.sessions[f].task.Fanning? ==> node !in st.sessions[f].task.targets
  }

  /** What a settled node can do without: what a broken-off broadcast owes its session, or its own skipped. */
  lemma SettledNodesWereServed(env: Env, st: State, node: NodeId, e: Entry)
    requires Inv(env, st) && Settled(st, node) && e in st.known && st.sessions[st.connections[node]].open
    ensures e.payload.signatureHash == Some(e.key)
    ensures var sid := st.connections[node];
            || (e.key in Blacklist(st, node) && (e.key in st.sessions[sid].handled || (node, e.key) in st.published))
            || (sid, e.key) in st.lost
            || (sid, e.key) in st.skipped
  {
    assert Covered(env, st, node, st.connections[node], e.key);
    assert SessionProper(st, st.sessions[st.connections[node]]);
  }

  /** The node's process at the end is the one it started with. */
  predicate KeepsRunning(steps: seq<Step>, node: NodeId) {
    forall step <- steps :: step != Restart(node)
  }

  /** A process has registered whatever it published. */
  lemma {:induction false} PublishedIsRegistered(env: Env, st: State, steps: seq<Step>, node: NodeId)
    requires Runs(env, st, steps) && KeepsRunning(steps, node)
    requires forall key :: (node, key) in st.published ==> key in Blacklist(st, node)
    ensures var end := After(env, st, steps); forall key :: (node, key) in end.published ==> key in Blacklist(end, node)
    decreases |steps|
  {
    if steps != [] {
      assert steps[0] in steps && forall step <- steps[1..] :: step in steps;
      PublishedIsRegistered(env, Apply(env, st, steps[0]), steps[1..], node);
    }
  }

  /** Every interleaving, whatever the other sessions are doing: a live node that is settled has registered every
      remembered antigen, by the very hash it matches payloads with, except those that a broken-off broadcast owed
      its session, and those that their broadcast skipped it for, which takes an earlier process of the node. */
  lemma SettledNodesAreImmune(env: Env, steps: seq<Step>, node: NodeId, e: Entry)
    requires Runs(env, INITIAL, steps)
    requires var end := After(env, INITIAL, steps);
             Settled(end, node) && e in end.known && end.sessions[end.connections[node]].open
    ensures var end := After(env, INITIAL, steps);
            && e.payload.signatureHash == Some(e.key)
            && (|| e.key in Blacklist(end, node)
                || (end.connections[node], e.key) in end.lost
                || ((end.connections[node], e.key) in end.skipped && !KeepsRunning(steps, node)))
            && (NeverBreaksOff(env, INITIAL, steps) && KeepsRunning(steps, node) ==> e.key in Blacklist(end, node))
  {
    var end := After(env, INITIAL, steps);
    RunKeepsInv(env, INITIAL, steps);
    SettledNodesWereServed(env, end, node, e);
    SkippedWerePublished(env, INITIAL, steps);
    if KeepsRunning(steps, node) {
      PublishedIsRegistered(env, INITIAL, steps, node);
      assert (end.connections[node], e.key) in end.skipped ==> (node, e.key) in end.published;
    }
  }

  ghost predicate SkipsProper(st: State) {
    forall k :: k in st.skipped ==> k.0 in st.sessions && (st.sessions[k.0].node, k.1) in st.published
  }

  /** A session is skipped only for what has been published under its node's name. */
  lemma StepKeepsSkips(env: Env, st: State, step: Step)
    requires Sane(env, st) && Enabled(st, step) && SkipsProper(st)
    ensures SkipsProper(Apply(env, st, step))
  {
    SessionsStay(env, st, step);
    if step.Dispatch? {
      var s := st.sessions[step.sid];
      assert s.outbox[0] in s.outbox && SessionProper(st, s);
    }
  }

  lemma {:induction false} SkippedWerePublished(env: Env, st: State, steps: seq<Step>)
    requires Inv(env, st) && Runs(env, st, steps) && SkipsProper(st)
    ensures SkipsProper(After(env, st, steps))
    decreases |steps|
  {
    if steps != [] {
      StepKeepsInv(env, st, steps[0]);
      StepKeepsSkips(env, st, steps[0]);
      SkippedWerePublished(env, Apply(env, st, steps[0]), steps[1..]);
    }
  }

  // ---------------------------------------------------------------------------
  // Every live node can settle
  // ---------------------------------------------------------------------------

  /** Whoever replays or broadcasts has something left to send. */
  ghost predicate HasWork(st: State) {
    forall f :: f in st.sessions ==>
      && (st.sessions[f].task.Syncing? ==> st.sessions[f].task.snapshot != [])
      && (st.sessions[f].task.Fanning? ==> st.sessions[f].task.targets != [])
  }

  lemma StepKeepsWork(env: Env, st: State, step: Step)
    requires HasWork(st) && Enabled(st, step)
    ensures HasWork(Apply(env, st, step))
  {
  }

  lemma {:induction false} RunKeepsWork(env: Env, st: State, steps: seq<Step>)
    requires HasWork(st) && Runs(env, st, steps)
    ensures HasWork(After(env, st, steps))
    decreases |steps|
  {
    if steps != [] {
      StepKeepsWork(env, st, steps[0]);
      RunKeepsWork(env, Apply(env, st, steps[0]), steps[1..]);
    }
  }

  lemma {:induction false} RunsConcat(env: Env, st: State, xs: seq<Step>, ys: seq<Step>)
    requires Runs(env, st, xs) && Runs(env, After(env, st, xs), ys)
    ensures Runs(env, st, xs + ys) && After(env, st, xs + ys) == After(env, After(env, st, xs), ys)
    decreases |xs|
  {
    if xs == [] {
      assert xs + ys == ys;
    } else {
      assert (xs + ys)[1..] == xs[1..] + ys;
      RunsConcat(env, Apply(env, st, xs[0]), xs[1..], ys);
    }
  }

  /** Messages that are already on their way, going on. */
  predicate Onward(step: Step) {
    step.SyncSend? || step.FanSend? || step.Receive?
  }

  /** The node's current session is `own`, live, and not in a broadcast of its own. */
  ghost predicate Listens(st: State, node: NodeId, own: SessionId) {
    && node in st.connections && st.connections[node] == own && own in st.sessions
    && st.sessions[own].open && st.sessions[own].node == node && !st.sessions[own].task.Fanning?
  }

  ghost function Listing(st: State, node: NodeId): set<SessionId> {
    set f | f in st.sessions && st.sessions[f].task.Fanning? && node in st.sessions[f].task.targets
  }

  ghost predicate Advances(env: Env, st: State, steps: seq<Step>) {
    Runs(env, st, steps) && forall step :: step in steps ==> Onward(step)
  }

  lemma AdvancesFurther(env: Env, st: State, xs: seq<Step>, ys: seq<Step>)
    requires Advances(env, st, xs) && Advances(env, After(env, st, xs), ys)
    ensures Advances(env, st, xs + ys) && After(env, st, xs + ys) == After(env, After(env, st, xs), ys)
  {
    RunsConcat(env, st, xs, ys);
  }

  /** One send of another session's broadcast. */
  lemma SendOne(env: Env, st: State, f: SessionId, node: NodeId, own: SessionId)
    requires Sane(env, st) && HasWork(st) && Listens(st, node, own) && f in st.sessions && st.sessions[f].task.Fanning?
    ensures Enabled(st, FanSend(f))
    ensures var st' := Apply(env, st, FanSend(f));
            && Listens(st', node, own) && f in st'.sessions
            && (st'.sessions[f].task.Fanning? ==> |st'.sessions[f].task.targets| < |st.sessions[f].task.targets|)
            && Listing(st', node) <= Listing(st, node)
  {
    SendKeepsListening(env, st, f, node, own);
    SendTouchesOneTask(env, st, f);
    var targets := st.sessions[f].task.targets;
    assert forall n :: n in targets[1..] ==> n in targets;
  }

  lemma SendKeepsListening(env: Env, st: State, f: SessionId, node: NodeId, own: SessionId)
    requires Sane(env, st) && Listens(st, node, own) && Enabled(st, FanSend(f))
    ensures Listens(Apply(env, st, FanSend(f)), node, own)
  {
    assert own != f;
  }

  lemma SendTouchesOneTask(env: Env, st: State, f: SessionId)
    requires Enabled(st, FanSend(f))
    ensures var st' := Apply(env, st, FanSend(f));
            && f in st'.sessions
            && (st'.sessions[f].task.Fanning? ==>
                  st'.sessions[f].task.targets == st.sessions[f].task.targets[1..])
            && (forall g :: g in st'.sessions && g != f ==>
                  g in st.sessions && st'.sessions[g].task == st.sessions[g].task)
  {
  }

  /** A broadcast of another session can go on until the node is off its list. */
  lemma {:induction false} FlushOne(env: Env, st: State, f: SessionId, node: NodeId, own: SessionId)
    returns (steps: seq<Step>)
    requires Inv(env, st) && HasWork(st) && Listens(st, node, own) && f in Listing(st, node)
    ensures Advances(env, st, steps)
    ensures var end := After(env, st, steps);
            Inv(env, end) && HasWork(end) && Listens(end, node, own) && Listing(end, node) <= Listing(st, node) - {f}
    decreases |st.sessions[f].task.targets|
  {
    var st' := Apply(env, st, FanSend(f));
    SendOne(env, st, f, node, own);
    StepKeepsInv(env, st, FanSend(f));
    StepKeepsWork(env, st, FanSend(f));
    RunOfStep(env, st, FanSend(f));
    steps := [FanSend(f)];
    if f in Listing(st', node) {
      var rest := FlushOne(env, st', f, node, own);
      AdvancesFurther(env, st, steps, rest);
      steps := steps + rest;
    }
  }

  lemma RunOfStep(env: Env, st: State, step: Step)
    requires Enabled(st, step)
    ensures Runs(env, st, [step]) && After(env, st, [step]) == Apply(env, st, step)
  {
    assert [step][1..] == [];
  }

  lemma {:induction false} FlushAll(env: Env, st: State, node: NodeId, own: SessionId) returns (steps: seq<Step>)
    requires Inv(env, st) && HasWork(st) && Listens(st, node, own)
    ensures Advances(env, st, steps)
    ensures var end := After(env, st, steps);
            Inv(env, end) && HasWork(end) && Listens(end, node, own) && Listing(end, node) == {}
    decreases |Listing(st, node)|
  {
    steps := [];
    if Listing(st, node) != {} {
      var f :| f in Listing(st, node);
      steps := FlushOne(env, st, f, node, own);
      var mid := After(env, st, steps);
      Fewer(Listing(mid, node), Listing(st, node), f);
      var rest := FlushAll(env, mid, node, own);
      AdvancesFurther(env, st, steps, rest);
      steps := steps + rest;
    }
  }

  lemma Fewer<T>(small: set<T>, large: set<T>, x: T)
    requires small <= large - {x} && x in large
    ensures |small| < |large|
  {
    Smaller(small, large - {x});
  }

  lemma {:induction false} Smaller<T>(small: set<T>, large: set<T>)
    requires small <= large
    ensures |small| <= |large|
  {
    assert large == small + (large - small);
    assert |large| == |small| + |large - small|;
  }

  /** One message of the node's own session further: from its snapshot, or out of its inbox. */
  lemma OwnStep(env: Env, st: State, node: NodeId, own: SessionId, step: Step)
    requires Inv(env, st) && HasWork(st) && Listens(st, node, own) && Listing(st, node) == {}
    requires (st.sessions[own].task.Syncing? && step == SyncSend(own))
             || (!st.sessions[own].task.Syncing? && st.sessions[own].inbox != [] && step == Receive(own))
    ensures Enabled(st, step)
    ensures var st' := Apply(env, st, step);
            && Inv(env, st') && HasWork(st') && Listens(st', node, own) && Listing(st', node) == {}
            && Backlog(st'.sessions[own]) < Backlog(st.sessions[own])
  {
    StepKeepsInv(env, st, step);
    StepKeepsWork(env, st, step);
    assert Listing(Apply(env, st, step), node) <= Listing(st, node);
  }

  /** Each message of a snapshot is sent once and handled once. */
  function Backlog(s: Session): nat {
    (if s.task.Syncing? then 2 * |s.task.snapshot| else 0) + |s.inbox|
  }

  lemma {:induction false} DrainOwn(env: Env, st: State, node: NodeId, own: SessionId) returns (steps: seq<Step>)
    requires Inv(env, st) && HasWork(st) && Listens(st, node, own) && Listing(st, node) == {}
    ensures Advances(env, st, steps)
    ensures var end := After(env, st, steps); Listens(end, node, own) && Settled(end, node)
    decreases Backlog(st.sessions[own])
  {
    steps := [];
    if st.sessions[own].task.Syncing? || st.sessions[own].inbox != [] {
      var step := if st.sessions[own].task.Syncing? then SyncSend(own) else Receive(own);
      OwnStep(env, st, node, own, step);
      RunOfStep(env, st, step);
      var rest := DrainOwn(env, Apply(env, st, step), node, own);
      AdvancesFurther(env, st, [step], rest);
      steps := [step] + rest;
    } else {
      assert forall f :: f in st.sessions && st.sessions[f].task.Fanning? && node in st.sessions[f].task.targets ==>
               f in Listing(st, node);
    }
  }

  /** From wherever a run has got to, a live node that is not in a broadcast of its own can settle in its session, by
      nothing but what is already on its way: sends under way going on, and the node handling them. */
  lemma LiveNodesCanSettle(env: Env, steps: seq<Step>, node: NodeId) returns (more: seq<Step>)
    requires Runs(env, INITIAL, steps)
    requires var st := After(env, INITIAL, steps);
             && node in st.connections && st.connections[node] in st.sessions
             && st.sessions[st.connections[node]].open && !st.sessions[st.connections[node]].task.Fanning?
    ensures var st := After(env, INITIAL, steps);
            && Runs(env, st, more) && (forall step :: step in more ==> Onward(step))
            && var end := After(env, st, more);
               && Settled(end, node) && end.connections[node] == st.connections[node]
               && end.sessions[end.connections[node]].open
  {
    var st := After(env, INITIAL, steps);
    var own := st.connections[node];
    RunKeepsInv(env, INITIAL, steps);
    RunKeepsWork(env, INITIAL, steps);
    var first := FlushAll(env, st, node, own);
    var second := DrainOwn(env, After(env, st, first), node, own);
    AdvancesFurther(env, st, first, second);
    more := first + second;
  }

  // ---------------------------------------------------------------------------
  // What the relay remembers, and whom it takes for connected
  // ---------------------------------------------------------------------------

  /** The antigens the relay takes up on a run, in order. */
  ghost function Taken(env: Env, st: State, steps: seq<Step>): seq<Entry>
    requires Runs(env, st, steps)
    decreases |steps|
  {
    if steps == [] then []
    else
      (if steps[0].Dispatch?
       then var p := st.sessions[steps[0].sid].outbox[0]; [Entry(env.KeyOf(p), p)] else [])
      + Taken(env, Apply(env, st, steps[0]), steps[1..])
  }

  lemma StepRemembers(env: Env, st: State, step: Step)
    requires Enabled(st, step)
    ensures Apply(env, st, step).known ==
            if step.Dispatch?
            then var p := st.sessions[step.sid].outbox[0]; Remember(env.max, st.known, Entry(env.KeyOf(p), p)) else st.known
  {
  }

  lemma {:induction false} RunRemembers(env: Env, st: State, steps: seq<Step>)
    requires Runs(env, st, steps)
    ensures After(env, st, steps).known == RememberMore(env.max, st.known, Taken(env, st, steps))
    decreases |steps|
  {
    if steps != [] {
      var rest := Taken(env, Apply(env, st, steps[0]), steps[1..]);
      StepRemembers(env, st, steps[0]);
      RunRemembers(env, Apply(env, st, steps[0]), steps[1..]);
      if steps[0].Dispatch? {
        var p := st.sessions[steps[0].sid].outbox[0];
        assert ([Entry(env.KeyOf(p), p)] + rest)[1..] == rest;
      } else {
        assert [] + rest == rest;
      }
    }
  }

  /** On every run, whoever was or was not connected, the relay remembers the last `max` distinct antigens it has taken
      up, in the order of their last mention, each with its latest payload. */
  lemma RelayRemembersTheLatest(env: Env, steps: seq<Step>)
    requires env.max > 0 && Runs(env, INITIAL, steps)
    ensures After(env, INITIAL, steps).known == TakeLast(env.max, Latest(Taken(env, INITIAL, steps)))
  {
    RunRemembers(env, INITIAL, steps);
    RememberedInTurn(env.max, Taken(env, INITIAL, steps));
    StoreIsLatest(env.max, Taken(env, INITIAL, steps));
  }

  function Joined(joins: map<NodeId, SessionId>, step: Step): map<NodeId, SessionId> {
    if step.Join? then joins[step.node := step.sid] else joins
  }

  /** The last session each node joined with. */
  function LastJoins(joins: map<NodeId, SessionId>, steps: seq<Step>): map<NodeId, SessionId>
    decreases |steps|
  {
    if steps == [] then joins else LastJoins(Joined(joins, steps[0]), steps[1..])
  }

  ghost predicate FollowsJoins(st: State, joins: map<NodeId, SessionId>) {
    && (forall n :: n in joins ==> joins[n] in st.sessions && st.sessions[joins[n]].node == n)
    && (forall n :: n in st.connections <==> n in joins && st.sessions[joins[n]].task != Done)
    && (forall n :: n in st.connections ==> st.connections[n] == joins[n])
  }

  /** A handler that has ended stays ended; it ends by its cleanup, or by a broadcast that breaks off. */
  lemma EndsIff(env: Env, st: State, step: Step, sid: SessionId)
    requires Enabled(st, step) && sid in st.sessions
    ensures var st' := Apply(env, st, step);
            && sid in st'.sessions
            && (st'.sessions[sid].task == Done <==>
                st.sessions[sid].task == Done || Ends(st, step, sid))
  {
  }

  lemma StepFollowsJoins(env: Env, st: State, step: Step, joins: map<NodeId, SessionId>)
    requires Sane(env, st) && Enabled(st, step) && FollowsJoins(st, joins)
    ensures FollowsJoins(Apply(env, st, step), Joined(joins, step))
  {
    var st' := Apply(env, st, step);
    SessionsStay(env, st, step);
    ConnectionsMove(env, st, step);
    forall n | n in joins
      ensures joins[n] in st'.sessions && st'.sessions[joins[n]].node == n
      ensures st'.sessions[joins[n]].task == Done <==> st.sessions[joins[n]].task == Done || Ends(st, step, joins[n])
    {
      EndsIff(env, st, step, joins[n]);
    }
    MapsFollow(env, st, st', step, joins);
  }

  /** The step ends the handler of the session. */
  predicate Ends(st: State, step: Step, sid: SessionId)
    requires Enabled(st, step)
  {
    (step.Leave? && step.sid == sid) || (step.FanSend? && step.sid == sid && BreaksOff(st, step))
  }

  ghost predicate MovesConnections(st: State, st': State, step: Step)
    requires Enabled(st, step)
  {
    && st'.connections == (if step.Join? then st.connections[step.node := step.sid]
                           else if step.Leave? || BreaksOff(st, step)
                           then Detach(st.connections, st.sessions[step.sid].node, step.sid) else st.connections)
    && (step.Join? ==> step.sid in st'.sessions && st'.sessions[step.sid].task != Done
                       && st'.sessions[step.sid].node == step.node)
  }

  lemma MapsFollow(env: Env, st: State, st': State, step: Step, joins: map<NodeId, SessionId>)
    requires Sane(env, st) && Enabled(st, step) && FollowsJoins(st, joins) && MovesConnections(st, st', step)
    requires forall n :: n in joins ==>
               && joins[n] in st'.sessions && st'.sessions[joins[n]].node == n
               && (st'.sessions[joins[n]].task == Done <==>
                   st.sessions[joins[n]].task == Done || Ends(st, step, joins[n]))
    ensures FollowsJoins(st', Joined(joins, step))
  {
  }

  lemma ConnectionsMove(env: Env, st: State, step: Step)
    requires Enabled(st, step)
    ensures MovesConnections(st, Apply(env, st, step), step)
  {
  }

  lemma {:induction false} RunFollowsJoins(env: Env, st: State, steps: seq<Step>, joins: map<NodeId, SessionId>)
    requires Inv(env, st) && Runs(env, st, steps) && FollowsJoins(st, joins)
    ensures FollowsJoins(After(env, st, steps), LastJoins(joins, steps))
    decreases |steps|
  {
    if steps != [] {
      StepFollowsJoins(env, st, steps[0], joins);
      StepKeepsInv(env, st, steps[0]);
      RunFollowsJoins(env, Apply(env, st, steps[0]), steps[1..], Joined(joins, steps[0]));
    }
  }

  /** On every run a node counts as connected if and only if the handler of the last session it joined with has not
      ended, and then it is that session's socket its messages go to. */
  lemma ConnectedIff(env: Env, steps: seq<Step>, node: NodeId)
    requires Runs(env, INITIAL, steps)
    ensures var end, joins := After(env, INITIAL, steps), LastJoins(map[], steps);
            && (node in joins ==> joins[node] in end.sessions)
            && (node in end.connections <==> node in joins && end.sessions[joins[node]].task != Done)
            && (node in end.connections ==> end.connections[node] == joins[node])
  {
    RunFollowsJoins(env, INITIAL, steps, map[]);
  }

  // ---------------------------------------------------------------------------
  // What a replay delivers
  // ---------------------------------------------------------------------------

  /** A session never changes its node, and once closed stays closed. */
  lemma SessionsStay(env: Env, st: State, step: Step)
    requires Enabled(st, step)
    ensures var st' := Apply(env, st, step);
            forall f :: f in st.sessions ==>
              f in st'.sessions && st'.sessions[f].node == st.sessions[f].node
              && (st'.sessions[f].open ==> st.sessions[f].open)
  {
  }

  /** A queue after a step: as it was, with one message more at its end, or without its first. */
  predicate Queues(before: seq<Payload>, after: seq<Payload>) {
    || after == before
    || (|after| == |before| + 1 && before == after[..|before|])
    || (before != [] && after == before[1..])
  }

  /** Every step keeps every queue in order: what the relay sends, a node handles in that order, and what a node sends,
      the relay takes up in that order. A replay goes through its snapshot from the front. */
  lemma QueuesStayInOrder(env: Env, st: State, step: Step, sid: SessionId)
    requires Enabled(st, step) && sid in st.sessions
    ensures var st' := Apply(env, st, step);
            && sid in st'.sessions
            && Queues(st.sessions[sid].inbox, st'.sessions[sid].inbox)
            && Queues(st.sessions[sid].outbox, st'.sessions[sid].outbox)
            && (st.sessions[sid].task.Syncing? && st'.sessions[sid].task.Syncing? ==>
                  var before, after := st.sessions[sid].task.snapshot, st'.sessions[sid].task.snapshot;
                  after == before
                  || (before != [] && after == before[1..]
                      && st'.sessions[sid].inbox == st.sessions[sid].inbox + [before[0]]))
  {
    InboxInOrder(env, st, step, sid);
    OutboxInOrder(env, st, step, sid);
    if st.sessions[sid].task.Syncing? && Apply(env, st, step).sessions[sid].task.Syncing? {
      SnapshotInOrder(env, st, step, sid);
    }
  }

  lemma InboxInOrder(env: Env, st: State, step: Step, sid: SessionId)
    requires Enabled(st, step) && sid in st.sessions
    ensures var st' := Apply(env, st, step);
            sid in st'.sessions && Queues(st.sessions[sid].inbox, st'.sessions[sid].inbox)
  {
  }

  lemma OutboxInOrder(env: Env, st: State, step: Step, sid: SessionId)
    requires Enabled(st, step) && sid in st.sessions
    ensures var st' := Apply(env, st, step);
            sid in st'.sessions && Queues(st.sessions[sid].outbox, st'.sessions[sid].outbox)
  {
  }

  lemma SnapshotInOrder(env: Env, st: State, step: Step, sid: SessionId)
    requires Enabled(st, step) && sid in st.sessions && st.sessions[sid].task.Syncing?
             && sid in Apply(env, st, step).sessions && Apply(env, st, step).sessions[sid].task.Syncing?
    ensures var s, s' := st.sessions[sid], Apply(env, st, step).sessions[sid];
            s'.task.snapshot == s.task.snapshot
            || (s.task.snapshot != [] && s'.task.snapshot == s.task.snapshot[1..]
                && s'.inbox == s.inbox + [s.task.snapshot[0]])
  {
  }

  /** A key on its way to a session by the session's own queues alone, or handled already, and not on record as
      skipped. */
  predicate Promised(env: Env, st: State, sid: SessionId, key: string)
    requires sid in st.sessions
  {
    && (key in st.sessions[sid].handled || InInbox(env, st, sid, key) || InSnapshot(env, st, sid, key))
    && (sid, key) !in st.skipped
  }

  /** Messages leave an inbox by being handled only. */
  lemma InboxStays(env: Env, st: State, step: Step, sid: SessionId, p: Payload)
    requires Enabled(st, step) && sid in st.sessions && p in st.sessions[sid].inbox
    ensures var st' := Apply(env, st, step);
            sid in st'.sessions && (p in st'.sessions[sid].inbox || BlacklistKey(p) in st'.sessions[sid].handled)
  {
    if step.Receive? && step.sid == sid {
      var inbox := st.sessions[sid].inbox;
      assert inbox == [inbox[0]] + inbox[1..];
    }
  }

  /** Payloads leave the snapshot of a session that stays open for its inbox only. */
  lemma SnapshotStays(env: Env, st: State, step: Step, sid: SessionId, p: Payload)
    requires Enabled(st, step) && sid in st.sessions
    requires st.sessions[sid].task.Syncing? && p in st.sessions[sid].task.snapshot
    ensures var st' := Apply(env, st, step);
            && sid in st'.sessions
            && (st'.sessions[sid].open ==>
                  || p in st'.sessions[sid].inbox
                  || (st'.sessions[sid].task.Syncing? && p in st'.sessions[sid].task.snapshot))
  {
    if step.SyncSend? && step.sid == sid {
      var snapshot := st.sessions[sid].task.snapshot;
      assert snapshot == [snapshot[0]] + snapshot[1..];
    }
  }

  lemma StaysUnskipped(env: Env, st: State, step: Step, sid: SessionId, key: string)
    requires Sane(env, st) && Enabled(st, step) && sid in st.sessions && st.sessions[sid].open
    requires Promised(env, st, sid, key)
    ensures (sid, key) !in Apply(env, st, step).skipped
  {
    assert SessionProper(st, st.sessions[sid]);
  }

  lemma HandledStays(env: Env, st: State, step: Step, sid: SessionId)
    requires Enabled(st, step) && sid in st.sessions
    ensures var st' := Apply(env, st, step); sid in st'.sessions && st.sessions[sid].handled <= st'.sessions[sid].handled
  {
  }

  lemma StepKeepsPromise(env: Env, st: State, step: Step, sid: SessionId, key: string)
    requires Sane(env, st) && Enabled(st, step) && sid in st.sessions && Promised(env, st, sid, key)
    ensures var st' := Apply(env, st, step);
            sid in st'.sessions && (st'.sessions[sid].open ==> Promised(env, st', sid, key))
  {
    SessionsStay(env, st, step);
    HandledStays(env, st, step, sid);
    if Apply(env, st, step).sessions[sid].open {
      var s := st.sessions[sid];
      StaysUnskipped(env, st, step, sid, key);
      assert SessionProper(st, s);
      if p :| p in s.inbox && env.KeyOf(p) == key {
        InboxStays(env, st, step, sid, p);
      } else if s.task.Syncing? && key !in s.handled {
        var p :| p in s.task.snapshot && env.KeyOf(p) == key;
        SnapshotStays(env, st, step, sid, p);
      }
    }
  }

  lemma {:induction false} RunKeepsPromise(env: Env, st: State, steps: seq<Step>, sid: SessionId, key: string)
    requires Inv(env, st) && Runs(env, st, steps) && sid in st.sessions
    requires st.sessions[sid].open ==> Promised(env, st, sid, key)
    ensures var end := After(env, st, steps);
            && sid in end.sessions && end.sessions[sid].node == st.sessions[sid].node
            && (end.sessions[sid].open ==> Promised(env, end, sid, key))
    decreases |steps|
  {
    if steps != [] {
      SessionsStay(env, st, steps[0]);
      StepKeepsInv(env, st, steps[0]);
      if st.sessions[sid].open {
        StepKeepsPromise(env, st, steps[0], sid, key);
      }
      RunKeepsPromise(env, Apply(env, st, steps[0]), steps[1..], sid, key);
    }
  }

  /** Whatever was remembered at a join has reached the running process once that session's replay and inbox are
      through: no exception for break-offs, restarts and reconnects before or after, or for what was evicted or
      dispatched meanwhile. In particular no broadcast is on record as having skipped the session for it. */
  lemma ReplayServesAll(env: Env, steps: seq<Step>, sid: SessionId, node: NodeId, later: seq<Step>, e: Entry)
    requires Runs(env, INITIAL, steps) && Enabled(After(env, INITIAL, steps), Join(sid, node))
    requires e in After(env, INITIAL, steps).known
    requires var joined := Apply(env, After(env, INITIAL, steps), Join(sid, node));
             Runs(env, joined, later) && sid in After(env, joined, later).sessions
    requires var end := After(env, Apply(env, After(env, INITIAL, steps), Join(sid, node)), later);
             end.sessions[sid].open && !end.sessions[sid].task.Syncing? && end.sessions[sid].inbox == []
    ensures var end := After(env, Apply(env, After(env, INITIAL, steps), Join(sid, node)), later);
            && e.key in end.sessions[sid].handled && e.key in Blacklist(end, node)
            && (sid, e.key) !in end.skipped
  {
    var before := After(env, INITIAL, steps);
    var joined := Apply(env, before, Join(sid, node));
    RunKeepsInv(env, INITIAL, steps);
    SkippedWerePublished(env, INITIAL, steps);
    JoinKeeps(env, before, sid, node);
    PayloadsOf(before.known, e.payload);
    assert InSnapshot(env, joined, sid, e.key);
    RunKeepsPromise(env, joined, later, sid, e.key);
    RunKeepsInv(env, joined, later);
    assert SessionProper(After(env, joined, later), After(env, joined, later).sessions[sid]);
  }

  /** What a broken-off broadcast costs, exactly: a node loses track of a key when this broadcast alone
      still had it for that node. */
  lemma BreakOffCost(env: Env, st: State, sid: SessionId, node: NodeId, key: string)
    requires Inv(env, st) && Enabled(st, FanSend(sid)) && BreaksOff(st, FanSend(sid))
    requires node in st.connections && st.connections[node] != sid
    requires Accounted(env, st, node, st.connections[node], key)
    ensures st.connections[node] in Apply(env, st, FanSend(sid)).sessions
    ensures Accounted(env, Apply(env, st, FanSend(sid)), node, st.connections[node], key) <==>
            || key in Blacklist(st, node)
            || InInbox(env, st, st.connections[node], key)
            || InSnapshot(env, st, st.connections[node], key)
            || exists f :: f in st.sessions && f != sid && FansTo(env, st.sessions[f], node, key)
  {
    var st', own := Apply(env, st, FanSend(sid)), st.connections[node];
    assert InSnapshot(env, st, own, key) <==> InSnapshot(env, st', own, key);
    assert InInbox(env, st, own, key) <==> InInbox(env, st', own, key);
    forall f | f in st.sessions
      ensures FansTo(env, st'.sessions[f], node, key) <==> f != sid && FansTo(env, st.sessions[f], node, key)
    {
    }
    assert Pending(env, st', node, key) <==>
           exists f :: f in st.sessions && f != sid && FansTo(env, st.sessions[f], node, key) by {
      if f :| f in st.sessions && f != sid && FansTo(env, st.sessions[f], node, key) {
        assert FansTo(env, st'.sessions[f], node, key);
      }
    }
  }

  // ---------------------------------------------------------------------------
  // What a restart can cost
  // ---------------------------------------------------------------------------

  /** A dispatch brings its antigen to every connected node, except that it counts on the sender to have it: a node
      of the sender's name is served if and only if it already was, and put on record as skipped if not. */
  lemma DispatchServesIff(env: Env, st: State, sid: SessionId, targets: seq<NodeId>, node: NodeId)
    requires Inv(env, st) && Enabled(st, Dispatch(sid, targets)) && node in st.connections
    ensures var st', key := Apply(env, st, Dispatch(sid, targets)), env.KeyOf(st.sessions[sid].outbox[0]);
            && st.connections[node] in st'.sessions
            && (Accounted(env, st', node, st.connections[node], key) <==>
                node != st.sessions[sid].node || Accounted(env, st, node, st.connections[node], key))
            && ((st.connections[node], key) in Skips(env, st, st.sessions[sid].node, key) <==>
                !Accounted(env, st', node, st.connections[node], key))
  {
    var st', own := Apply(env, st, Dispatch(sid, targets)), st.connections[node];
    var key := env.KeyOf(st.sessions[sid].outbox[0]);
    assert InInbox(env, st, own, key) <==> InInbox(env, st', own, key);
    assert InSnapshot(env, st, own, key) <==> InSnapshot(env, st', own, key);
    DispatchPends(env, st, sid, targets, node);
  }

  lemma DispatchPends(env: Env, st: State, sid: SessionId, targets: seq<NodeId>, node: NodeId)
    requires Enabled(st, Dispatch(sid, targets)) && node in st.connections
    ensures var key := env.KeyOf(st.sessions[sid].outbox[0]);
            Pending(env, Apply(env, st, Dispatch(sid, targets)), node, key) <==>
            Pending(env, st, node, key) || node != st.sessions[sid].node
  {
    var st', key := Apply(env, st, Dispatch(sid, targets)), env.KeyOf(st.sessions[sid].outbox[0]);
    forall f | f in st.sessions
      ensures FansTo(env, st'.sessions[f], node, key) <==>
              FansTo(env, st.sessions[f], node, key) || (f == sid && node != st.sessions[sid].node)
    {
      assert f == sid ==> (node in targets <==> node != st.sessions[sid].node);
    }
    if f :| f in st.sessions && FansTo(env, st.sessions[f], node, key) {
      assert FansTo(env, st'.sessions[f], node, key);
    }
    if node != st.sessions[sid].node {
      assert FansTo(env, st'.sessions[sid], node, key);
    }
  }

  /** A node dies with an antigen of its own still queued at the relay, restarts and joins again, and the relay
      takes the antigen up: the new process is served if and only if the relay remembered the antigen before, or
      another broadcast was bringing it to the node. */
  lemma RestartServedIff(env: Env, st: State, dead: SessionId, sid: SessionId, targets: seq<NodeId>)
    requires Inv(env, st) && dead in st.sessions && st.sessions[dead].task.Idle? && st.sessions[dead].outbox != []
    requires var node := st.sessions[dead].node; Enabled(st, Restart(node)) && sid !in st.sessions
    requires var rejoined := Rejoined(env, st, st.sessions[dead].node, sid); Enabled(rejoined, Dispatch(dead, targets))
    ensures var s, rejoined := st.sessions[dead], Rejoined(env, st, st.sessions[dead].node, sid);
            var st', key := Apply(env, rejoined, Dispatch(dead, targets)), env.KeyOf(s.outbox[0]);
            && sid in st'.sessions && st'.connections[s.node] == sid
            && (env.max > 0 ==> Entry(key, s.outbox[0]) in st'.known)
            && (Accounted(env, st', s.node, sid, key) <==>
                (exists e :: e in st.known && e.key == key) || Pending(env, st, s.node, key))
  {
    var node := st.sessions[dead].node;
    var restarted := Apply(env, st, Restart(node));
    var rejoined := Rejoined(env, st, node, sid);
    var p := st.sessions[dead].outbox[0];
    RestartKeeps(env, st, node);
    JoinKeeps(env, restarted, sid, node);
    DispatchServesIff(env, rejoined, dead, targets, node);
    NewcomerAccounted(env, restarted, sid, node, env.KeyOf(p));
    assert Pending(env, restarted, node, env.KeyOf(p)) <==> Pending(env, st, node, env.KeyOf(p));
    NewestIsKept(env.max, st.known, Entry(env.KeyOf(p), p));
  }

  function Rejoined(env: Env, st: State, node: NodeId, sid: SessionId): State
    requires Enabled(st, Restart(node)) && sid !in st.sessions
  {
    Apply(env, Apply(env, st, Restart(node)), Join(sid, node))
  }

  lemma NewestIsKept(max: nat, store: Store, entry: Entry)
    ensures max > 0 ==> entry in Remember(max, store, entry)
  {
    var all := Without(store, entry.key) + [entry];
    assert all[|all| - 1] == entry;
    assert max > 0 ==> Remember(max, store, entry)[|Remember(max, store, entry)| - 1] == entry;
  }

  /** A newcomer with an empty agent will get exactly what is remembered, and what is already on its way. */
  lemma NewcomerAccounted(env: Env, st: State, sid: SessionId, node: NodeId, key: string)
    requires Sane(env, st) && Enabled(st, Join(sid, node)) && Blacklist(st, node) == {}
    ensures Accounted(env, Apply(env, st, Join(sid, node)), node, sid, key) <==>
            (exists e :: e in st.known && e.key == key) || Pending(env, st, node, key)
  {
    var st' := Apply(env, st, Join(sid, node));
    if e :| e in st.known && e.key == key {
      PayloadsOf(st.known, e.payload);
      assert InSnapshot(env, st', sid, key);
    }
    if InSnapshot(env, st', sid, key) {
      var p :| p in st'.sessions[sid].task.snapshot && env.KeyOf(p) == key;
      PayloadsOf(st.known, p);
    }
    if f :| f in st.sessions && FansTo(env, st.sessions[f], node, key) {
      assert FansTo(env, st'.sessions[f], node, key);
    }
    if f :| f in st'.sessions && FansTo(env, st'.sessions[f], node, key) {
      assert FansTo(env, st.sessions[f], node, key);
    }
  }

  function DeadWithMail(p: Payload): State {
    State(map["A" := 0], [], map[0 := Session("A", false, Idle, [], [p], {})], map["A" := {BlacklistKey(p)}],
          {("A", BlacklistKey(p))}, {}, {})
  }

  lemma DiesWithMail(env: Env, p: Payload)
    requires p.Proper()
    ensures RunsTo(env, INITIAL, [Join(0, "A"), Learn("A", p), Publish(0, p), Close(0)], DeadWithMail(p))
  {
    assert Payloads([]) == [];
    var a := Apply(env, INITIAL, Join(0, "A"));
    var b := Apply(env, a, Learn("A", p));
    assert Blacklist(a, "A") + {BlacklistKey(p)} == {BlacklistKey(p)};
    var c := Apply(env, b, Publish(0, p));
    assert c.sessions[0] == Session("A", true, Idle, [], [p], {});
    assert Apply(env, c, Close(0)) == DeadWithMail(p);
    RunOfThree(env, INITIAL, Join(0, "A"), Learn("A", p), Publish(0, p));
    RunOfOne(env, c, Close(0));
    RunsCompose(env, INITIAL, [Join(0, "A"), Learn("A", p), Publish(0, p)], c, [Close(0)], DeadWithMail(p));
    assert [Join(0, "A"), Learn("A", p), Publish(0, p)] + [Close(0)]
        == [Join(0, "A"), Learn("A", p), Publish(0, p), Close(0)];
  }

  /** The simplest input: one node publishes, dies before the relay reads it, and comes back. */
  lemma RestartStarves(env: Env, p: Payload) returns (steps: seq<Step>)
    requires env.max > 0 && p.Proper()
    ensures Runs(env, INITIAL, steps) && CutAtAwaits(env, INITIAL, steps)
    ensures NeverBreaksOff(env, INITIAL, steps)
    ensures Starved(env, After(env, INITIAL, steps), "A", p)
  {
    var life := [Join(0, "A"), Learn("A", p), Publish(0, p), Close(0)];
    var comeback := [Restart("A"), Join(1, "A"), Dispatch(0, [])];
    DiesWithMail(env, p);
    var end := ComesBackEmpty(env, p);
    RunsCompose(env, INITIAL, life, DeadWithMail(p), comeback, end);
    steps := life + comeback;
    NoFanNoBreak(env, INITIAL, steps);
  }

  lemma ComesBackEmpty(env: Env, p: Payload) returns (end: State)
    requires env.max > 0 && p.Proper()
    ensures RunsTo(env, DeadWithMail(p), [Restart("A"), Join(1, "A"), Dispatch(0, [])], end)
    ensures Starved(env, end, "A", p)
  {
    var a := Apply(env, DeadWithMail(p), Restart("A"));
    assert Payloads([]) == [];
    var b := Apply(env, a, Join(1, "A"));
    assert IsTargetList([], b.connections, "A");
    end := Apply(env, b, Dispatch(0, []));
    RunOfThree(env, DeadWithMail(p), Restart("A"), Join(1, "A"), Dispatch(0, []));
    OnlyEntry(env.max, Entry(env.KeyOf(p), p));
  }

  lemma {:induction false} NoFanNoBreak(env: Env, st: State, steps: seq<Step>)
    requires Runs(env, st, steps) && forall step :: step in steps ==> !step.FanSend?
    ensures NeverBreaksOff(env, st, steps)
    decreases |steps|
  {
    if steps != [] {
      assert steps[0] in steps && forall step :: step in steps[1..] ==> step in steps;
      NoFanNoBreak(env, Apply(env, st, steps[0]), steps[1..]);
    }
  }

  // ---------------------------------------------------------------------------
  // What a broken-off broadcast can cost
  // ---------------------------------------------------------------------------

  // Four nodes join and A reports a finding. While the send to B is awaited, C leaves before its turn, and D is
  // never served.

  function Waiting(node: NodeId): Session {
    Session(node, true, Idle, [], [], {})
  }

  function FourJoined(): State {
    State(map["A" := 0, "B" := 1, "C" := 2, "D" := 3], [],
          map[0 := Waiting("A"), 1 := Waiting("B"), 2 := Waiting("C"), 3 := Waiting("D")], map[], {}, {}, {})
  }

  function Broadcasting(env: Env, p: Payload, targets: seq<NodeId>, b: Session): State {
    var st := FourJoined();
    st.(known := [Entry(env.KeyOf(p), p)], blacklists := map["A" := {BlacklistKey(p)}],
        published := {("A", BlacklistKey(p))},
        sessions := st.sessions[0 := Session("A", true, Fanning(p, targets), [], [], {})][1 := b])
  }

  /** The relay awaits its send to B. */
  function SendingToB(env: Env, p: Payload): State {
    Broadcasting(env, p, ["C", "D"], Waiting("B").(inbox := [p]))
  }

  lemma FourJoin(env: Env)
    ensures RunsTo(env, INITIAL, [Join(0, "A"), Join(1, "B"), Join(2, "C")] + [Join(3, "D")], FourJoined())
  {
    assert Payloads([]) == [];
    var a := Apply(env, INITIAL, Join(0, "A"));
    var b := Apply(env, a, Join(1, "B"));
    var c := Apply(env, b, Join(2, "C"));
    assert Apply(env, c, Join(3, "D")) == FourJoined();
    RunOfThree(env, INITIAL, Join(0, "A"), Join(1, "B"), Join(2, "C"));
    RunOfOne(env, c, Join(3, "D"));
    RunsCompose(env, INITIAL, [Join(0, "A"), Join(1, "B"), Join(2, "C")], c, [Join(3, "D")], FourJoined());
  }

  /** A's finding, published and not yet read by the relay. */
  function FindingSent(p: Payload): State {
    var st := FourJoined();
    st.(blacklists := map["A" := {BlacklistKey(p)}], published := {("A", BlacklistKey(p))},
        sessions := st.sessions[0 := Session("A", true, Idle, [], [p], {})])
  }

  lemma FindingIsSent(env: Env, p: Payload)
    requires p.Proper()
    ensures RunsTo(env, FourJoined(), [Learn("A", p)] + [Publish(0, p)], FindingSent(p))
  {
    var st := FourJoined();
    var a := Apply(env, st, Learn("A", p));
    assert Blacklist(st, "A") + {BlacklistKey(p)} == {BlacklistKey(p)};
    assert a.blacklists == map["A" := {BlacklistKey(p)}];
    var b := Apply(env, a, Publish(0, p));
    assert b.sessions[0] == FindingSent(p).sessions[0];
    assert b.sessions == FindingSent(p).sessions;
    RunOfOne(env, st, Learn("A", p));
    RunOfOne(env, a, Publish(0, p));
    RunsCompose(env, st, [Learn("A", p)], a, [Publish(0, p)], FindingSent(p));
  }

  lemma FindingIsTaken(env: Env, p: Payload)
    requires env.max > 0 && p.Proper()
    ensures var st, step := FindingSent(p), Dispatch(0, ["B", "C", "D"]);
            Enabled(st, step) && Apply(env, st, step) == Broadcasting(env, p, step.targets, Waiting("B"))
  {
    var st, targets := FindingSent(p), ["B", "C", "D"];
    var key := env.KeyOf(p);
    assert [p][1..] == [];
    assert IsTargetList(targets, st.connections, "A");
    OnlyEntry(env.max, Entry(key, p));
    assert st.sessions[0].outbox[0] == p && Accounted(env, st, "A", 0, key) && Skips(env, st, "A", key) == {};
    var taken := Apply(env, st, Dispatch(0, targets));
    assert taken.sessions[0] == Session("A", true, Fanning(p, targets), [], [], {});
    assert taken.sessions == Broadcasting(env, p, targets, Waiting("B")).sessions;
  }

  lemma OnlyEntry(max: nat, entry: Entry)
    requires max > 0
    ensures Remember(max, [], entry) == [entry]
  {
  }

  lemma SendToBBegins(env: Env, p: Payload)
    requires p.Proper()
    ensures var st := Broadcasting(env, p, ["B", "C", "D"], Waiting("B"));
            Enabled(st, FanSend(0)) && Apply(env, st, FanSend(0)) == SendingToB(env, p)
  {
    var st := Broadcasting(env, p, ["B", "C", "D"], Waiting("B"));
    SendShape(st, 1, p);
    assert ["B", "C", "D"][1..] == ["C", "D"] && [] + [p] == [p];
    var sent := Apply(env, st, FanSend(0));
    assert sent.sessions[0] == SendingToB(env, p).sessions[0];
    assert sent.sessions[1] == SendingToB(env, p).sessions[1];
    assert sent.sessions == SendingToB(env, p).sessions;
  }

  lemma BroadcastBegins(env: Env, p: Payload)
    requires env.max > 0 && p.Proper()
    ensures RunsTo(env, FindingSent(p), [Dispatch(0, ["B", "C", "D"]), FanSend(0)], SendingToB(env, p))
  {
    FindingIsTaken(env, p);
    SendToBBegins(env, p);
    RunOfOpening(env, FindingSent(p), Dispatch(0, ["B", "C", "D"]));
  }

  function WithoutC(env: Env, p: Payload): State {
    var st := SendingToB(env, p);
    st.(connections := map["A" := 0, "B" := 1, "D" := 3],
        sessions := st.sessions[2 := Session("C", false, Done, [], [], {})])
  }

  lemma CLeaves(env: Env, p: Payload)
    ensures RunsTo(env, SendingToB(env, p), [Close(2)] + [Leave(2)], WithoutC(env, p))
  {
    var st := SendingToB(env, p);
    var a := Apply(env, st, Close(2));
    var b := Apply(env, a, Leave(2));
    assert b.sessions == WithoutC(env, p).sessions;
    assert b.connections == WithoutC(env, p).connections;
    RunOfOne(env, st, Close(2));
    RunOfOne(env, a, Leave(2));
    RunsCompose(env, st, [Close(2)], a, [Leave(2)], b);
  }

  lemma DepartureStarves(env: Env, p: Payload) returns (end: State)
    requires p.Proper()
    ensures RunsTo(env, WithoutC(env, p), [FanSend(0)], end)
    ensures Starved(env, end, "D", p)
  {
    var st := WithoutC(env, p);
    end := Apply(env, st, FanSend(0));
    RunOfOne(env, st, FanSend(0));
    assert end.connections == map["B" := 1, "D" := 3];
    assert end.sessions[3] == Waiting("D") && end.sessions[0].task == Done;
  }

  /** Nothing is on its way to a live node, yet it lacks a remembered key. */
  ghost predicate Starved(env: Env, st: State, node: NodeId, p: Payload) {
    && Settled(st, node) && Entry(env.KeyOf(p), p) in st.known && st.sessions[st.connections[node]].open
    && env.KeyOf(p) !in Blacklist(st, node)
  }

  lemma BreakOffStarves(env: Env, p: Payload) returns (steps: seq<Step>)
    requires env.max > 0 && p.Proper()
    ensures Runs(env, INITIAL, steps) && CutAtAwaits(env, INITIAL, steps)
    ensures Starved(env, After(env, INITIAL, steps), "D", p)
  {
    var joins := [Join(0, "A"), Join(1, "B"), Join(2, "C")] + [Join(3, "D")];
    var finding := [Learn("A", p)] + [Publish(0, p)];
    var broadcast := [Dispatch(0, ["B", "C", "D"]), FanSend(0)];
    var departure := [Close(2)] + [Leave(2)];
    FourJoin(env);
    FindingIsSent(env, p);
    BroadcastBegins(env, p);
    CLeaves(env, p);
    var end := DepartureStarves(env, p);
    RunsCompose(env, INITIAL, joins, FourJoined(), finding, FindingSent(p));
    RunsCompose(env, INITIAL, joins + finding, FindingSent(p), broadcast, SendingToB(env, p));
    RunsCompose(env, INITIAL, joins + finding + broadcast, SendingToB(env, p), departure, WithoutC(env, p));
    RunsCompose(env, INITIAL, joins + finding + broadcast + departure, WithoutC(env, p), [FanSend(0)], end);
    steps := joins + finding + broadcast + departure + [FanSend(0)];
  }

  /** A run of the code from one state to another. */
  ghost predicate RunsTo(env: Env, st: State, steps: seq<Step>, end: State) {
    Runs(env, st, steps) && CutAtAwaits(env, st, steps) && After(env, st, steps) == end
  }

  lemma RunOfThree(env: Env, st: State, x: Step, y: Step, z: Step)
    requires Enabled(st, x) && !Opens(st, x)
    requires Enabled(Apply(env, st, x), y) && !Opens(Apply(env, st, x), y)
    requires var s2 := Apply(env, Apply(env, st, x), y); Enabled(s2, z) && !Opens(s2, z)
    ensures RunsTo(env, st, [x, y, z], Apply(env, Apply(env, Apply(env, st, x), y), z))
  {
    var s1 := Apply(env, st, x);
    var s2 := Apply(env, s1, y);
    RunOfOne(env, st, x);
    RunOfOne(env, s1, y);
    RunOfOne(env, s2, z);
    RunsCompose(env, st, [x], s1, [y], s2);
    RunsCompose(env, st, [x] + [y], s2, [z], Apply(env, s2, z));
    assert [x] + [y] + [z] == [x, y, z];
  }

  lemma RunOfOne(env: Env, st: State, x: Step)
    requires Enabled(st, x) && !Opens(st, x)
    ensures RunsTo(env, st, [x], Apply(env, st, x))
  {
    assert [x][1..] == [];
  }

  lemma RunOfOpening(env: Env, st: State, x: Step)
    requires Enabled(st, x) && Opens(st, x) && Enabled(Apply(env, st, x), FirstSend(x))
    ensures RunsTo(env, st, [x, FirstSend(x)], Apply(env, Apply(env, st, x), FirstSend(x)))
  {
    assert [x, FirstSend(x)][1..] == [FirstSend(x)];
    RunOfOne(env, Apply(env, st, x), FirstSend(x));
  }

  lemma {:induction false} RunsCompose(env: Env, st: State, xs: seq<Step>, mid: State, ys: seq<Step>, end: State)
    requires RunsTo(env, st, xs, mid) && RunsTo(env, mid, ys, end)
    ensures RunsTo(env, st, xs + ys, end)
    decreases |xs|
  {
    if xs == [] {
      assert xs + ys == ys;
    } else {
      assert (xs + ys)[1..] == xs[1..] + ys;
      RunsCompose(env, Apply(env, st, xs[0]), xs[1..], mid, ys, end);
    }
  }

  /** A node's connection is replaced by its own next join, or removed by the handler of that very session;
      the late cleanup of an older session never touches it. */
  lemma OnlyItsOwnHandlerDisconnects(env: Env, st: State, step: Step, node: NodeId)
    requires Enabled(st, step) && node in st.connections
    ensures var after := Apply(env, st, step).connections;
            || (node in after && after[node] == st.connections[node])
            || (step.Join? && step.node == node)
            || ((step.Leave? || (step.FanSend? && BreaksOff(st, step)))
                && step.sid == st.connections[node] && st.sessions[step.sid].node == node)
  {
  }
}
