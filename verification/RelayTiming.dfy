/** What every run under the clock keeps: whose stamp is whose, what a sweep read, and that a
    new incarnation is born only after a sweep removed the one before. */
module RelayTiming {
  import opened Bounded
  import Windows
  import S = ServerState
  import opened Relay
  import opened RelayClock

  /** The stamp of incarnation `k` after `writes`, if it was `birth` at first. */
  function LastWrite(writes: seq<Write>, k: nat, birth: nat): int {
    if writes == [] then birth
    else
      var w := writes[|writes| - 1];
      if w.k == k then w.at else LastWrite(writes[..|writes| - 1], k, birth)
  }

  ghost predicate StampsAreWrites(heap: seq<S.TargetSession>, born: seq<nat>, writes: seq<Write>) {
    |born| == |heap| && forall k | 0 <= k < |heap| :: heap[k].lastActivity == LastWrite(writes, k, born[k])
  }

  /** A sweep with this clock read the stamp of incarnation `k`, after so many writes, and found
      it idle for longer than the timeout. */
  predicate ReadIdle(cfg: Config, born: seq<nat>, writes: seq<Write>, k: nat, clock: nat, r: Reading) {
    && k < |born| && clock - r.seen > cfg.timeout
    && r.before <= |writes| && r.seen == LastWrite(writes[..r.before], k, born[k])
  }

  ghost predicate RemovalsOk(cfg: Config, removals: seq<Removal>, born: seq<nat>, writes: seq<Write>, now: nat) {
    forall r <- removals :: r.clock <= now && ReadIdle(cfg, born, writes, r.k, r.clock, r.reading)
  }

  ghost predicate ExpiredOk(cfg: Config, expired: map<U64, Reading>, sessions: map<U64, nat>, clock: nat,
                            born: seq<nat>, writes: seq<Write>)
  {
    forall id <- expired :: id in sessions && ReadIdle(cfg, born, writes, sessions[id], clock, expired[id])
  }

  ghost predicate SweeperOk(cfg: Config, sweeper: Sweeper, sessions: map<U64, nat>, born: seq<nat>, writes: seq<Write>,
                            now: nat)
  {
    match sweeper
    case Idle => true
    case Waiting(clock) => clock <= now
    case Sweeping(clock, _, expired) => clock <= now && ExpiredOk(cfg, expired, sessions, clock, born, writes)
    case Unlisting(clock, _, expired, _) => clock <= now && ExpiredOk(cfg, expired, sessions, clock, born, writes)
  }

  ghost predicate RemovedBefore(removals: seq<Removal>, k: nat, time: nat) {
    exists r :: r in removals && r.k == k && r.clock <= time
  }

  predicate IsLive(heap: seq<S.TargetSession>, sessions: map<U64, nat>, k: nat)
    requires k < |heap|
  {
    heap[k].id in sessions && sessions[heap[k].id] == k
  }

  /** An incarnation is live or was removed, and those of one id follow each other. */
  ghost predicate TablesOk(heap: seq<S.TargetSession>, sessions: map<U64, nat>, removals: seq<Removal>,
                           born: seq<nat>, now: nat)
  {
    && |born| == |heap| && (forall k | 0 <= k < |born| :: born[k] <= now)
    && (forall id <- sessions :: sessions[id] < |heap| && heap[sessions[id]].id == id)
    && (forall k: nat | k < |heap| :: IsLive(heap, sessions, k) || RemovedBefore(removals, k, now))
    && (forall k: nat, l: nat | k < l < |heap| && heap[k].id == heap[l].id :: RemovedBefore(removals, k, born[l]))
  }

  ghost predicate TasksOk(tasks: map<nat, ServerTask>, clocks: map<nat, nat>, written: map<nat, nat>,
                          writes: seq<Write>, born: seq<nat>, now: nat)
  {
    && (forall t <- clocks ::
          && t in tasks && tasks[t].Held? && tasks[t].k < |born|
          && born[tasks[t].k] <= clocks[t] <= now)
    && (forall t <- written ::
          && t in clocks && written[t] < |writes|
          && t in tasks && tasks[t].Held? && writes[written[t]] == Write(tasks[t].k, clocks[t]))
  }

  predicate StampOk(c: Check, st: Stamp, writes: seq<Write>, born: seq<nat>, now: nat) {
    && c.k < |born| && born[c.k] <= st.at <= now
    && st.write < |writes| && writes[st.write] == Write(c.k, st.at)
  }

  ghost predicate StampsOk(checks: seq<Check>, stamps: seq<Stamp>, writes: seq<Write>, born: seq<nat>, now: nat) {
    |stamps| == |checks| && forall i | 0 <= i < |checks| :: StampOk(checks[i], stamps[i], writes, born, now)
  }

  ghost predicate TimedOk(cfg: Config, s: Timed) {
    && StampsAreWrites(s.relay.srv.heap, s.born, s.writes) && (forall w <- s.writes :: w.k < |s.born|)
    && RemovalsOk(cfg, s.removals, s.born, s.writes, s.now)
    && SweeperOk(cfg, s.sweeper, s.relay.srv.sessions, s.born, s.writes, s.now)
    && TablesOk(s.relay.srv.heap, s.relay.srv.sessions, s.removals, s.born, s.now)
    && TasksOk(s.relay.serverTasks, s.clocks, s.written, s.writes, s.born, s.now)
    && StampsOk(s.relay.checks, s.stamps, s.writes, s.born, s.now)
  }

  // ------------------------------------------------ growth of the histories

  lemma {:induction false} WritesOfOthers(writes: seq<Write>, w: Write, k: nat, birth: nat)
    ensures LastWrite(writes + [w], k, birth) == if w.k == k then w.at else LastWrite(writes, k, birth)
  {
    assert (writes + [w])[..|writes|] == writes;
  }

  /** What a sweep read stays true when more is written, born, and time goes on. */
  lemma ReadIdleStays(cfg: Config, born: seq<nat>, born': seq<nat>, writes: seq<Write>, writes': seq<Write>,
                      k: nat, clock: nat, r: Reading)
    requires ReadIdle(cfg, born, writes, k, clock, r) && born <= born' && writes <= writes'
    ensures ReadIdle(cfg, born', writes', k, clock, r)
  {
    assert writes'[..r.before] == writes[..r.before];
  }

  lemma HistoriesGrow(cfg: Config, s: Timed, born': seq<nat>, writes': seq<Write>, now': nat)
    requires TimedOk(cfg, s) && s.born <= born' && s.writes <= writes' && s.now <= now'
    ensures RemovalsOk(cfg, s.removals, born', writes', now')
    ensures SweeperOk(cfg, s.sweeper, s.relay.srv.sessions, born', writes', now')
    ensures TasksOk(s.relay.serverTasks, s.clocks, s.written, writes', born', now')
    ensures StampsOk(s.relay.checks, s.stamps, writes', born', now')
  {
    forall k: nat, clock: nat, r: Reading | ReadIdle(cfg, s.born, s.writes, k, clock, r)
      ensures ReadIdle(cfg, born', writes', k, clock, r)
    {
      ReadIdleStays(cfg, s.born, born', s.writes, writes', k, clock, r);
    }
  }

  lemma TablesStay(heap: seq<S.TargetSession>, sessions: map<U64, nat>, removals: seq<Removal>,
                   born: seq<nat>, now: nat, now': nat)
    requires TablesOk(heap, sessions, removals, born, now) && now <= now'
    ensures TablesOk(heap, sessions, removals, born, now')
  {
    forall k: nat | k < |heap| && RemovedBefore(removals, k, now) ensures RemovedBefore(removals, k, now') {
      var r :| r in removals && r.k == k && r.clock <= now;
    }
  }

  // ------------------------------------------------------ steps of the relay

  /** Ids and stamps stay; windows and response numbers may change. */
  ghost predicate SameStamps(a: seq<S.TargetSession>, b: seq<S.TargetSession>) {
    |a| == |b| && forall k | 0 <= k < |a| :: b[k].id == a[k].id && b[k].lastActivity == a[k].lastActivity
  }

  ghost predicate OthersStay(a: map<nat, ServerTask>, b: map<nat, ServerTask>, t: nat) {
    forall u | u != t :: (u in b <==> u in a) && (u in a ==> b[u] == a[u])
  }

  lemma PacketTasks(window: nat, s: State, t: nat, step: PacketStep)
    requires PacketEnabled(s, t, step)
    ensures var s' := PacketApply(window, s, t, step);
            OthersStay(s.serverTasks, s'.serverTasks, t)
  {
    match step
    case ServerHearsUdp(_, _, _) =>
    case ServerHearsTcp(_) =>
    case ReadSessions =>
    case WriteSessions(_, _) =>
    case CheckPacket =>
    case NoteConn =>
    case AddPath =>
    case ForwardPacket =>
  }

  lemma PacketStamps(window: nat, s: State, t: nat, step: PacketStep)
    requires PacketEnabled(s, t, step) && !step.WriteSessions?
    ensures var s' := PacketApply(window, s, t, step);
            SameStamps(s.srv.heap, s'.srv.heap) && s'.srv.sessions == s.srv.sessions
  {
    match step
    case ServerHearsUdp(_, _, _) =>
    case ServerHearsTcp(_) =>
    case ReadSessions =>
    case CheckPacket =>
    case NoteConn =>
    case AddPath =>
    case ForwardPacket =>
  }

  lemma PacketChecks(window: nat, s: State, t: nat, step: PacketStep)
    requires PacketEnabled(s, t, step)
    ensures var s' := PacketApply(window, s, t, step);
            if step.CheckPacket? then
              |s'.checks| == |s.checks| + 1 && s'.checks[..|s.checks|] == s.checks &&
              s'.checks[|s.checks|].k == s.serverTasks[t].k
            else
              s'.checks == s.checks
  {
    match step
    case ServerHearsUdp(_, _, _) =>
    case ServerHearsTcp(_) =>
    case ReadSessions =>
    case WriteSessions(_, _) =>
    case CheckPacket =>
    case NoteConn =>
    case AddPath =>
    case ForwardPacket =>
  }

  lemma AnswerStays(s: State, t: nat, step: AnswerStep)
    requires AnswerEnabled(s, t, step)
    ensures var s' := AnswerApply(s, t, step);
            SameStamps(s.srv.heap, s'.srv.heap) && OthersStay(s.serverTasks, s'.serverTasks, t)
  {
    match step
    case TargetDatagram(_, _) =>
    case DrawNumber =>
    case Snapshot =>
    case SendCopy(_) =>
    case CloseConn(_) =>
    case UnlinkConn =>
    case ServerDrops =>
  }

  lemma SameStampsKeep(heap: seq<S.TargetSession>, heap': seq<S.TargetSession>, sessions: map<U64, nat>,
                       removals: seq<Removal>, born: seq<nat>, writes: seq<Write>, now: nat)
    requires SameStamps(heap, heap')
    requires StampsAreWrites(heap, born, writes) && TablesOk(heap, sessions, removals, born, now)
    ensures StampsAreWrites(heap', born, writes) && TablesOk(heap', sessions, removals, born, now)
  {
    forall k: nat | k < |heap'| ensures IsLive(heap', sessions, k) || RemovedBefore(removals, k, now) {
      assert IsLive(heap, sessions, k) || RemovedBefore(removals, k, now);
    }
  }

  lemma OthersStayOk(a: map<nat, ServerTask>, b: map<nat, ServerTask>, t: nat, clocks: map<nat, nat>,
                     written: map<nat, nat>, writes: seq<Write>, born: seq<nat>, now: nat)
    requires TasksOk(a, clocks, written, writes, born, now) && OthersStay(a, b, t)
    ensures TasksOk(b, clocks - {t}, written - {t}, writes, born, now)
  {
  }

  /** A session is created: its incarnation is new, and those before it were removed. */
  lemma CreationKeeps(cfg: Config, s: Timed, x: S.TargetSession)
    requires TimedOk(cfg, s) && x.id !in s.relay.srv.sessions && x.lastActivity == s.now && !Locked(s)
    ensures var heap, sessions := s.relay.srv.heap + [x], s.relay.srv.sessions[x.id := |s.relay.srv.heap|];
            var born := s.born + [s.now];
            && StampsAreWrites(heap, born, s.writes)
            && TablesOk(heap, sessions, s.removals, born, s.now)
            && SweeperOk(cfg, s.sweeper, sessions, born, s.writes, s.now)
  {
    var n := |s.relay.srv.heap|;
    NoWrites(s.writes, n, s.now);
    var heap, sessions := s.relay.srv.heap + [x], s.relay.srv.sessions[x.id := n];
    forall k: nat | k < |heap| ensures IsLive(heap, sessions, k) || RemovedBefore(s.removals, k, s.now) {
      if k < n { assert IsLive(s.relay.srv.heap, s.relay.srv.sessions, k) || RemovedBefore(s.removals, k, s.now); }
    }
    forall k: nat, l: nat | k < l < |heap| && heap[k].id == heap[l].id
      ensures RemovedBefore(s.removals, k, (s.born + [s.now])[l])
    {
      if l == n { assert IsLive(s.relay.srv.heap, s.relay.srv.sessions, k) || RemovedBefore(s.removals, k, s.now); }
    }
  }

  lemma {:induction false} NoWrites(writes: seq<Write>, k: nat, birth: nat)
    requires forall w <- writes :: w.k < k
    ensures LastWrite(writes, k, birth) == birth
  {
    if writes != [] {
      assert writes[|writes| - 1] in writes;
      NoWrites(writes[..|writes| - 1], k, birth);
    }
  }

  // -------------------------------------------------------------- the steps

  /** Packets, answers and sweeps that create nothing, check nothing and stamp nothing. */
  lemma QuietKeeps(cfg: Config, s: Timed, r: State, t: nat)
    requires TimedOk(cfg, s) && SameStamps(s.relay.srv.heap, r.srv.heap)
    requires r.srv.sessions == s.relay.srv.sessions && r.checks == s.relay.checks
    requires OthersStay(s.relay.serverTasks, r.serverTasks, t)
    ensures TimedOk(cfg, s.(relay := r, clocks := s.clocks - {t}, written := s.written - {t}))
  {
    SameStampsKeep(s.relay.srv.heap, r.srv.heap, r.srv.sessions, s.removals, s.born, s.writes, s.now);
    OthersStayOk(s.relay.serverTasks, r.serverTasks, t, s.clocks, s.written, s.writes, s.born, s.now);
  }

  /** What the region that may create a session does to the server. */
  lemma WriteSessionsEffect(window: nat, s: State, t: nat, connected: bool, now: int)
    requires PacketEnabled(s, t, WriteSessions(connected, now))
    ensures var id := s.serverTasks[t].p.id;
            var r := PacketApply(window, s, t, WriteSessions(connected, now));
            if id in s.srv.sessions || !connected then r.srv == s.srv
            else
              && r.srv.heap == s.srv.heap + [S.TargetSession(id, Windows.New(window), 0, now)]
              && r.srv.sessions == s.srv.sessions[id := |s.srv.heap|]
  {
  }

  lemma CreateKeeps(cfg: Config, s: Timed, t: nat, connected: bool)
    requires TimedOk(cfg, s) && TEnabled(s, Relays(OnPacket(t, WriteSessions(connected, s.now))))
    ensures TimedOk(cfg, TApply(cfg, s, Relays(OnPacket(t, WriteSessions(connected, s.now)))))
  {
    var step := WriteSessions(connected, s.now);
    var r := PacketApply(cfg.window, s.relay, t, step);
    PacketTasks(cfg.window, s.relay, t, step);
    PacketChecks(cfg.window, s.relay, t, step);
    WriteSessionsEffect(cfg.window, s.relay, t, connected, s.now);
    var id := s.relay.serverTasks[t].p.id;
    if id in s.relay.srv.sessions || !connected {
      QuietKeeps(cfg, s, r, t);
    } else {
      CreatedKeeps(cfg, s, r, t, S.TargetSession(id, Windows.New(cfg.window), 0, s.now));
    }
  }

  lemma CreatedKeeps(cfg: Config, s: Timed, r: State, t: nat, x: S.TargetSession)
    requires TimedOk(cfg, s) && x.id !in s.relay.srv.sessions && x.lastActivity == s.now && !Locked(s)
    requires r.srv.heap == s.relay.srv.heap + [x]
    requires r.srv.sessions == s.relay.srv.sessions[x.id := |s.relay.srv.heap|]
    requires r.checks == s.relay.checks && OthersStay(s.relay.serverTasks, r.serverTasks, t)
    ensures TimedOk(cfg, s.(relay := r, clocks := s.clocks - {t}, written := s.written - {t}, born := s.born + [s.now]))
  {
    CreationKeeps(cfg, s, x);
    HistoriesGrow(cfg, s, s.born + [s.now], s.writes, s.now);
    OthersStayOk(s.relay.serverTasks, r.serverTasks, t, s.clocks, s.written, s.writes, s.born + [s.now], s.now);
  }

  lemma CheckKeeps(cfg: Config, s: Timed, t: nat)
    requires TimedOk(cfg, s) && PacketEnabled(s.relay, t, CheckPacket) && PacketTimely(s, t, CheckPacket)
    ensures TimedOk(cfg, TApply(cfg, s, Relays(OnPacket(t, CheckPacket))))
  {
    var r := PacketApply(cfg.window, s.relay, t, CheckPacket);
    PacketTasks(cfg.window, s.relay, t, CheckPacket);
    PacketStamps(cfg.window, s.relay, t, CheckPacket);
    PacketChecks(cfg.window, s.relay, t, CheckPacket);
    var st := Stamp(s.clocks[t], s.written[t]);
    SameStampsKeep(s.relay.srv.heap, r.srv.heap, r.srv.sessions, s.removals, s.born, s.writes, s.now);
    OthersStayOk(s.relay.serverTasks, r.serverTasks, t, s.clocks, s.written, s.writes, s.born, s.now);
    MoreStampsOk(s.relay.checks, s.stamps, s.writes, s.born, s.now, r.checks, st);
  }

  lemma MoreStampsOk(checks: seq<Check>, stamps: seq<Stamp>, writes: seq<Write>, born: seq<nat>, now: nat,
                     more: seq<Check>, st: Stamp)
    requires StampsOk(checks, stamps, writes, born, now)
    requires |more| == |checks| + 1 && more[..|checks|] == checks
    requires StampOk(more[|checks|], st, writes, born, now)
    ensures StampsOk(more, stamps + [st], writes, born, now)
  {
    forall i | 0 <= i < |more| ensures StampOk(more[i], (stamps + [st])[i], writes, born, now) {
      if i < |checks| {
        assert more[i] == checks[i] && StampOk(checks[i], stamps[i], writes, born, now);
      }
    }
  }

  lemma PacketKeeps(cfg: Config, s: Timed, t: nat, step: PacketStep)
    requires TimedOk(cfg, s) && PacketEnabled(s.relay, t, step) && PacketTimely(s, t, step)
    ensures TimedOk(cfg, TApply(cfg, s, Relays(OnPacket(t, step))))
  {
    if step.WriteSessions? {
      CreateKeeps(cfg, s, t, step.connected);
    } else if step.CheckPacket? {
      CheckKeeps(cfg, s, t);
    } else {
      PacketTasks(cfg.window, s.relay, t, step);
      PacketStamps(cfg.window, s.relay, t, step);
      PacketChecks(cfg.window, s.relay, t, step);
      QuietKeeps(cfg, s, PacketApply(cfg.window, s.relay, t, step), t);
    }
  }

  lemma RelayKeeps(cfg: Config, s: Timed, x: Step)
    requires TimedOk(cfg, s) && TEnabled(s, Relays(x))
    ensures TimedOk(cfg, TApply(cfg, s, Relays(x)))
  {
    match x
    case OnSource(t, y) => SourceFrame(s.relay, t, y);
    case OnResponse(t, y) => ResponseFrame(s.relay, t, y);
    case OnPacket(t, y) => PacketKeeps(cfg, s, t, y);
    case OnAnswer(t, y) =>
      AnswerFrame(s.relay, t, y);
      AnswerStays(s.relay, t, y);
      QuietKeeps(cfg, s, AnswerApply(s.relay, t, y), t);
    case OnSweep(y) => ClientSweepStays(s.relay, y);
  }

  lemma ClientSweepStays(s: State, step: SweepStep)
    requires SweepEnabled(s, step) && !step.TouchServer? && !step.RemoveSession? && !step.RemovePaths?
    ensures SameServerSide(s, SweepApply(s, step))
  {
  }

  /** A stamp is written: the latest write is the stamp. */
  lemma WriteKeeps(cfg: Config, s: Timed, k: nat, at: nat)
    requires TimedOk(cfg, s) && k < |s.relay.srv.heap|
    ensures TimedOk(cfg, Written(s, k, at))
  {
    var writes' := s.writes + [Write(k, at)];
    var heap, heap' := s.relay.srv.heap, S.Touch(s.relay.srv, k, at).heap;
    HistoriesGrow(cfg, s, s.born, writes', s.now);
    forall j | 0 <= j < |heap'| ensures heap'[j].lastActivity == LastWrite(writes', j, s.born[j]) {
      WritesOfOthers(s.writes, Write(k, at), j, s.born[j]);
    }
    forall j: nat | j < |heap'| ensures IsLive(heap', s.relay.srv.sessions, j) || RemovedBefore(s.removals, j, s.now) {
      assert IsLive(heap, s.relay.srv.sessions, j) || RemovedBefore(s.removals, j, s.now);
    }
  }

  function Written(s: Timed, k: nat, at: nat): Timed
    requires k < |s.relay.srv.heap|
  {
    s.(relay := SweepApply(s.relay, TouchServer(k, at)), writes := s.writes + [Write(k, at)])
  }

  /** The task that wrote last notes which write it was. */
  lemma NoteKeeps(cfg: Config, s: Timed, t: nat)
    requires TimedOk(cfg, s) && t in s.clocks && s.writes != []
    requires s.writes[|s.writes| - 1] == Write(s.relay.serverTasks[t].k, s.clocks[t])
    ensures TimedOk(cfg, s.(written := s.written[t := |s.writes| - 1]))
  {
  }

  lemma StampIsWritten(cfg: Config, s: Timed, t: nat)
    requires TEnabled(s, WriteStamp(t))
    ensures TApply(cfg, s, WriteStamp(t)) ==
            Written(s, s.relay.serverTasks[t].k, s.clocks[t]).(written := s.written[t := |s.writes|])
  {
  }

  lemma StampKeeps(cfg: Config, s: Timed, t: nat)
    requires TimedOk(cfg, s) && TEnabled(s, WriteStamp(t))
    ensures TimedOk(cfg, TApply(cfg, s, WriteStamp(t)))
  {
    var k, at := s.relay.serverTasks[t].k, s.clocks[t];
    StampIsWritten(cfg, s, t);
    WriteKeeps(cfg, s, k, at);
    NoteKeeps(cfg, Written(s, k, at), t);
  }

  lemma TargetIsWritten(cfg: Config, s: Timed, t: nat, at: nat, k: nat)
    requires TEnabled(s, TargetStamps(t, at))
    requires k == s.relay.srv.sessions[s.relay.srv.heap[s.relay.serverTasks[t].from].id]
    ensures TApply(cfg, s, TargetStamps(t, at)) == Written(s, k, at)
  {
  }

  lemma TargetKeeps(cfg: Config, s: Timed, t: nat, at: nat)
    requires TimedOk(cfg, s) && TEnabled(s, TargetStamps(t, at))
    ensures TimedOk(cfg, TApply(cfg, s, TargetStamps(t, at)))
  {
    var k := s.relay.srv.sessions[s.relay.srv.heap[s.relay.serverTasks[t].from].id];
    WriteKeeps(cfg, s, k, at);
    TargetIsWritten(cfg, s, t, at, k);
  }

  lemma ReadStampKeeps(cfg: Config, s: Timed, id: U64)
    requires TimedOk(cfg, s) && TEnabled(s, ReadStamp(id))
    ensures TimedOk(cfg, TApply(cfg, s, ReadStamp(id)))
  {
    var k := s.relay.srv.sessions[id];
    assert s.writes[..|s.writes|] == s.writes;
    assert s.relay.srv.heap[k].lastActivity == LastWrite(s.writes, k, s.born[k]);
  }

  lemma MoreRemovals(removals: seq<Removal>, gone: Removal, k: nat, time: nat)
    ensures RemovedBefore(removals, k, time) ==> RemovedBefore(removals + [gone], k, time)
    ensures gone.k == k && gone.clock <= time ==> RemovedBefore(removals + [gone], k, time)
  {
    assert gone in removals + [gone];
    if RemovedBefore(removals, k, time) {
      var r :| r in removals && r.k == k && r.clock <= time;
      assert r in removals + [gone];
    }
  }

  lemma RemovalKeepsTables(heap: seq<S.TargetSession>, sessions: map<U64, nat>, removals: seq<Removal>,
                           born: seq<nat>, now: nat, id: U64, gone: Removal)
    requires TablesOk(heap, sessions, removals, born, now)
    requires id in sessions && gone.k == sessions[id] && gone.clock <= now
    ensures TablesOk(heap, sessions - {id}, removals + [gone], born, now)
  {
    forall k: nat | k < |heap| ensures IsLive(heap, sessions - {id}, k) || RemovedBefore(removals + [gone], k, now) {
      assert IsLive(heap, sessions, k) || RemovedBefore(removals, k, now);
      MoreRemovals(removals, gone, k, now);
    }
    forall k: nat, l: nat | k < l < |heap| && heap[k].id == heap[l].id
      ensures RemovedBefore(removals + [gone], k, born[l])
    {
      MoreRemovals(removals, gone, k, born[l]);
    }
  }

  lemma RemoveEffect(s: State, id: U64)
    requires id in s.srv.sessions
    ensures var s' := SweepApply(s, RemoveSession(id));
            && s'.srv.heap == s.srv.heap && s'.srv.sessions == s.srv.sessions - {id}
            && s'.checks == s.checks && s'.serverTasks == s.serverTasks
  {
  }

  lemma RemovedKeeps(cfg: Config, removals: seq<Removal>, born: seq<nat>, writes: seq<Write>, now: nat, gone: Removal)
    requires RemovalsOk(cfg, removals, born, writes, now) && gone.clock <= now
    requires ReadIdle(cfg, born, writes, gone.k, gone.clock, gone.reading)
    ensures RemovalsOk(cfg, removals + [gone], born, writes, now)
  {
  }

  /** A removal is that of an incarnation whose stamp was read as idle. */
  lemma ExpireKeeps(cfg: Config, s: Timed, id: U64)
    requires TimedOk(cfg, s) && TEnabled(s, Expire(id))
    ensures TimedOk(cfg, TApply(cfg, s, Expire(id)))
  {
    var gone := Removal(s.relay.srv.sessions[id], s.sweeper.clock, s.sweeper.expired[id]);
    ExpireIs(cfg, s, id);
    RemoveEffect(s.relay, id);
    RemovalKeepsTables(s.relay.srv.heap, s.relay.srv.sessions, s.removals, s.born, s.now, id, gone);
    RemovedKeeps(cfg, s.removals, s.born, s.writes, s.now, gone);
    ExpiredWithout(cfg, s.sweeper.expired, s.relay.srv.sessions, s.sweeper.clock, s.born, s.writes, id);
  }

  lemma ExpiredWithout(cfg: Config, expired: map<U64, Reading>, sessions: map<U64, nat>, clock: nat,
                       born: seq<nat>, writes: seq<Write>, id: U64)
    requires ExpiredOk(cfg, expired, sessions, clock, born, writes)
    ensures ExpiredOk(cfg, expired - {id}, sessions - {id}, clock, born, writes)
  {
  }

  lemma WaitKeeps(cfg: Config, s: Timed, d: nat)
    requires TimedOk(cfg, s)
    ensures TimedOk(cfg, TApply(cfg, s, Wait(d)))
  {
    HistoriesGrow(cfg, s, s.born, s.writes, s.now + d);
    TablesStay(s.relay.srv.heap, s.relay.srv.sessions, s.removals, s.born, s.now, s.now + d);
  }

  lemma SmallStepKeeps(cfg: Config, s: Timed, step: TStep)
    requires TimedOk(cfg, s) && TEnabled(s, step)
    requires step.BeginSweep? || step.LockSessions? || step.EndSweep?
    ensures TimedOk(cfg, TApply(cfg, s, step))
  {
  }

  lemma ReadClockKeeps(cfg: Config, s: Timed, t: nat)
    requires TimedOk(cfg, s) && TEnabled(s, ReadClock(t))
    ensures TimedOk(cfg, TApply(cfg, s, ReadClock(t)))
  {
    ClockRead(s.relay.serverTasks, s.clocks, s.written, s.writes, s.born, s.now, t);
    assert TApply(cfg, s, ReadClock(t)) == s.(clocks := s.clocks[t := s.now]);
  }

  lemma ClockRead(tasks: map<nat, ServerTask>, clocks: map<nat, nat>, written: map<nat, nat>,
                  writes: seq<Write>, born: seq<nat>, now: nat, t: nat)
    requires TasksOk(tasks, clocks, written, writes, born, now) && t !in clocks
    requires t in tasks && tasks[t].Held? && tasks[t].k < |born| && born[tasks[t].k] <= now
    ensures TasksOk(tasks, clocks[t := now], written, writes, born, now)
  {
  }

  lemma UnlistKeeps(cfg: Config, s: Timed)
    requires TimedOk(cfg, s) && TEnabled(s, Unlist)
    ensures TimedOk(cfg, TApply(cfg, s, Unlist))
  {
    UnlistIs(cfg, s);
  }

  lemma StepKeeps(cfg: Config, s: Timed, step: TStep)
    requires TimedOk(cfg, s) && TEnabled(s, step)
    ensures TimedOk(cfg, TApply(cfg, s, step))
  {
    match step
    case Relays(x) => RelayKeeps(cfg, s, x);
    case Wait(d) => WaitKeeps(cfg, s, d);
    case WriteStamp(t) => StampKeeps(cfg, s, t);
    case TargetStamps(t, at) => TargetKeeps(cfg, s, t, at);
    case ReadStamp(id) => ReadStampKeeps(cfg, s, id);
    case Expire(id) => ExpireKeeps(cfg, s, id);
    case ReadClock(t) => ReadClockKeeps(cfg, s, t);
    case Unlist => UnlistKeeps(cfg, s);
    case _ => SmallStepKeeps(cfg, s, step);
  }

  lemma {:induction false} RunsAreTimed(cfg: Config, counter: U64, steps: seq<TStep>)
    requires After(cfg, counter, steps).Some?
    ensures TimedOk(cfg, After(cfg, counter, steps).value)
  {
    if steps != [] {
      var n := |steps| - 1;
      RunsAreTimed(cfg, counter, steps[..n]);
      StepKeeps(cfg, After(cfg, counter, steps[..n]).value, steps[n]);
    }
  }
}
