/** Runs of the server at handler granularity, against a clock: what the path lists hold, and how
    long a session can stay idle.  Packets, target datagrams, closing connections and the
    passage of time come in any order; the sweep fires exactly on its ticks.

    Every handler and the sweep run whole here; `RelayRepeats` says what remains when they meet. */
module ServerRuns {
  import opened Bounded
  import opened Windows
  import opened Clock
  import SS = ServerState
  import opened ServerState

  /** Times are milliseconds. */
  datatype Config = Config(window: nat, timeout: nat)

  ghost predicate ValidConfig(cfg: Config) {
    cfg.window >= 1
  }

  /** A forwarded packet: its id and number, the incarnation that accepted it, the path it came
      by, and when. */
  datatype Delivered = Delivered(id: U64, q: U32, session: nat, via: Path, at: nat)

  /** `log` are the packets forwarded; `answers` names, for every datagram of the target that was
      numbered, the incarnation that numbered it. */
  datatype Run = Run(srv: SS.State, now: nat, nextTick: nat, closed: set<nat>, log: seq<Delivered>,
                     answers: seq<nat>)

  datatype Step =
    | Packet(id: U64, q: U32, via: Path, connected: bool)
    | Target(id: U64, payload: Bytes)
    | Close(conn: nat)
    | Wait(time: nat)
    | Tick

  predicate Enabled(r: Run, step: Step) {
    match step
    case Packet(_, _, Tcp(conn), _) => conn !in r.closed
    case Wait(d) => r.now + d <= r.nextTick
    case Tick => r.now == r.nextTick
    case _ => true
  }

  ghost function Apply(cfg: Config, r: Run, step: Step): Run
    requires WellFormed(r.srv) && Enabled(r, step)
  {
    match step
    case Packet(id, q, via, connected) =>
      var h := OnPacket(r.srv, id, q, via, connected, cfg.window, r.now);
      if h.verdict.Forward? then
        r.(srv := h.state, log := r.log + [Delivered(id, q, h.verdict.session, via, r.now)])
      else
        r.(srv := h.state)
    case Target(id, payload) =>
      r.(srv := OnTarget(r.srv, id, payload, r.now).state,
         answers := if id in r.srv.sessions then r.answers + [r.srv.sessions[id]] else r.answers)
    case Close(conn) => r.(srv := OnClose(r.srv, conn), closed := r.closed + {conn})
    case Wait(d) => r.(now := r.now + d)
    case Tick =>
      r.(srv := OnSweep(r.srv, r.now, cfg.timeout), nextTick := r.nextTick + Interval(cfg.timeout))
  }

  const START: Run := Run(EMPTY, 0, 0, {}, [], [])

  /** The state after a run, if every step of it was possible. */
  ghost function After(cfg: Config, steps: seq<Step>): Option<Run> {
    if steps == [] then Some(START)
    else
      match After(cfg, steps[..|steps| - 1])
      case None => None
      case Some(r) =>
        var step := steps[|steps| - 1];
        if WellFormed(r.srv) && Enabled(r, step) then Some(Apply(cfg, r, step)) else None
  }

  // ------------------------------------------------------------ the path lists

  /** The address of the latest accepted packet of incarnation `k` on a listener. */
  function LatestAddr(log: seq<Delivered>, k: nat, listener: nat): Option<Addr> {
    if log == [] then None
    else
      var e := log[|log| - 1];
      if e.session == k && e.via.Udp? && e.via.listener == listener then Some(e.via.addr)
      else LatestAddr(log[..|log| - 1], k, listener)
  }

  /** The id of the latest accepted packet, of any session, on a connection. */
  function LatestId(log: seq<Delivered>, conn: nat): Option<U64> {
    if log == [] then None
    else
      var e := log[|log| - 1];
      if e.via == Tcp(conn) then Some(e.id) else LatestId(log[..|log| - 1], conn)
  }

  /** Connection `conn` delivered a packet accepted by incarnation `k`. */
  predicate Came(log: seq<Delivered>, k: nat, conn: nat) {
    exists e :: e in log && e.session == k && e.via == Tcp(conn)
  }

  /** A closed connection stays in the list of an id exactly when another id spoke last. */
  predicate Unlinked(log: seq<Delivered>, closed: set<nat>, id: U64, conn: nat) {
    conn in closed && LatestId(log, conn) == Some(id)
  }

  /** The list `ps` of incarnation `k` of `id` holds the listeners and the connections that
      delivered a packet it accepted, except the connections unlinked when they closed; none of
      them twice, and each listener with its latest address. */
  ghost predicate Characterised(log: seq<Delivered>, closed: set<nat>, id: U64, k: nat, ps: seq<Path>) {
    && NoRepeats(ps)
    && (forall l: nat, a: Addr :: Udp(l, a) in ps <==> LatestAddr(log, k, l) == Some(a))
    && (forall c: nat :: Tcp(c) in ps <==> Came(log, k, c) && !Unlinked(log, closed, id, c))
  }

  ghost predicate PathsExact(r: Run) {
    && (forall id <- r.srv.paths :: id in r.srv.sessions)
    && (forall id <- r.srv.sessions ::
          Characterised(r.log, r.closed, id, r.srv.sessions[id], PathsOf(r.srv, id)))
  }

  /** The connection map holds the open connections that delivered something, each with the
      latest id. */
  ghost predicate ConnsTracked(r: Run) {
    && (forall e <- r.log :: e.session < |r.srv.heap| && r.srv.heap[e.session].id == e.id)
    && (forall c: nat | c !in r.closed :: Remembered(r.srv, c) == LatestId(r.log, c))
    && (forall c: nat | c in r.closed :: c !in r.srv.connSession)
  }

  function Remembered(s: SS.State, conn: nat): Option<U64> {
    if conn in s.connSession then Some(s.connSession[conn]) else None
  }

  ghost predicate Punctual(cfg: Config, r: Run)
    requires WellFormed(r.srv)
  {
    && r.now <= r.nextTick <= r.now + Interval(cfg.timeout)
    && (forall id <- r.srv.sessions ::
          var last := r.srv.heap[r.srv.sessions[id]].lastActivity;
          last <= r.now && r.nextTick - last <= cfg.timeout + Interval(cfg.timeout))
  }

  ghost predicate Holds(cfg: Config, r: Run) {
    WellFormed(r.srv) && PathsExact(r) && ConnsTracked(r) && Punctual(cfg, r)
  }

  lemma {:induction false} LatestAddrIsLogged(log: seq<Delivered>, k: nat, l: nat)
    ensures LatestAddr(log, k, l).Some? ==>
              exists e :: e in log && e.session == k
  {
    if log != [] {
      var e := log[|log| - 1];
      LatestAddrIsLogged(log[..|log| - 1], k, l);
      assert e in log;
    }
  }

  lemma {:induction false} LatestIdIsLogged(log: seq<Delivered>, k: nat, conn: nat)
    requires Came(log, k, conn)
    ensures LatestId(log, conn).Some?
  {
    var n := |log| - 1;
    assert log == log[..n] + [log[n]];
    if log[n].via != Tcp(conn) {
      LatestIdIsLogged(log[..n], k, conn);
    }
  }

  lemma LogGrows(log: seq<Delivered>, e: Delivered, k: nat, l: nat)
    ensures LatestAddr(log + [e], k, l) ==
            if e.session == k && e.via.Udp? && e.via.listener == l then Some(e.via.addr)
            else LatestAddr(log, k, l)
    ensures LatestId(log + [e], l) == if e.via == Tcp(l) then Some(e.id) else LatestId(log, l)
  {
    assert (log + [e])[..|log|] == log;
  }

  lemma CameGrows(log: seq<Delivered>, e: Delivered, k: nat, conn: nat)
    ensures Came(log + [e], k, conn) <==> Came(log, k, conn) || (e.session == k && e.via == Tcp(conn))
  {
    assert forall x :: x in log + [e] <==> x in log || x == e;
    if e.session == k && e.via == Tcp(conn) {
      assert e in log + [e];
    }
  }

  /** A session with no accepted packet has no paths. */
  lemma NewSessionHasNoPaths(log: seq<Delivered>, closed: set<nat>, id: U64, k: nat)
    requires forall e <- log :: e.session != k
    ensures Characterised(log, closed, id, k, [])
  {
    forall l: nat ensures LatestAddr(log, k, l) == None {
      LatestAddrIsLogged(log, k, l);
    }
  }

  lemma AddKeepsCharacterised(log: seq<Delivered>, closed: set<nat>, id: U64, ps: seq<Path>, e: Delivered)
    requires Characterised(log, closed, id, e.session, ps)
    requires e.via.Tcp? ==> e.via.conn !in closed
    ensures Characterised(log + [e], closed, id, e.session, WithPath(ps, e.via))
  {
    WithPathLaws(ps, e.via);
    var ps' := WithPath(ps, e.via);
    forall l: nat, a: Addr ensures Udp(l, a) in ps' <==> LatestAddr(log + [e], e.session, l) == Some(a) {
      LogGrows(log, e, e.session, l);
    }
    forall c: nat
      ensures Tcp(c) in ps' <==> Came(log + [e], e.session, c) && !Unlinked(log + [e], closed, id, c)
    {
      LogGrows(log, e, e.session, c);
      CameGrows(log, e, e.session, c);
    }
  }

  lemma OtherKeepsCharacterised(log: seq<Delivered>, closed: set<nat>, id: U64, k: nat, ps: seq<Path>, e: Delivered)
    requires Characterised(log, closed, id, k, ps) && e.session != k
    requires e.via.Tcp? ==> e.via.conn !in closed
    ensures Characterised(log + [e], closed, id, k, ps)
  {
    forall l: nat, a: Addr ensures Udp(l, a) in ps <==> LatestAddr(log + [e], k, l) == Some(a) {
      LogGrows(log, e, k, l);
    }
    forall c: nat ensures Tcp(c) in ps <==> Came(log + [e], k, c) && !Unlinked(log + [e], closed, id, c) {
      LogGrows(log, e, k, c);
      CameGrows(log, e, k, c);
    }
  }

  /** What admitting a packet of session `id` does: only the object `k` of that session is
      touched, and it is created if need be. */
  ghost predicate Admits(s: SS.State, u: SS.State, id: U64, k: nat, now: int) {
    && WellFormed(u)
    && u.sessions == (if id in s.sessions then s.sessions else s.sessions[id := |s.heap|])
    && k == u.sessions[id]
    && |u.heap| == (if id in s.sessions then |s.heap| else |s.heap| + 1)
    && (forall j | 0 <= j < |s.heap| :: u.heap[j].id == s.heap[j].id)
    && (forall j | 0 <= j < |s.heap| && j != k :: u.heap[j] == s.heap[j])
    && u.heap[k].lastActivity == now
    && u.paths == s.paths && u.connSession == s.connSession
  }

  function Admit(s: SS.State, k: nat, q: U32, now: int): SS.State
    requires k < |s.heap|
  {
    Mark(Touch(s, k, now), k, q)
  }

  lemma AdmitFacts(s: SS.State, id: U64, q: U32, connected: bool, size: nat, now: int)
    requires WellFormed(s) && size >= 1
    ensures var f := FindOrCreate(s, id, connected, size, now);
            match f.session
            case None => id !in s.sessions
            case Some(k) => k < |f.state.heap| && Admits(s, Admit(f.state, k, q, now), id, k, now)
  {
    var f := FindOrCreate(s, id, connected, size, now);
    if f.session.Some? {
      StepKeepsSound(f.state.heap[f.session.value].window, q);
    }
  }

  /** The three ways a packet handler ends. */
  lemma OnPacketCases(s: SS.State, id: U64, q: U32, via: Path, connected: bool, size: nat, now: int)
    returns (u: SS.State, k: nat)
    requires WellFormed(s) && size >= 1
    ensures var h := OnPacket(s, id, q, via, connected, size, now);
            if h.verdict.NoSession? then h.state == s
            else
              && Admits(s, u, id, k, now) && h.verdict.session == k
              && h.state == if h.verdict.Forward? then AddPath(NoteConn(u, via, id), id, via) else u
  {
    AdmitFacts(s, id, q, connected, size, now);
    var f := FindOrCreate(s, id, connected, size, now);
    if f.session.Some? {
      k := f.session.value;
      u := Admit(f.state, k, q, now);
    } else {
      k, u := 0, s;
    }
  }

  function WithServer(r: Run, srv: SS.State): Run {
    r.(srv := srv)
  }

  /** Admitting keeps every path list exact: a new session starts with none. */
  lemma AdmitKeeps(cfg: Config, r: Run, u: SS.State, id: U64, k: nat)
    requires Holds(cfg, r) && Admits(r.srv, u, id, k, r.now)
    ensures Holds(cfg, WithServer(r, u))
  {
    if id !in r.srv.sessions {
      NewSessionHasNoPaths(r.log, r.closed, id, k);
    }
  }

  function Registered(r: Run, e: Delivered): Run {
    r.(srv := AddPath(NoteConn(r.srv, e.via, e.id), e.id, e.via), log := r.log + [e])
  }

  /** Entry `e` is for the live session of its id. */
  ghost predicate Current(r: Run, e: Delivered) {
    && e.id in r.srv.sessions && e.session == r.srv.sessions[e.id]
    && (e.via.Tcp? ==> e.via.conn !in r.closed)
  }

  lemma RegisterKeepsPaths(r: Run, e: Delivered)
    requires WellFormed(r.srv) && PathsExact(r) && Current(r, e)
    ensures PathsExact(Registered(r, e))
  {
    var r' := Registered(r, e);
    forall i | i in r'.srv.sessions
      ensures Characterised(r'.log, r'.closed, i, r'.srv.sessions[i], PathsOf(r'.srv, i))
    {
      if i == e.id {
        AddKeepsCharacterised(r.log, r.closed, i, PathsOf(r.srv, i), e);
      } else {
        OtherKeepsCharacterised(r.log, r.closed, i, r.srv.sessions[i], PathsOf(r.srv, i), e);
      }
    }
  }

  lemma RegisterKeepsConns(r: Run, e: Delivered)
    requires WellFormed(r.srv) && ConnsTracked(r) && Current(r, e)
    ensures ConnsTracked(Registered(r, e))
  {
    var r' := Registered(r, e);
    assert forall x :: x in r'.log <==> x in r.log || x == e;
    forall c: nat | c !in r'.closed ensures Remembered(r'.srv, c) == LatestId(r'.log, c) {
      LogGrows(r.log, e, 0, c);
    }
  }

  lemma RegisterKeeps(cfg: Config, r: Run, e: Delivered)
    requires Holds(cfg, r) && Current(r, e)
    ensures Holds(cfg, Registered(r, e))
  {
    RegisterKeepsPaths(r, e);
    RegisterKeepsConns(r, e);
    var r' := Registered(r, e);
    assert r'.srv.heap == r.srv.heap && r'.srv.sessions == r.srv.sessions;
  }

  lemma PacketKeeps(cfg: Config, r: Run, step: Step)
    requires ValidConfig(cfg) && Holds(cfg, r) && step.Packet? && Enabled(r, step)
    ensures Holds(cfg, Apply(cfg, r, step))
  {
    var u, k := OnPacketCases(r.srv, step.id, step.q, step.via, step.connected, cfg.window, r.now);
    var v := OnPacket(r.srv, step.id, step.q, step.via, step.connected, cfg.window, r.now).verdict;
    if v.NoSession? {
      assert Apply(cfg, r, step) == r;
    } else {
      AdmitKeeps(cfg, r, u, step.id, k);
      if v.Forward? {
        var e := Delivered(step.id, step.q, k, step.via, r.now);
        RegisterKeeps(cfg, WithServer(r, u), e);
        assert Apply(cfg, r, step) == Registered(WithServer(r, u), e);
      } else {
        assert Apply(cfg, r, step) == WithServer(r, u);
      }
    }
  }

  lemma CloseUnlinks(s: SS.State, conn: nat, id: U64)
    ensures PathsOf(OnClose(s, conn), id) ==
            if Remembered(s, conn) == Some(id) then WithoutTcp(PathsOf(s, id), conn) else PathsOf(s, id)
    ensures OnClose(s, conn).paths.Keys == s.paths.Keys
  {
  }

  lemma CloseKeepsCharacterised(log: seq<Delivered>, closed: set<nat>, id: U64, k: nat, ps: seq<Path>, conn: nat)
    requires Characterised(log, closed, id, k, ps) && conn !in closed
    ensures Characterised(log, closed + {conn}, id, k,
                          if LatestId(log, conn) == Some(id) then WithoutTcp(ps, conn) else ps)
  {
    WithoutTcpLaws(ps, conn);
  }

  lemma CloseKeepsPaths(cfg: Config, r: Run, conn: nat)
    requires WellFormed(r.srv) && PathsExact(r) && ConnsTracked(r)
    ensures PathsExact(Apply(cfg, r, Close(conn)))
  {
    var r' := Apply(cfg, r, Close(conn));
    if conn in r.closed {
      assert r'.srv == r.srv && r'.closed == r.closed;
    } else {
      forall id | id in r'.srv.sessions
        ensures Characterised(r'.log, r'.closed, id, r'.srv.sessions[id], PathsOf(r'.srv, id))
      {
        CloseUnlinks(r.srv, conn, id);
        CloseKeepsCharacterised(r.log, r.closed, id, r.srv.sessions[id], PathsOf(r.srv, id), conn);
      }
      CloseUnlinks(r.srv, conn, 0);
    }
  }

  lemma CloseKeeps(cfg: Config, r: Run, conn: nat)
    requires Holds(cfg, r)
    ensures Holds(cfg, Apply(cfg, r, Close(conn)))
  {
    CloseKeepsPaths(cfg, r, conn);
    var r' := Apply(cfg, r, Close(conn));
    assert r'.srv.heap == r.srv.heap && r'.srv.sessions == r.srv.sessions;
  }

  /** Ids stay, and stamps do or become the present. */
  ghost predicate Stamped(a: seq<TargetSession>, b: seq<TargetSession>, now: int) {
    && |a| == |b|
    && forall k | 0 <= k < |a| :: b[k].id == a[k].id && b[k].lastActivity in {a[k].lastActivity, now}
  }

  lemma TargetKeeps(cfg: Config, r: Run, id: U64, payload: Bytes)
    requires Holds(cfg, r)
    ensures Holds(cfg, Apply(cfg, r, Target(id, payload)))
  {
    var r' := Apply(cfg, r, Target(id, payload));
    assert r'.srv.sessions == r.srv.sessions && r'.srv.paths == r.srv.paths;
    assert r'.srv.connSession == r.srv.connSession && WellFormed(r'.srv);
    assert Stamped(r.srv.heap, r'.srv.heap, r.now);
    StampsKeep(cfg, r, r'.srv);
  }

  lemma StampsKeep(cfg: Config, r: Run, u: SS.State)
    requires Holds(cfg, r) && WellFormed(u) && Stamped(r.srv.heap, u.heap, r.now)
    requires u.sessions == r.srv.sessions && u.paths == r.srv.paths && u.connSession == r.srv.connSession
    ensures Holds(cfg, WithServer(r, u))
  {
    var r' := WithServer(r, u);
    assert forall id :: PathsOf(r'.srv, id) == PathsOf(r.srv, id);
  }

  lemma TimeKeeps(cfg: Config, r: Run, step: Step)
    requires Holds(cfg, r) && (step.Wait? || step.Tick?) && Enabled(r, step)
    ensures Holds(cfg, Apply(cfg, r, step))
  {
    var r' := Apply(cfg, r, step);
    assert forall id <- r'.srv.sessions ::
        id in r.srv.sessions && r'.srv.sessions[id] == r.srv.sessions[id] && PathsOf(r'.srv, id) == PathsOf(r.srv, id);
  }

  lemma StepHolds(cfg: Config, r: Run, step: Step)
    requires ValidConfig(cfg) && Holds(cfg, r) && Enabled(r, step)
    ensures Holds(cfg, Apply(cfg, r, step))
  {
    match step
    case Packet(_, _, _, _) => PacketKeeps(cfg, r, step);
    case Close(conn) => CloseKeeps(cfg, r, conn);
    case Target(id, payload) => TargetKeeps(cfg, r, id, payload);
    case _ => TimeKeeps(cfg, r, step);
  }

  lemma {:induction false} RunsHold(cfg: Config, steps: seq<Step>)
    requires ValidConfig(cfg) && After(cfg, steps).Some?
    ensures Holds(cfg, After(cfg, steps).value)
  {
    if steps != [] {
      var n := |steps| - 1;
      RunsHold(cfg, steps[..n]);
      StepHolds(cfg, After(cfg, steps[..n]).value, steps[n]);
    }
  }

  /** Path sets, where handlers and sweep run whole: in every run the path list of a live session
      is exactly the listeners and the connections that delivered a packet accepted in this
      incarnation, except the closed connections on which its id was the last to speak; only live
      sessions have paths. */
  lemma PathSetsAreExact(cfg: Config, steps: seq<Step>)
    requires ValidConfig(cfg) && After(cfg, steps).Some?
    ensures var r := After(cfg, steps).value;
            && (forall id <- r.srv.paths :: id in r.srv.sessions)
            && (forall id <- r.srv.sessions ::
                  Characterised(r.log, r.closed, id, r.srv.sessions[id], PathsOf(r.srv, id)))
  {
    RunsHold(cfg, steps);
  }

  /** Every connection carries one session id. */
  ghost predicate OneIdPerConnection(log: seq<Delivered>) {
    forall e, f | e in log && f in log && e.via.Tcp? && e.via == f.via :: e.id == f.id
  }

  /** Then a session lists exactly its listeners and its open connections. */
  lemma {:induction false} OpenConnectionsOnly(cfg: Config, steps: seq<Step>, id: U64, conn: nat)
    requires ValidConfig(cfg) && After(cfg, steps).Some?
    requires OneIdPerConnection(After(cfg, steps).value.log)
    requires id in After(cfg, steps).value.srv.sessions
    ensures var r := After(cfg, steps).value;
            Tcp(conn) in PathsOf(r.srv, id) <==> Came(r.log, r.srv.sessions[id], conn) && conn !in r.closed
  {
    RunsHold(cfg, steps);
    var r := After(cfg, steps).value;
    var k := r.srv.sessions[id];
    assert Characterised(r.log, r.closed, id, k, PathsOf(r.srv, id));
    if Came(r.log, k, conn) {
      LatestIdIsLogged(r.log, k, conn);
      LatestIdIsSomeones(r.log, conn);
    }
  }

  lemma {:induction false} LatestIdIsSomeones(log: seq<Delivered>, conn: nat)
    requires LatestId(log, conn).Some?
    ensures exists e :: e in log && e.via == Tcp(conn) && e.id == LatestId(log, conn).value
  {
    var n := |log| - 1;
    assert log[n] in log;
    if log[n].via != Tcp(conn) {
      LatestIdIsSomeones(log[..n], conn);
    }
  }

  /** What the first packet of a session that is not live does. */
  ghost predicate Opened(r: Run, r': Run, id: U64, q: U32, via: Path) {
    && r'.log == r.log + [Delivered(id, q, |r.srv.heap|, via, r.now)]
    && r'.srv.sessions == r.srv.sessions[id := |r.srv.heap|]
    && PathsOf(r'.srv, id) == WithPath(PathsOf(r.srv, id), via)
    && (forall i: U64 | i != id :: PathsOf(r'.srv, i) == PathsOf(r.srv, i))
    && r'.srv.connSession == NoteConn(r.srv, via, id).connSession
    && r'.now == r.now && r'.nextTick == r.nextTick && r'.closed == r.closed
  }

  lemma AcceptsFirst(cfg: Config, r: Run, id: U64, q: U32, via: Path)
    requires WellFormed(r.srv) && Enabled(r, Packet(id, q, via, true)) && id !in r.srv.sessions
    ensures Opened(r, Apply(cfg, r, Packet(id, q, via, true)), id, q, via)
  {
  }

  lemma {:induction false} Open(cfg: Config, steps: seq<Step>, r: Run, id: U64, q: U32, via: Path)
    returns (more: seq<Step>, r': Run)
    requires ValidConfig(cfg) && After(cfg, steps) == Some(r)
    requires Enabled(r, Packet(id, q, via, true)) && id !in r.srv.sessions
    ensures After(cfg, more) == Some(r') && Holds(cfg, r') && Opened(r, r', id, q, via)
  {
    more, r' := Then(cfg, steps, r, Packet(id, q, via, true));
    AcceptsFirst(cfg, r, id, q, via);
  }

  /** A connection that carried two ids stays, closed, in the path list of the first. */
  lemma ClosedConnectionStays(cfg: Config) returns (steps: seq<Step>)
    requires ValidConfig(cfg)
    ensures After(cfg, steps).Some?
    ensures var r := After(cfg, steps).value;
            0 in r.closed && 1 in r.srv.sessions && Tcp(0) in PathsOf(r.srv, 1)
  {
    var r;
    steps, r := Open(cfg, [], START, 1, 0, Tcp(0));
    assert PathsOf(r.srv, 1) == [Tcp(0)];
    steps, r := Open(cfg, steps, r, 2, 0, Tcp(0));
    CloseUnlinks(r.srv, 0, 1);
    steps, r := Then(cfg, steps, r, Close(0));
  }

  lemma {:induction false} Then(cfg: Config, steps: seq<Step>, r: Run, step: Step)
    returns (more: seq<Step>, r': Run)
    requires ValidConfig(cfg) && After(cfg, steps) == Some(r) && Enabled(r, step)
    ensures WellFormed(r.srv) && r' == Apply(cfg, r, step) && After(cfg, more) == Some(r')
    ensures Holds(cfg, r')
  {
    RunsHold(cfg, steps);
    StepHolds(cfg, r, step);
    more, r' := steps + [step], Apply(cfg, r, step);
    assert more[..|steps|] == steps;
  }

  // ------------------------------------------------------------- idle sessions

  /** Idle bound: in every run no live session has ever been idle for longer than the timeout
      plus one sweep interval. */
  lemma IdleBound(cfg: Config, steps: seq<Step>, id: U64)
    requires ValidConfig(cfg) && After(cfg, steps).Some?
    requires id in After(cfg, steps).value.srv.sessions
    ensures var r := After(cfg, steps).value;
            && r.srv.sessions[id] < |r.srv.heap|
            && 0 <= r.now - r.srv.heap[r.srv.sessions[id]].lastActivity <= cfg.timeout + Interval(cfg.timeout)
  {
    RunsHold(cfg, steps);
  }

  /** Incarnation `k` is the live session of `id`, and was active at time `t` or later. */
  predicate LiveSince(s: SS.State, id: U64, k: nat, t: int) {
    id in s.sessions && s.sessions[id] == k && k < |s.heap| && s.heap[k].lastActivity >= t
  }

  lemma PacketKeepsAlive(cfg: Config, r: Run, step: Step, id: U64, k: nat, t: int)
    requires ValidConfig(cfg) && WellFormed(r.srv) && step.Packet? && Enabled(r, step)
    requires LiveSince(r.srv, id, k, t) && t <= r.now
    ensures LiveSince(Apply(cfg, r, step).srv, id, k, t)
  {
    var u, j := OnPacketCases(r.srv, step.id, step.q, step.via, step.connected, cfg.window, r.now);
    var r' := Apply(cfg, r, step);
    if r'.srv != r.srv {
      assert r'.srv.sessions == u.sessions && r'.srv.heap == u.heap;
    }
  }

  lemma StepKeepsAlive(cfg: Config, r: Run, step: Step, id: U64, k: nat, t: int)
    requires ValidConfig(cfg) && WellFormed(r.srv) && Enabled(r, step)
    requires LiveSince(r.srv, id, k, t) && t <= r.now && Apply(cfg, r, step).now - t <= cfg.timeout
    ensures LiveSince(Apply(cfg, r, step).srv, id, k, t)
  {
    match step
    case Packet(_, _, _, _) => PacketKeepsAlive(cfg, r, step, id, k, t);
    case _ =>
  }

  lemma {:induction false} TimeGoesOn(cfg: Config, steps: seq<Step>, step: Step)
    requires After(cfg, steps + [step]).Some?
    ensures After(cfg, steps).Some?
    ensures var r := After(cfg, steps).value;
            && WellFormed(r.srv) && Enabled(r, step)
            && After(cfg, steps + [step]) == Some(Apply(cfg, r, step))
            && r.now <= Apply(cfg, r, step).now
  {
    assert (steps + [step])[..|steps|] == steps;
  }

  /** Active sessions survive, where handlers and sweep run whole: whatever happens in between, an
      incarnation that is live after `steps` and was active at time `t` or later is still the live
      one after `rest`, unless more than the timeout has passed since `t`.  With `IdleBound`: an
      abandoned session goes after its timeout and within one interval of it. */
  lemma {:induction false} ActiveSessionsSurvive(cfg: Config, steps: seq<Step>, rest: seq<Step>,
                                                 id: U64, k: nat, t: int)
    requires ValidConfig(cfg) && After(cfg, steps + rest).Some?
    ensures After(cfg, steps).Some?
    ensures var r, r' := After(cfg, steps).value, After(cfg, steps + rest).value;
            && r.now <= r'.now
            && (LiveSince(r.srv, id, k, t) && t <= r.now && r'.now - t <= cfg.timeout ==> LiveSince(r'.srv, id, k, t))
  {
    if rest == [] {
      assert steps + rest == steps;
    } else {
      var n := |rest| - 1;
      var before := steps + rest[..n];
      assert steps + rest == before + [rest[n]];
      TimeGoesOn(cfg, before, rest[n]);
      ActiveSessionsSurvive(cfg, steps, rest[..n], id, k, t);
      var r, mid := After(cfg, steps).value, After(cfg, before).value;
      if LiveSince(mid.srv, id, k, t) && t <= r.now && Apply(cfg, mid, rest[n]).now - t <= cfg.timeout {
        StepKeepsAlive(cfg, mid, rest[n], id, k, t);
      }
    }
  }
}
