/** The relay under a clock, still split at its lock boundaries: the handlers read the clock,
    then write their stamp, then check; the sweep reads the clock, takes the session table's
    lock, reads one stamp after the other, and removes what it read as idle.

    Each of its steps is one of `Relay` or none, so everything proved of `Relay` holds here. */
module RelayClock {
  import opened Bounded
  import opened Clock
  import opened Relay

  datatype Config = Config(window: nat, timeout: nat)

  ghost predicate ValidConfig(cfg: Config) {
    cfg.window >= 1
  }

  /** Someone wrote the time `at` into the stamp of incarnation `k`. */
  datatype Write = Write(k: nat, at: nat)

  /** What the handler of a check had read from the clock, and which write put it in the stamp. */
  datatype Stamp = Stamp(at: nat, write: nat)

  /** What the sweep read from a stamp, after how many writes. */
  datatype Reading = Reading(seen: int, before: nat)

  /** Incarnation `k` was removed by a sweep that had read `clock` from the clock. */
  datatype Removal = Removal(k: nat, clock: nat, reading: Reading)

  datatype Sweeper =
    | Idle
    | Waiting(clock: nat)
    | Sweeping(clock: nat, todo: set<U64>, expired: map<U64, Reading>)
    | Unlisting(clock: nat, todo: set<U64>, expired: map<U64, Reading>, id: U64)

  /** `clocks` and `written` are what the tasks of the server have read and written so far;
      `stamps` is as long as `relay.checks`, `born` as the server's heap.  `current` is what the last
      sweep read and found not idle; `late` notes whether time ever passed a tick before the
      sweep began. */
  datatype Timed = Timed(
    relay: State,
    now: nat,
    nextTick: nat,
    sweeper: Sweeper,
    clocks: map<nat, nat>,
    written: map<nat, nat>,
    // history
    born: seq<nat>,
    writes: seq<Write>,
    stamps: seq<Stamp>,
    removals: seq<Removal>,
    current: map<U64, Reading>,
    late: bool)

  function Start(counter: U64): Timed {
    Timed(Init(counter), 0, 0, Idle, map[], map[], [], [], [], [], map[], false)
  }

  datatype TStep =
    | Relays(step: Step)
    | Wait(time: nat)
    | ReadClock(t: nat)
    | WriteStamp(t: nat)
    | TargetStamps(t: nat, at: nat)
    | BeginSweep
    | LockSessions
    | ReadStamp(id: U64)
    | Expire(id: U64)
    | Unlist
    | EndSweep

  /** The sweep holds the lock of the session table. */
  predicate Locked(s: Timed) {
    s.sweeper.Sweeping? || s.sweeper.Unlisting?
  }

  /** The handler of task `t` has its session, and has not put its number to the window. */
  predicate Holds(s: Timed, t: nat) {
    t in s.relay.serverTasks && s.relay.serverTasks[t].Held? && s.relay.serverTasks[t].k < |s.relay.srv.heap|
  }

  predicate PacketTimely(s: Timed, t: nat, step: PacketStep) {
    match step
    case ReadSessions => !Locked(s)
    case WriteSessions(_, now) => !Locked(s) && now == s.now
    case CheckPacket => t in s.clocks && t in s.written
    case _ => true
  }

  /** What the clock and the lock demand of a step of `Relay`.  Stamps and removals at the server
      are steps of this machine. */
  predicate Timely(s: Timed, step: Step) {
    match step
    case OnPacket(t, x) => PacketTimely(s, t, x)
    case OnAnswer(_, x) => x.DrawNumber? ==> !Locked(s)
    case OnSweep(x) => !x.TouchServer? && !x.RemoveSession? && !x.RemovePaths?
    case _ => true
  }

  predicate TEnabled(s: Timed, step: TStep) {
    match step
    case Relays(x) => Enabled(s.relay, x) && Timely(s, x)
    case Wait(_) => true
    case ReadClock(t) => Holds(s, t) && t !in s.clocks
    case WriteStamp(t) => Holds(s, t) && t in s.clocks && t !in s.written
    case TargetStamps(t, at) =>
      && t in s.relay.serverTasks && s.relay.serverTasks[t].Answering? && at <= s.now && !Locked(s)
      && s.relay.serverTasks[t].from < |s.relay.srv.heap|
      && var id := s.relay.srv.heap[s.relay.serverTasks[t].from].id;
         id in s.relay.srv.sessions && s.relay.srv.sessions[id] < |s.relay.srv.heap|
    case BeginSweep => s.sweeper.Idle? && s.now >= s.nextTick
    case LockSessions => s.sweeper.Waiting?
    case ReadStamp(id) => s.sweeper.Sweeping? && id in s.sweeper.todo && HasStamp(s, id)
    case Expire(id) =>
      s.sweeper.Sweeping? && s.sweeper.todo == {} && id in s.sweeper.expired && id in s.relay.srv.sessions
    case Unlist => s.sweeper.Unlisting?
    case EndSweep => s.sweeper.Sweeping? && s.sweeper.todo == {} && s.sweeper.expired == map[]
  }

  predicate HasStamp(s: Timed, id: U64) {
    id in s.relay.srv.sessions && s.relay.srv.sessions[id] < |s.relay.srv.heap|
  }

  /** The step of `Relay` that a step is, if it is one. */
  function StepOf(s: Timed, step: TStep): Option<Step>
    requires TEnabled(s, step)
  {
    match step
    case Relays(x) => Some(x)
    case WriteStamp(t) => Some(OnSweep(TouchServer(s.relay.serverTasks[t].k, s.clocks[t])))
    case TargetStamps(t, at) =>
      Some(OnSweep(TouchServer(s.relay.srv.sessions[s.relay.srv.heap[s.relay.serverTasks[t].from].id], at)))
    case Expire(id) => Some(OnSweep(RemoveSession(id)))
    case Unlist => Some(OnSweep(RemovePaths(s.sweeper.id)))
    case _ => None
  }

  function Moved(window: nat, s: Timed, step: TStep): State
    requires TEnabled(s, step)
  {
    match StepOf(s, step)
    case None => s.relay
    case Some(x) => Apply(window, s.relay, x)
  }

  /** A task that moves on forgets its clock. */
  function Forget(m: map<nat, nat>, step: Step): map<nat, nat> {
    match step
    case OnPacket(t, _) => m - {t}
    case OnAnswer(t, _) => m - {t}
    case _ => m
  }

  function StampOf(s: Timed, step: Step): seq<Stamp>
    requires Timely(s, step)
  {
    match step
    case OnPacket(t, CheckPacket) => [Stamp(s.clocks[t], s.written[t])]
    case _ => []
  }

  function TApply(cfg: Config, s: Timed, step: TStep): Timed
    requires TEnabled(s, step)
  {
    var s' := s.(relay := Moved(cfg.window, s, step));
    match step
    case Relays(x) =>
      s'.(clocks := Forget(s.clocks, x), written := Forget(s.written, x), stamps := s.stamps + StampOf(s, x),
          born := if |s'.relay.srv.heap| > |s.relay.srv.heap| then s.born + [s.now] else s.born)
    case Wait(d) => s'.(now := s.now + d, late := s.late || s.now + d > s.nextTick)
    case ReadClock(t) => s'.(clocks := s.clocks[t := s.now])
    case WriteStamp(t) =>
      s'.(written := s.written[t := |s.writes|],
          writes := s.writes + [Write(s.relay.serverTasks[t].k, s.clocks[t])])
    case TargetStamps(t, at) =>
      var k := s.relay.srv.sessions[s.relay.srv.heap[s.relay.serverTasks[t].from].id];
      s'.(writes := s.writes + [Write(k, at)])
    case BeginSweep => s'.(sweeper := Waiting(s.now), nextTick := s.nextTick + Interval(cfg.timeout))
    case LockSessions =>
      s'.(sweeper := Sweeping(s.sweeper.clock, s.relay.srv.sessions.Keys, map[]), current := map[])
    case ReadStamp(id) =>
      var w := s.sweeper;
      var seen := s.relay.srv.heap[s.relay.srv.sessions[id]].lastActivity;
      var idle := w.clock - seen > cfg.timeout;
      var reading := Reading(seen, |s.writes|);
      s'.(sweeper := Sweeping(w.clock, w.todo - {id}, if idle then w.expired[id := reading] else w.expired),
          current := if idle then s.current else s.current[id := reading])
    case Expire(id) =>
      var w := s.sweeper;
      s'.(sweeper := Unlisting(w.clock, w.todo, w.expired - {id}, id),
          removals := s.removals + [Removal(s.relay.srv.sessions[id], w.clock, w.expired[id])])
    case Unlist => s'.(sweeper := Sweeping(s.sweeper.clock, s.sweeper.todo, s.sweeper.expired))
    case EndSweep => s'.(sweeper := Idle)
  }

  /** The state after a run, if every step of it was possible. */
  function After(cfg: Config, counter: U64, steps: seq<TStep>): Option<Timed> {
    if steps == [] then Some(Start(counter))
    else
      match After(cfg, counter, steps[..|steps| - 1])
      case None => None
      case Some(s) =>
        var step := steps[|steps| - 1];
        if TEnabled(s, step) then Some(TApply(cfg, s, step)) else None
  }

  lemma RelayMoves(cfg: Config, s: Timed, step: TStep)
    requires TEnabled(s, step)
    ensures TApply(cfg, s, step).relay == Moved(cfg.window, s, step)
  {
  }

  // The two steps of a sweep that move the relay, written out.

  lemma ExpireIs(cfg: Config, s: Timed, id: U64)
    requires TEnabled(s, Expire(id))
    ensures var w, s' := s.sweeper, TApply(cfg, s, Expire(id));
            && s'.relay == SweepApply(s.relay, RemoveSession(id))
            && s' == s.(relay := s'.relay, sweeper := Unlisting(w.clock, w.todo, w.expired - {id}, id),
                        removals := s.removals + [Removal(s.relay.srv.sessions[id], w.clock, w.expired[id])])
  {
  }

  lemma UnlistIs(cfg: Config, s: Timed)
    requires TEnabled(s, Unlist)
    ensures var s' := TApply(cfg, s, Unlist);
            && s'.relay == s.relay.(srv := s.relay.srv.(paths := s.relay.srv.paths - {s.sweeper.id}))
            && s' == s.(relay := s'.relay, sweeper := Sweeping(s.sweeper.clock, s.sweeper.todo, s.sweeper.expired))
  {
  }

  lemma AppendStep(window: nat, counter: U64, r: seq<Step>, s: State, step: Step)
    requires Run(window, counter, r) == Some(s) && Enabled(s, step)
    ensures Run(window, counter, r + [step]) == Some(Apply(window, s, step))
  {
    assert (r + [step])[..|r|] == r;
  }

  /** Every run under the clock is a run of the relay. */
  lemma {:induction false} IsARelayRun(cfg: Config, counter: U64, steps: seq<TStep>) returns (r: seq<Step>)
    requires After(cfg, counter, steps).Some?
    ensures Run(cfg.window, counter, r) == Some(After(cfg, counter, steps).value.relay)
  {
    r := [];
    if steps != [] {
      var n := |steps| - 1;
      r := IsARelayRun(cfg, counter, steps[..n]);
      var s := After(cfg, counter, steps[..n]).value;
      RelayMoves(cfg, s, steps[n]);
      match StepOf(s, steps[n])
      case None =>
      case Some(x) =>
        AppendStep(cfg.window, counter, r, s.relay, x);
        r := r + [x];
    }
  }
}
