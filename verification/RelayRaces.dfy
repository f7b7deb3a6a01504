/** Runs under the clock in which a packet is forwarded twice closer together than the timeout,
    because a handler meets the sweep between its lookup and its stamp.  Every sweep begins on
    its tick and removes only what it read as idle. */
module RelayRaces {
  import opened Bounded
  import opened Clock
  import opened Codec
  import opened SessionIds
  import Windows
  import S = ServerState
  import opened Relay
  import opened RelayClock
  import RelayWitness

  lemma Next(cfg: Config, counter: U64, steps: seq<TStep>, s: Timed, step: TStep)
    returns (more: seq<TStep>, s': Timed)
    requires After(cfg, counter, steps) == Some(s) && TEnabled(s, step)
    ensures s' == TApply(cfg, s, step) && After(cfg, counter, more) == Some(s')
  {
    more, s' := steps + [step], TApply(cfg, s, step);
    assert more[..|steps|] == steps;
  }

  /** What the client does before the server hears of it. */
  lemma {:induction false} Lift(cfg: Config, counter: U64, steps: seq<Step>, s: State) returns (more: seq<TStep>)
    requires Run(cfg.window, counter, steps) == Some(s) && forall x <- steps :: x.OnSource?
    ensures After(cfg, counter, more) == Some(Start(counter).(relay := s))
  {
    if steps == [] {
      more := [];
    } else {
      var n := |steps| - 1;
      var before := Run(cfg.window, counter, steps[..n]).value;
      more := Lift(cfg, counter, steps[..n], before);
      var u := Start(counter).(relay := before);
      assert steps[n] in steps;
      SourceFrame(before, steps[n].t, steps[n].source);
      var v;
      more, v := Next(cfg, counter, more, u, Relays(steps[n]));
      assert v == Start(counter).(relay := s);
    }
  }

  /** The clock, the sweep and what is on its way are as before. */
  ghost predicate SameTimes(s: Timed, s': Timed) {
    && s'.now == s.now && s'.nextTick == s.nextTick && s'.sweeper == s.sweeper && s'.late == s.late
    && s'.removals == s.removals && s'.relay.udpUp == s.relay.udpUp
  }

  /** Nothing is stamped, checked or forwarded. */
  ghost predicate SameWork(s: Timed, s': Timed) {
    && s'.writes == s.writes && s'.stamps == s.stamps && s'.relay.checks == s.relay.checks
    && s'.relay.forwarded == s.relay.forwarded && s'.clocks == s.clocks && s'.written == s.written
  }

  // ------------------------------------------------------ one handler

  /** A packet is heard. */
  lemma {:induction false} Hear(cfg: Config, counter: U64, steps: seq<TStep>, s: Timed, t: nat, p: Pkt, listener: nat,
                                from: Addr)
    returns (more: seq<TStep>, s': Timed)
    requires After(cfg, counter, steps) == Some(s)
    requires t !in s.relay.serverTasks && t !in s.clocks && t !in s.written
    requires Msg(Encode(p.id, p.q, p.payload), p.origin) in s.relay.udpUp
    ensures After(cfg, counter, more) == Some(s') && SameTimes(s, s') && SameWork(s, s')
    ensures s'.relay.srv == s.relay.srv
    ensures s'.relay.serverTasks == s.relay.serverTasks[t := Arrived(p, S.Udp(listener, from))]
  {
    var m := Msg(Encode(p.id, p.q, p.payload), p.origin);
    DecodeEncode(p.id, p.q, p.payload);
    more, s' := Next(cfg, counter, steps, s, Relays(OnPacket(t, ServerHearsUdp(m, listener, from))));
  }

  /** Its handler finds the live session. */
  lemma {:induction false} Find(cfg: Config, counter: U64, steps: seq<TStep>, s: Timed, t: nat, id: U64)
    returns (more: seq<TStep>, s': Timed)
    requires After(cfg, counter, steps) == Some(s) && s.sweeper.Idle? && t !in s.clocks && t !in s.written
    requires t in s.relay.serverTasks && s.relay.serverTasks[t].Arrived? && s.relay.serverTasks[t].p.id == id
    requires id in s.relay.srv.sessions
    ensures After(cfg, counter, more) == Some(s') && SameTimes(s, s') && SameWork(s, s')
    ensures s'.relay.srv == s.relay.srv
    ensures var x := s.relay.serverTasks[t];
            s'.relay.serverTasks == s.relay.serverTasks[t := Held(x.p, x.via, s.relay.srv.sessions[id])]
  {
    more, s' := Next(cfg, counter, steps, s, Relays(OnPacket(t, ReadSessions)));
  }

  /** Or there is none, and it creates one. */
  lemma {:induction false} Miss(cfg: Config, counter: U64, steps: seq<TStep>, s: Timed, t: nat, id: U64)
    returns (more: seq<TStep>, s': Timed)
    requires After(cfg, counter, steps) == Some(s) && s.sweeper.Idle? && t !in s.clocks && t !in s.written
    requires t in s.relay.serverTasks && s.relay.serverTasks[t].Arrived? && s.relay.serverTasks[t].p.id == id
    requires id !in s.relay.srv.sessions
    ensures After(cfg, counter, more) == Some(s') && SameTimes(s, s') && SameWork(s, s')
    ensures s'.relay.srv == s.relay.srv
    ensures var x := s.relay.serverTasks[t];
            s'.relay.serverTasks == s.relay.serverTasks[t := Missed(x.p, x.via)]
  {
    more, s' := Next(cfg, counter, steps, s, Relays(OnPacket(t, ReadSessions)));
  }

  lemma {:induction false} Create(cfg: Config, counter: U64, steps: seq<TStep>, s: Timed, t: nat, id: U64)
    returns (more: seq<TStep>, s': Timed)
    requires After(cfg, counter, steps) == Some(s) && s.sweeper.Idle? && t !in s.clocks && t !in s.written
    requires t in s.relay.serverTasks && s.relay.serverTasks[t].Missed? && s.relay.serverTasks[t].p.id == id
    requires id !in s.relay.srv.sessions
    ensures After(cfg, counter, more) == Some(s') && SameTimes(s, s') && SameWork(s, s')
    ensures s'.relay.srv == S.FindOrCreate(s.relay.srv, id, true, cfg.window, s.now).state
    ensures var x := s.relay.serverTasks[t];
            s'.relay.serverTasks == s.relay.serverTasks[t := Held(x.p, x.via, |s.relay.srv.heap|)]
  {
    more, s' := Next(cfg, counter, steps, s, Relays(OnPacket(t, WriteSessions(true, s.now))));
  }

  /** A handler gets as far as its session. */
  lemma {:induction false} Reach(cfg: Config, counter: U64, steps: seq<TStep>, s: Timed, t: nat, p: Pkt, listener: nat,
                                 from: Addr)
    returns (more: seq<TStep>, s': Timed)
    requires After(cfg, counter, steps) == Some(s) && s.sweeper.Idle?
    requires t !in s.relay.serverTasks && t !in s.clocks && t !in s.written
    requires Msg(Encode(p.id, p.q, p.payload), p.origin) in s.relay.udpUp
    ensures After(cfg, counter, more) == Some(s') && SameTimes(s, s') && SameWork(s, s')
    ensures var f := S.FindOrCreate(s.relay.srv, p.id, true, cfg.window, s.now);
            && s'.relay.srv == f.state
            && s'.relay.serverTasks == s.relay.serverTasks[t := Held(p, S.Udp(listener, from), f.session.value)]
  {
    more, s' := Hear(cfg, counter, steps, s, t, p, listener, from);
    if p.id in s.relay.srv.sessions {
      more, s' := Find(cfg, counter, more, s', t, p.id);
    } else {
      more, s' := Miss(cfg, counter, more, s', t, p.id);
      more, s' := Create(cfg, counter, more, s', t, p.id);
    }
  }

  /** It reads the clock. */
  lemma {:induction false} Look(cfg: Config, counter: U64, steps: seq<TStep>, s: Timed, t: nat)
    returns (more: seq<TStep>, s': Timed)
    requires After(cfg, counter, steps) == Some(s) && Holds(s, t) && t !in s.clocks
    ensures After(cfg, counter, more) == Some(s') && s' == s.(clocks := s.clocks[t := s.now])
  {
    more, s' := Next(cfg, counter, steps, s, ReadClock(t));
  }

  /** What the rest of a handler does to the server, when its number is new. */
  ghost predicate Admits(s: Timed, t: nat, s': Timed)
    requires Holds(s, t) && t in s.clocks
  {
    var x := s.relay.serverTasks[t];
    var obj := s.relay.srv.heap[x.k];
    && s'.relay.srv.heap ==
         s.relay.srv.heap[x.k := obj.(lastActivity := s.clocks[t], window := Windows.Step(obj.window, x.p.q).window)]
    && s'.relay.srv.sessions == s.relay.srv.sessions
    && s'.relay.srv.paths == S.AddPath(s.relay.srv, x.p.id, x.via).paths
    && s'.relay.serverTasks == s.relay.serverTasks - {t}
    && s'.relay.checks == s.relay.checks + [Check(x.k, x.p, true)]
    && s'.relay.forwarded == s.relay.forwarded + [Forwarded(x.k, x.p)]
    && s'.stamps == s.stamps + [Stamp(s.clocks[t], |s.writes|)]
    && s'.writes == s.writes + [Write(x.k, s.clocks[t])]
    && s'.clocks == s.clocks - {t} && s'.written == s.written - {t}
  }

  /** It writes its stamp and puts its number to the window. */
  lemma {:induction false} CheckIn(cfg: Config, counter: U64, steps: seq<TStep>, s: Timed, t: nat)
    returns (more: seq<TStep>, s': Timed)
    requires After(cfg, counter, steps) == Some(s) && Holds(s, t) && t in s.clocks && t !in s.written
    requires var x := s.relay.serverTasks[t]; !S.IsDuplicate(s.relay.srv, x.k, x.p.q)
    ensures After(cfg, counter, more) == Some(s') && SameTimes(s, s')
    ensures var x := s.relay.serverTasks[t];
            var obj := s.relay.srv.heap[x.k];
            && s'.relay.srv == s.relay.srv.(heap := s.relay.srv.heap[x.k :=
                 obj.(lastActivity := s.clocks[t], window := Windows.Step(obj.window, x.p.q).window)])
            && s'.relay.serverTasks == s.relay.serverTasks[t := Accepted(x.p, x.via, x.k)]
            && s'.relay.checks == s.relay.checks + [Check(x.k, x.p, true)]
            && s'.relay.forwarded == s.relay.forwarded
            && s'.stamps == s.stamps + [Stamp(s.clocks[t], |s.writes|)]
            && s'.writes == s.writes + [Write(x.k, s.clocks[t])]
            && s'.clocks == s.clocks - {t} && s'.written == s.written - {t}
  {
    var x := s.relay.serverTasks[t];
    more, s' := Next(cfg, counter, steps, s, WriteStamp(t));
    assert s'.relay == SweepApply(s.relay, TouchServer(x.k, s.clocks[t])) && s'.written[t] == |s.writes|;
    more, s' := Next(cfg, counter, more, s', Relays(OnPacket(t, CheckPacket)));
  }

  /** It lists its path ... */
  lemma {:induction false} ListPath(cfg: Config, counter: U64, steps: seq<TStep>, s: Timed, t: nat)
    returns (more: seq<TStep>, s': Timed)
    requires After(cfg, counter, steps) == Some(s) && t !in s.clocks && t !in s.written
    requires t in s.relay.serverTasks && s.relay.serverTasks[t].Accepted? && s.relay.serverTasks[t].via.Udp?
    ensures After(cfg, counter, more) == Some(s') && SameTimes(s, s') && SameWork(s, s')
    ensures var x := s.relay.serverTasks[t];
            && s'.relay.srv == S.AddPath(s.relay.srv, x.p.id, x.via)
            && s'.relay.serverTasks == s.relay.serverTasks[t := Registered(x.p, x.k)]
  {
    more, s' := Note(cfg, counter, steps, s, t);
    more, s' := Next(cfg, counter, more, s', Relays(OnPacket(t, AddPath)));
  }

  lemma {:induction false} Note(cfg: Config, counter: U64, steps: seq<TStep>, s: Timed, t: nat)
    returns (more: seq<TStep>, s': Timed)
    requires After(cfg, counter, steps) == Some(s) && t !in s.clocks && t !in s.written
    requires t in s.relay.serverTasks && s.relay.serverTasks[t].Accepted? && s.relay.serverTasks[t].via.Udp?
    ensures After(cfg, counter, more) == Some(s') && SameTimes(s, s') && SameWork(s, s')
    ensures var x := s.relay.serverTasks[t];
            && s'.relay.srv == s.relay.srv
            && s'.relay.serverTasks == s.relay.serverTasks[t := Noted(x.p, x.via, x.k)]
  {
    more, s' := Next(cfg, counter, steps, s, Relays(OnPacket(t, NoteConn)));
  }

  /** ... and forwards. */
  lemma {:induction false} PassOn(cfg: Config, counter: U64, steps: seq<TStep>, s: Timed, t: nat)
    returns (more: seq<TStep>, s': Timed)
    requires After(cfg, counter, steps) == Some(s) && t !in s.clocks && t !in s.written
    requires t in s.relay.serverTasks && s.relay.serverTasks[t].Registered?
    ensures After(cfg, counter, more) == Some(s') && SameTimes(s, s')
    ensures var x := s.relay.serverTasks[t];
            && SameWork(s.(relay := s.relay.(forwarded := s.relay.forwarded + [Forwarded(x.k, x.p)])), s')
            && s'.relay.srv == s.relay.srv && s'.relay.serverTasks == s.relay.serverTasks - {t}
  {
    more, s' := Next(cfg, counter, steps, s, Relays(OnPacket(t, ForwardPacket)));
  }

  lemma {:induction false} Finish(cfg: Config, counter: U64, steps: seq<TStep>, s: Timed, t: nat)
    returns (more: seq<TStep>, s': Timed)
    requires After(cfg, counter, steps) == Some(s) && Holds(s, t) && t in s.clocks && t !in s.written
    requires s.relay.serverTasks[t].via.Udp?
    requires var x := s.relay.serverTasks[t]; !S.IsDuplicate(s.relay.srv, x.k, x.p.q)
    ensures After(cfg, counter, more) == Some(s') && SameTimes(s, s') && Admits(s, t, s')
  {
    more, s' := CheckIn(cfg, counter, steps, s, t);
    more, s' := ListPath(cfg, counter, more, s', t);
    more, s' := PassOn(cfg, counter, more, s', t);
  }

  // ------------------------------------------------------ the sweep

  ghost predicate OneSession(s: Timed, id: U64) {
    && s.relay.srv.sessions.Keys == {id} && s.relay.srv.sessions[id] < |s.relay.srv.heap|
  }

  function Activity(s: Timed, id: U64): int
    requires OneSession(s, id)
  {
    s.relay.srv.heap[s.relay.srv.sessions[id]].lastActivity
  }

  /** The sweep of a tick reads the one stamp there is. */
  lemma {:induction false} SweepReads(cfg: Config, counter: U64, steps: seq<TStep>, s: Timed, id: U64)
    returns (more: seq<TStep>, s': Timed)
    requires After(cfg, counter, steps) == Some(s) && s.sweeper.Idle? && s.now == s.nextTick && OneSession(s, id)
    ensures After(cfg, counter, more) == Some(s')
    ensures var seen := Activity(s, id);
            var expired := if s.now - seen > cfg.timeout then map[id := Reading(seen, |s.writes|)] else map[];
            s' == s.(nextTick := s.nextTick + Interval(cfg.timeout), sweeper := Sweeping(s.now, {}, expired),
                     current := s'.current)
  {
    more, s' := Next(cfg, counter, steps, s, BeginSweep);
    more, s' := Next(cfg, counter, more, s', LockSessions);
    assert s'.sweeper == Sweeping(s.now, {id}, map[]);
    more, s' := Next(cfg, counter, more, s', ReadStamp(id));
    assert {id} - {id} == {};
  }

  lemma {:induction false} SweepKeeps(cfg: Config, counter: U64, steps: seq<TStep>, s: Timed, id: U64)
    returns (more: seq<TStep>, s': Timed)
    requires After(cfg, counter, steps) == Some(s) && s.sweeper.Idle? && s.now == s.nextTick && OneSession(s, id)
    requires s.now - Activity(s, id) <= cfg.timeout
    ensures After(cfg, counter, more) == Some(s')
    ensures s' == s.(nextTick := s.nextTick + Interval(cfg.timeout), current := s'.current)
  {
    more, s' := SweepReads(cfg, counter, steps, s, id);
    more, s' := Next(cfg, counter, more, s', EndSweep);
  }

  lemma NoneLeft<T(!new)>(m: map<U64, T>, id: U64)
    requires m.Keys == {id}
    ensures m - {id} == map[]
  {
  }

  /** What it read as idle it removes from the table, ... */
  lemma {:induction false} TakeOut(cfg: Config, counter: U64, steps: seq<TStep>, s: Timed, id: U64)
    returns (more: seq<TStep>, s': Timed)
    requires After(cfg, counter, steps) == Some(s) && OneSession(s, id)
    requires s.sweeper.Sweeping? && s.sweeper.todo == {} && s.sweeper.expired.Keys == {id}
    ensures After(cfg, counter, more) == Some(s')
    ensures s'.relay == s.relay.(srv := s.relay.srv.(sessions := map[]), log := s.relay.log + [Removed(id)])
    ensures s' == s.(relay := s'.relay, sweeper := Unlisting(s.sweeper.clock, {}, map[], id),
                     removals := s.removals +
                                 [Removal(s.relay.srv.sessions[id], s.sweeper.clock, s.sweeper.expired[id])])
  {
    NoneLeft(s.relay.srv.sessions, id);
    NoneLeft(s.sweeper.expired, id);
    ExpireIs(cfg, s, id);
    more, s' := Next(cfg, counter, steps, s, Expire(id));
  }

  /** ... and its paths from theirs. */
  lemma {:induction false} TakeOff(cfg: Config, counter: U64, steps: seq<TStep>, s: Timed)
    returns (more: seq<TStep>, s': Timed)
    requires After(cfg, counter, steps) == Some(s) && s.sweeper.Unlisting?
    ensures After(cfg, counter, more) == Some(s') && SameWork(s, s')
    ensures s'.sweeper == Sweeping(s.sweeper.clock, s.sweeper.todo, s.sweeper.expired)
    ensures s'.now == s.now && s'.late == s.late && s'.removals == s.removals
    ensures s'.relay.udpUp == s.relay.udpUp && s'.relay.serverTasks == s.relay.serverTasks
    ensures s'.relay.srv == s.relay.srv.(paths := s.relay.srv.paths - {s.sweeper.id})
  {
    UnlistIs(cfg, s);
    more, s' := Next(cfg, counter, steps, s, Unlist);
  }

  lemma {:induction false} SweepExpires(cfg: Config, counter: U64, steps: seq<TStep>, s: Timed, id: U64)
    returns (more: seq<TStep>, s': Timed)
    requires After(cfg, counter, steps) == Some(s) && s.sweeper.Idle? && s.now == s.nextTick && OneSession(s, id)
    requires s.now - Activity(s, id) > cfg.timeout
    ensures After(cfg, counter, more) == Some(s') && SameWork(s, s')
    ensures s'.now == s.now && s'.late == s.late && s'.sweeper == Unlisting(s.now, {}, map[], id)
    ensures s'.relay.udpUp == s.relay.udpUp && s'.relay.serverTasks == s.relay.serverTasks
    ensures s'.relay.srv == s.relay.srv.(sessions := map[])
    ensures s'.removals ==
            s.removals + [Removal(s.relay.srv.sessions[id], s.now, Reading(Activity(s, id), |s.writes|))]
  {
    more, s' := SweepReads(cfg, counter, steps, s, id);
    more, s' := TakeOut(cfg, counter, more, s', id);
  }

  lemma {:induction false} SweepRemoves(cfg: Config, counter: U64, steps: seq<TStep>, s: Timed, id: U64)
    returns (more: seq<TStep>, s': Timed)
    requires After(cfg, counter, steps) == Some(s) && s.sweeper.Idle? && s.now == s.nextTick && OneSession(s, id)
    requires s.now - Activity(s, id) > cfg.timeout
    ensures After(cfg, counter, more) == Some(s') && SameWork(s, s')
    ensures s'.now == s.now && s'.sweeper.Idle? && s'.late == s.late && s'.relay.udpUp == s.relay.udpUp
    ensures s'.relay.serverTasks == s.relay.serverTasks
    ensures s'.relay.srv == s.relay.srv.(sessions := map[], paths := s.relay.srv.paths - {id})
    ensures s'.removals ==
            s.removals + [Removal(s.relay.srv.sessions[id], s.now, Reading(Activity(s, id), |s.writes|))]
  {
    more, s' := SweepExpires(cfg, counter, steps, s, id);
    more, s' := TakeOff(cfg, counter, more, s');
    more, s' := Next(cfg, counter, more, s', EndSweep);
  }

  /** Left alone, the session expires on some tick; `early` is how long before it to stop. */
  lemma {:induction false} Idle(cfg: Config, counter: U64, steps: seq<TStep>, s: Timed, id: U64, early: nat)
    returns (more: seq<TStep>, s': Timed)
    requires After(cfg, counter, steps) == Some(s) && s.sweeper.Idle? && OneSession(s, id) && !s.late
    requires s.now == s.nextTick && early < 100 && s.now - Activity(s, id) <= cfg.timeout
    ensures After(cfg, counter, more) == Some(s')
    ensures s' == s.(now := s'.now, nextTick := s'.nextTick, current := s'.current)
    ensures s'.now + early == s'.nextTick && s'.nextTick - Activity(s, id) > cfg.timeout && s'.now >= s.now
    decreases cfg.timeout + Activity(s, id) - s.now
  {
    var d := Interval(cfg.timeout);
    more, s' := SweepKeeps(cfg, counter, steps, s, id);
    if s.nextTick + d - Activity(s, id) > cfg.timeout {
      more, s' := Next(cfg, counter, more, s', Wait(d - early));
    } else {
      more, s' := Next(cfg, counter, more, s', Wait(d));
      more, s' := Idle(cfg, counter, more, s', id, early);
    }
  }

  // ------------------------------------------------------ the two races

  /** Two packets of one source are on their way, and the server has heard of neither. */
  lemma Begin(cfg: Config, counter: U64, payload: Bytes) returns (steps: seq<TStep>, s: Timed, p: Pkt, q: Pkt)
    ensures After(cfg, counter, steps) == Some(s)
    ensures p == Pkt(Draw(counter).id, 5, payload, 0) && q == Pkt(Draw(counter).id, 6, payload, 1)
    ensures Msg(Encode(p.id, p.q, p.payload), p.origin) in s.relay.udpUp
    ensures Msg(Encode(q.id, q.q, q.payload), q.origin) in s.relay.udpUp
    ensures s == Start(counter).(relay := s.relay)
    ensures s.relay.srv == S.EMPTY && s.relay.serverTasks == map[]
    ensures s.relay.forwarded == [] && s.relay.checks == []
  {
    p, q := Pkt(Draw(counter).id, 5, payload, 0), Pkt(Draw(counter).id, 6, payload, 1);
    var r, u := RelayWitness.SecondLeaves(cfg.window, counter, 7, payload);
    steps := Lift(cfg, counter, r, u);
    s := Start(counter).(relay := u);
  }

  lemma NewNumbers(size: nat)
    ensures !Windows.Step(Windows.New(size), 5).duplicate && !Windows.Step(Windows.New(size), 6).duplicate
    ensures !Windows.Step(Windows.Step(Windows.New(size), 5).window, 6).duplicate
  {
  }

  /** Incarnation 0 lives and is about to expire; a handler holds it and packet `q`. */
  lemma CaughtBySweep(cfg: Config, counter: U64, payload: Bytes)
    returns (steps: seq<TStep>, s: Timed, q: Pkt, first: Forwarded)
    requires ValidConfig(cfg)
    ensures After(cfg, counter, steps) == Some(s) && s.sweeper.Idle? && !s.late && s.now == s.nextTick
    ensures q == Pkt(Draw(counter).id, 6, payload, 1) && OneSession(s, q.id) && s.relay.srv.sessions[q.id] == 0
    ensures Msg(Encode(q.id, q.q, q.payload), q.origin) in s.relay.udpUp
    ensures s.now - Activity(s, q.id) > cfg.timeout && |s.relay.srv.heap| == 1
    ensures s.relay.serverTasks == map[1 := Held(q, S.Udp(0, 9), 0)] && s.clocks == map[] && s.written == map[]
    ensures !S.IsDuplicate(s.relay.srv, 0, 6)
    ensures s.relay.forwarded == [first] && |s.relay.checks| == 1 && |s.stamps| == 1 && |s.writes| == 1
  {
    var p;
    NewNumbers(cfg.window);
    steps, s, p, q := Begin(cfg, counter, payload);
    steps, s := Reach(cfg, counter, steps, s, 0, p, 2, 9);
    steps, s := Look(cfg, counter, steps, s, 0);
    steps, s := Finish(cfg, counter, steps, s, 0);
    first := s.relay.forwarded[0];
    assert s.relay.srv.sessions == map[q.id := 0] && s.relay.srv.heap[0].lastActivity == 0;
    steps, s := Idle(cfg, counter, steps, s, q.id, 0);
    steps, s := Reach(cfg, counter, steps, s, 1, q, 0, 9);
  }

  /** The sweep removes incarnation 0, and a copy of `q` opens incarnation 1. */
  lemma OvertakenBySweep(cfg: Config, counter: U64, payload: Bytes)
    returns (steps: seq<TStep>, s: Timed, q: Pkt, first: Forwarded)
    requires ValidConfig(cfg)
    ensures After(cfg, counter, steps) == Some(s) && s.sweeper.Idle? && !s.late
    ensures s.relay.srv.sessions == map[q.id := 1] && |s.relay.srv.heap| == 2 && !S.IsDuplicate(s.relay.srv, 0, q.q)
    ensures S.PathsOf(s.relay.srv, q.id) == [S.Udp(1, 9)]
    ensures s.relay.serverTasks == map[1 := Held(q, S.Udp(0, 9), 0)] && s.clocks == map[] && s.written == map[]
    ensures s.relay.forwarded == [first, Forwarded(1, q)]
    ensures |s.relay.checks| == |s.stamps| == 2
    ensures s.relay.checks[1] == Check(1, q, true) && s.stamps[1].at == s.now
  {
    steps, s, q, first := CaughtBySweep(cfg, counter, payload);
    NewNumbers(cfg.window);
    steps, s := SweepRemoves(cfg, counter, steps, s, q.id);
    steps, s := Reach(cfg, counter, steps, s, 2, q, 1, 9);
    steps, s := Look(cfg, counter, steps, s, 2);
    steps, s := Finish(cfg, counter, steps, s, 2);
  }

  /** A copy held over the sweep: for every window and timeout there is a run in which the sweep
      removes an incarnation that a handler has already looked up; another copy of the packet
      opens the next incarnation and is forwarded by it; then the handler stamps, checks and
      forwards the same packet, in the same millisecond and while the next incarnation is live,
      whose path list holds a listener it accepted nothing from. */
  lemma HeldOverTheSweep(cfg: Config, counter: U64, payload: Bytes) returns (steps: seq<TStep>, q: Pkt)
    requires ValidConfig(cfg)
    ensures After(cfg, counter, steps).Some?
    ensures var s := After(cfg, counter, steps).value;
            && !s.late && |s.relay.forwarded| == 3 && |s.stamps| == |s.relay.checks| == 3
            && s.relay.forwarded[1] == Forwarded(1, q) && s.relay.forwarded[2] == Forwarded(0, q)
            && s.relay.checks[1] == Check(1, q, true) && s.relay.checks[2] == Check(0, q, true)
            && s.stamps[1].at == s.stamps[2].at
            && s.relay.srv.sessions == map[q.id := 1]
            && S.PathsOf(s.relay.srv, q.id) == [S.Udp(1, 9), S.Udp(0, 9)]
  {
    var s, first;
    steps, s, q, first := OvertakenBySweep(cfg, counter, payload);
    SecondListener(1, 0, 9);
    steps, s := Look(cfg, counter, steps, s, 1);
    steps, s := Finish(cfg, counter, steps, s, 1);
  }

  lemma SecondListener(l: nat, m: nat, from: Addr)
    requires l != m
    ensures S.WithUdp([S.Udp(l, from)], m, from) == [S.Udp(l, from), S.Udp(m, from)]
  {
    assert S.WithUdp([], m, from) == [S.Udp(m, from)];
    assert [S.Udp(l, from)][1..] == [];
  }

  /** A handler opened incarnation 0 at time 0, read the clock, and holds packet `q`; its session
      expires in a millisecond. */
  lemma ReadLongAgo(cfg: Config, counter: U64, payload: Bytes)
    returns (steps: seq<TStep>, s: Timed, p: Pkt, q: Pkt)
    requires ValidConfig(cfg)
    ensures After(cfg, counter, steps) == Some(s) && s.sweeper.Idle? && !s.late && s.now + 1 == s.nextTick
    ensures p.q == 5 && q.q == 6 && p.id == q.id && s.relay.srv.sessions == map[p.id := 0]
    ensures Msg(Encode(p.id, p.q, p.payload), p.origin) in s.relay.udpUp
    ensures |s.relay.srv.heap| == 1 && s.relay.srv.heap[0].window == Windows.New(cfg.window)
    ensures s.relay.serverTasks == map[0 := Held(q, S.Udp(0, 9), 0)] && s.clocks == map[0 := 0] && s.written == map[]
    ensures s.nextTick > cfg.timeout && s.removals == []
    ensures s.relay.checks == [] && s.stamps == [] && s.writes == []
  {
    steps, s, p, q := Begin(cfg, counter, payload);
    steps, s := Reach(cfg, counter, steps, s, 0, q, 0, 9);
    steps, s := Look(cfg, counter, steps, s, 0);
    assert s.relay.srv.sessions == map[p.id := 0] && s.relay.srv.heap[0].lastActivity == 0;
    steps, s := Idle(cfg, counter, steps, s, p.id, 1);
  }

  /** In between incarnation 0 stamps and accepts `p`. */
  lemma StampHeldBack(cfg: Config, counter: U64, payload: Bytes)
    returns (steps: seq<TStep>, s: Timed, p: Pkt)
    requires ValidConfig(cfg)
    ensures After(cfg, counter, steps) == Some(s) && s.sweeper.Idle? && !s.late && s.now + 1 == s.nextTick
    ensures OneSession(s, p.id) && s.relay.srv.sessions[p.id] == 0 && |s.relay.srv.heap| == 1
    ensures Msg(Encode(p.id, p.q, p.payload), p.origin) in s.relay.udpUp && p.q == 5
    ensures s.relay.serverTasks.Keys == {0} && s.clocks == map[0 := 0] && s.written == map[]
    ensures var x := s.relay.serverTasks[0];
            x.Held? && x.k == 0 && x.via.Udp? && x.p.id == p.id && !S.IsDuplicate(s.relay.srv, 0, x.p.q)
    ensures s.nextTick > cfg.timeout && s.removals == []
    ensures s.relay.checks == [Check(0, p, true)] && s.stamps == [Stamp(s.now, 0)] && s.writes == [Write(0, s.now)]
  {
    var q;
    NewNumbers(cfg.window);
    steps, s, p, q := ReadLongAgo(cfg, counter, payload);
    steps, s := Reach(cfg, counter, steps, s, 1, p, 1, 9);
    steps, s := Look(cfg, counter, steps, s, 1);
    steps, s := Finish(cfg, counter, steps, s, 1);
    assert s.clocks == map[0 := 0];
  }

  /** The old stamp is written, and the sweep removes the incarnation for it. */
  lemma SweptByOldStamp(cfg: Config, counter: U64, payload: Bytes)
    returns (steps: seq<TStep>, s: Timed, p: Pkt)
    requires ValidConfig(cfg)
    ensures After(cfg, counter, steps) == Some(s) && s.sweeper.Idle? && !s.late
    ensures s.relay.srv.sessions == map[] && |s.relay.srv.heap| == 1
    ensures Msg(Encode(p.id, p.q, p.payload), p.origin) in s.relay.udpUp && p.q == 5
    ensures s.relay.serverTasks == map[] && s.clocks == map[] && s.written == map[]
    ensures |s.relay.checks| == |s.stamps| == |s.writes| == 2 && |s.removals| == 1
    ensures s.relay.checks[0] == Check(0, p, true) && s.stamps[0].at + 1 == s.now && s.stamps[0].write == 0
    ensures s.removals[0].k == 0 && s.removals[0].reading.before == 2
  {
    steps, s, p := StampHeldBack(cfg, counter, payload);
    steps, s := Finish(cfg, counter, steps, s, 0);
    assert Activity(s, p.id) == 0;
    steps, s := Next(cfg, counter, steps, s, TStep.Wait(1));
    steps, s := SweepRemoves(cfg, counter, steps, s, p.id);
  }

  /** An old stamp written over a new one: for every window and timeout there is a run in which a
      packet is accepted, and its stamp written, before the sweep reads it; but another handler
      writes an older clock reading over it, and the packet is accepted again a millisecond
      later.  So that the stamp came before the sweep is not enough. */
  lemma OldStampOverNew(cfg: Config, counter: U64, payload: Bytes) returns (steps: seq<TStep>, p: Pkt)
    requires ValidConfig(cfg)
    ensures After(cfg, counter, steps).Some?
    ensures var s := After(cfg, counter, steps).value;
            && !s.late && |s.stamps| == |s.relay.checks| == 3 && |s.removals| == 1
            && s.relay.checks[0] == Check(0, p, true) && s.relay.checks[2] == Check(1, p, true)
            && s.removals[0].k == 0 && s.stamps[0].write < s.removals[0].reading.before
            && s.stamps[2].at == s.stamps[0].at + 1
  {
    var s;
    NewNumbers(cfg.window);
    steps, s, p := SweptByOldStamp(cfg, counter, payload);
    steps, s := Reach(cfg, counter, steps, s, 2, p, 1, 9);
    steps, s := Look(cfg, counter, steps, s, 2);
    steps, s := Finish(cfg, counter, steps, s, 2);
  }
}
