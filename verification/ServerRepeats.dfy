/** When the server forwards a packet again, where every handler and the sweep run whole: exactly
    when, how far apart, and that it happens.  `RelayRepeats` has the same at lock boundaries. */
module ServerRepeats {
  import opened Bounded
  import opened Windows
  import opened Clock
  import SS = ServerState
  import opened ServerState
  import opened ServerRuns

  /** The numbers incarnation `k` has accepted. */
  function AcceptedBy(log: seq<Delivered>, k: nat): set<U32> {
    set e | e in log && e.session == k :: e.q
  }

  /** Every window is what its incarnation has accepted, cut at the minimum. */
  ghost predicate HeapFaithful(heap: seq<TargetSession>, log: seq<Delivered>) {
    && (forall k | 0 <= k < |heap| :: Faithful(heap[k].window, AcceptedBy(log, k)))
    && (forall e <- log :: e.session < |heap|)
  }

  ghost predicate WindowsFaithful(r: Run) {
    HeapFaithful(r.srv.heap, r.log)
  }

  lemma AcceptedGrows(log: seq<Delivered>, e: Delivered, k: nat)
    ensures AcceptedBy(log + [e], k) == AcceptedBy(log, k) + (if e.session == k then {e.q} else {})
  {
  }

  /** Only window `k` moves, from `w`, by the number of `e`. */
  ghost predicate Moves(a: seq<TargetSession>, b: seq<TargetSession>, w: Window, e: Delivered) {
    var k := e.session;
    && Sound(w) && (if k < |a| then w == a[k].window && |b| == |a| else k == |a| && !w.started && |b| == |a| + 1)
    && b[k].window == Windows.Step(w, e.q).window
    && (forall j | 0 <= j < |a| && j != k :: b[j].window == a[j].window)
  }

  /** The one window a packet touches. */
  lemma OnPacketMoves(s: SS.State, id: U64, q: U32, via: Path, connected: bool, size: nat, now: nat)
    returns (w: Window, e: Delivered)
    requires WellFormed(s) && size >= 1
    ensures var h := OnPacket(s, id, q, via, connected, size, now);
            if h.verdict.NoSession? then h.state.heap == s.heap
            else
              && Moves(s.heap, h.state.heap, w, e) && e == Delivered(id, q, h.verdict.session, via, now)
              && (h.verdict.Forward? <==> !Windows.Step(w, q).duplicate)
  {
    var f := FindOrCreate(s, id, connected, size, now);
    w, e := New(size), Delivered(id, q, |s.heap|, via, now);
    if f.session.Some? {
      w := f.state.heap[f.session.value].window;
      e := e.(session := f.session.value);
    }
  }

  lemma MoveKeepsFaithful(a: seq<TargetSession>, b: seq<TargetSession>, log: seq<Delivered>, w: Window, e: Delivered)
    requires HeapFaithful(a, log) && Moves(a, b, w, e)
    ensures HeapFaithful(b, if Windows.Step(w, e.q).duplicate then log else log + [e])
  {
    if e.session == |a| {
      assert AcceptedBy(log, |a|) == {};
    }
    FaithfulStep(w, AcceptedBy(log, e.session), e.q);
    var log' := if Windows.Step(w, e.q).duplicate then log else log + [e];
    forall j | 0 <= j < |b| ensures Faithful(b[j].window, AcceptedBy(log', j)) {
      AcceptedGrows(log, e, j);
      if j == e.session {
        assert AcceptedBy(log', j) ==
               if Windows.Step(w, e.q).duplicate then AcceptedBy(log, j) else AcceptedBy(log, j) + {e.q};
      } else {
        assert AcceptedBy(log', j) == AcceptedBy(log, j) && Faithful(a[j].window, AcceptedBy(log, j));
      }
    }
  }

  lemma PacketKeepsFaithful(cfg: Config, r: Run, step: Step)
    requires ValidConfig(cfg) && WellFormed(r.srv) && WindowsFaithful(r) && step.Packet? && Enabled(r, step)
    ensures WindowsFaithful(Apply(cfg, r, step))
  {
    var r' := Apply(cfg, r, step);
    var w, e := OnPacketMoves(r.srv, step.id, step.q, step.via, step.connected, cfg.window, r.now);
    if r'.srv.heap != r.srv.heap {
      MoveKeepsFaithful(r.srv.heap, r'.srv.heap, r.log, w, e);
    }
  }

  lemma StepKeepsFaithful(cfg: Config, r: Run, step: Step)
    requires ValidConfig(cfg) && WellFormed(r.srv) && WindowsFaithful(r) && Enabled(r, step)
    ensures WindowsFaithful(Apply(cfg, r, step))
  {
    if step.Packet? {
      PacketKeepsFaithful(cfg, r, step);
    } else {
      var r' := Apply(cfg, r, step);
      assert |r'.srv.heap| == |r.srv.heap|;
      assert forall k | 0 <= k < |r.srv.heap| :: r'.srv.heap[k].window == r.srv.heap[k].window;
    }
  }

  lemma {:induction false} RunsAreFaithful(cfg: Config, steps: seq<Step>)
    requires ValidConfig(cfg) && After(cfg, steps).Some?
    ensures WindowsFaithful(After(cfg, steps).value)
  {
    if steps != [] {
      var n := |steps| - 1;
      RunsHold(cfg, steps[..n]);
      RunsAreFaithful(cfg, steps[..n]);
      StepKeepsFaithful(cfg, After(cfg, steps[..n]).value, steps[n]);
    }
  }

  /** When a packet is forwarded, in terms of what happened before: no session is live and one
      can be created, or the live incarnation has not accepted the number and is not past it. */
  lemma {:induction false} ForwardsExactlyWhen(cfg: Config, steps: seq<Step>, id: U64, q: U32, via: Path,
                                               connected: bool)
    requires ValidConfig(cfg) && After(cfg, steps).Some?
    ensures var r := After(cfg, steps).value;
            && WellFormed(r.srv)
            && (OnPacket(r.srv, id, q, via, connected, cfg.window, r.now).verdict.Forward? <==>
                  if id in r.srv.sessions then
                    var k := r.srv.sessions[id];
                    q !in AcceptedBy(r.log, k) && !(r.srv.heap[k].window.started && q < r.srv.heap[k].window.min)
                  else connected)
  {
    RunsHold(cfg, steps);
    RunsAreFaithful(cfg, steps);
    var r := After(cfg, steps).value;
    if id in r.srv.sessions {
      var k := r.srv.sessions[id];
      assert Faithful(r.srv.heap[k].window, AcceptedBy(r.log, k));
      StepRejects(r.srv.heap[k].window, q, q);
    }
  }

  /** Every entry is remembered by its incarnation, which stays live for the timeout at least. */
  ghost predicate Remembers(cfg: Config, r: Run) {
    && (forall e <- r.log :: e.at <= r.now && (r.now - e.at <= cfg.timeout ==> LiveSince(r.srv, e.id, e.session, e.at)))
    && (forall i, j | 0 <= i < j < |r.log| :: FarApart(cfg, r.log[i], r.log[j]))
  }

  predicate FarApart(cfg: Config, e: Delivered, f: Delivered) {
    e.id == f.id && e.q == f.q ==> e.session != f.session && f.at - e.at > cfg.timeout
  }

  lemma StepKeepsEntry(cfg: Config, r: Run, step: Step, e: Delivered)
    requires ValidConfig(cfg) && WellFormed(r.srv) && Enabled(r, step)
    requires e.at <= r.now && (r.now - e.at <= cfg.timeout ==> LiveSince(r.srv, e.id, e.session, e.at))
    ensures var r' := Apply(cfg, r, step);
            e.at <= r'.now && (r'.now - e.at <= cfg.timeout ==> LiveSince(r'.srv, e.id, e.session, e.at))
  {
    if Apply(cfg, r, step).now - e.at <= cfg.timeout {
      StepKeepsAlive(cfg, r, step, e.id, e.session, e.at);
    }
  }

  /** The entry a packet adds is for the live incarnation, which had not accepted the number. */
  lemma NewEntry(cfg: Config, r: Run, step: Step)
    requires ValidConfig(cfg) && WellFormed(r.srv) && WindowsFaithful(r) && Enabled(r, step)
    ensures var r' := Apply(cfg, r, step);
            && r.log <= r'.log && |r'.log| <= |r.log| + 1
            && (r'.log != r.log ==>
                  var f := r'.log[|r.log|];
                  && f.at == r.now == r'.now && LiveSince(r'.srv, f.id, f.session, f.at)
                  && (f.id in r.srv.sessions ==> r.srv.sessions[f.id] == f.session)
                  && f.q !in AcceptedBy(r.log, f.session))
  {
    if step.Packet? {
      var u, k := OnPacketCases(r.srv, step.id, step.q, step.via, step.connected, cfg.window, r.now);
      if step.id in r.srv.sessions {
        assert Faithful(r.srv.heap[k].window, AcceptedBy(r.log, k));
      }
    }
  }

  lemma StepKeepsRemembers(cfg: Config, r: Run, step: Step)
    requires ValidConfig(cfg) && WellFormed(r.srv) && WindowsFaithful(r) && Remembers(cfg, r) && Enabled(r, step)
    ensures Remembers(cfg, Apply(cfg, r, step))
  {
    var r' := Apply(cfg, r, step);
    NewEntry(cfg, r, step);
    forall e | e in r'.log
      ensures e.at <= r'.now && (r'.now - e.at <= cfg.timeout ==> LiveSince(r'.srv, e.id, e.session, e.at))
    {
      if e in r.log { StepKeepsEntry(cfg, r, step, e); }
    }
    forall i, j | 0 <= i < j < |r'.log| ensures FarApart(cfg, r'.log[i], r'.log[j]) {
      assert r'.log[i] == r.log[i] && r.log[i] in r.log;
      if j < |r.log| {
        assert r'.log[j] == r.log[j];
      }
    }
  }

  lemma {:induction false} RunsRemember(cfg: Config, steps: seq<Step>)
    requires ValidConfig(cfg) && After(cfg, steps).Some?
    ensures Remembers(cfg, After(cfg, steps).value)
  {
    if steps != [] {
      var n := |steps| - 1;
      RunsHold(cfg, steps[..n]);
      RunsAreFaithful(cfg, steps[..n]);
      RunsRemember(cfg, steps[..n]);
      StepKeepsRemembers(cfg, After(cfg, steps[..n]).value, steps[n]);
    }
  }

  /** At most once, in time, where handlers and sweep run whole: in every run, two packets forwarded
      with the same id and number were accepted by different incarnations, and more than the
      timeout apart. */
  lemma RepeatsAreFarApart(cfg: Config, steps: seq<Step>, i: nat, j: nat)
    requires ValidConfig(cfg) && After(cfg, steps).Some?
    requires i < j < |After(cfg, steps).value.log|
    ensures var log := After(cfg, steps).value.log;
            log[i].id == log[j].id && log[i].q == log[j].q ==>
              log[i].session != log[j].session && log[j].at - log[i].at > cfg.timeout
  {
    RunsRemember(cfg, steps);
    assert FarApart(cfg, After(cfg, steps).value.log[i], After(cfg, steps).value.log[j]);
  }

  // ------------------------------------------------------ repeats do happen

  /** Left alone, a session is swept in the end. */
  lemma {:induction false} Abandon(cfg: Config, steps: seq<Step>, r: Run, id: U64) returns (more: seq<Step>, r': Run)
    requires ValidConfig(cfg) && After(cfg, steps) == Some(r) && Holds(cfg, r)
    requires r.now == r.nextTick && r.srv.sessions.Keys == {id}
    ensures After(cfg, more) == Some(r') && Holds(cfg, r')
    ensures r'.srv.sessions == map[] && r'.log == r.log && r'.closed == r.closed
    decreases cfg.timeout + r.srv.heap[r.srv.sessions[id]].lastActivity - r.now
  {
    var last := r.srv.heap[r.srv.sessions[id]].lastActivity;
    more, r' := Then(cfg, steps, r, Tick);
    if r.now - last <= cfg.timeout {
      assert id !in Expired(r.srv, r.now, cfg.timeout);
      more, r' := Then(cfg, more, r', Wait(Interval(cfg.timeout)));
      more, r' := Abandon(cfg, more, r', id);
    }
  }

  /** A packet is forwarded, and its session is swept. */
  lemma ForwardedAndSwept(cfg: Config, id: U64, q: U32, via: Path) returns (steps: seq<Step>, r: Run, e: Delivered)
    requires ValidConfig(cfg)
    ensures After(cfg, steps) == Some(r) && r.srv.sessions == map[] && r.closed == {}
    ensures r.log == [e] && e.id == id && e.q == q && e.via == via
  {
    steps, r := Open(cfg, [], START, id, q, via);
    e := Delivered(id, q, 0, via, 0);
    assert r.log == [e] && r.srv.sessions == map[id := 0];
    steps, r := Abandon(cfg, steps, r, id);
  }

  /** At most once cannot be had across incarnations: for every window, timeout and packet there
      is a run in which the packet is forwarded, its session is swept after the timeout, and a
      late copy of it is forwarded again. */
  lemma RepeatHappens(cfg: Config, id: U64, q: U32, via: Path) returns (steps: seq<Step>)
    requires ValidConfig(cfg)
    ensures After(cfg, steps).Some?
    ensures var log := After(cfg, steps).value.log;
            |log| == 2 && forall e <- log :: e.id == id && e.q == q && e.via == via
  {
    var r, e;
    steps, r, e := ForwardedAndSwept(cfg, id, q, via);
    var f := Delivered(id, q, |r.srv.heap|, via, r.now);
    steps, r := Open(cfg, steps, r, id, q, via);
    assert r.log == [e, f];
  }
}
