/** The sweep at lock boundaries leaves nothing idle behind: what it does not remove, it read as
    not idle. */
module RelaySweeps {
  import opened Bounded
  import opened Relay
  import opened RelayClock
  import opened RelayTiming

  /** A sweep with this clock read the stamp of incarnation `k`, after so many writes, and found
      it no older than the timeout. */
  predicate ReadFresh(cfg: Config, born: seq<nat>, writes: seq<Write>, k: nat, clock: nat, r: Reading) {
    && k < |born| && clock - r.seen <= cfg.timeout
    && r.before <= |writes| && r.seen == LastWrite(writes[..r.before], k, born[k])
  }

  /** Session `id` has not been read yet, or is about to be removed, or was read as not idle. */
  predicate Accounted(cfg: Config, w: Sweeper, current: map<U64, Reading>, sessions: map<U64, nat>,
                      born: seq<nat>, writes: seq<Write>, id: U64)
    requires w.Sweeping? || w.Unlisting?
    requires id in sessions
  {
    || id in w.todo || id in w.expired
    || (id in current && ReadFresh(cfg, born, writes, sessions[id], w.clock, current[id]))
  }

  ghost predicate CompleteOk(cfg: Config, w: Sweeper, current: map<U64, Reading>, sessions: map<U64, nat>,
                             born: seq<nat>, writes: seq<Write>)
  {
    w.Sweeping? || w.Unlisting? ==> forall id <- sessions :: Accounted(cfg, w, current, sessions, born, writes, id)
  }

  ghost predicate Complete(cfg: Config, s: Timed) {
    CompleteOk(cfg, s.sweeper, s.current, s.relay.srv.sessions, s.born, s.writes)
  }

  lemma HistoriesKeepComplete(cfg: Config, w: Sweeper, current: map<U64, Reading>, sessions: map<U64, nat>,
                              born: seq<nat>, writes: seq<Write>, born': seq<nat>, writes': seq<Write>)
    requires CompleteOk(cfg, w, current, sessions, born, writes) && born <= born' && writes <= writes'
    ensures CompleteOk(cfg, w, current, sessions, born', writes')
  {
    if w.Sweeping? || w.Unlisting? {
      forall id <- sessions ensures Accounted(cfg, w, current, sessions, born', writes', id) {
        assert Accounted(cfg, w, current, sessions, born, writes, id);
        if id !in w.todo && id !in w.expired {
          assert writes'[..current[id].before] == writes[..current[id].before];
        }
      }
    }
  }

  /** Under the lock nobody creates or removes sessions but the sweep. */
  lemma TableIsLocked(window: nat, s: Timed, x: Step)
    requires Enabled(s.relay, x) && Timely(s, x) && Locked(s)
    ensures Apply(window, s.relay, x).srv.sessions == s.relay.srv.sessions
  {
    match x
    case OnSource(t, y) => SourceFrame(s.relay, t, y);
    case OnResponse(t, y) => ResponseFrame(s.relay, t, y);
    case OnPacket(t, y) => PacketStamps(window, s.relay, t, y);
    case OnAnswer(t, y) => AnswerFrame(s.relay, t, y);
    case OnSweep(y) => ClientSweepStays(s.relay, y);
  }

  lemma RelayKeepsComplete(cfg: Config, s: Timed, x: Step)
    requires Complete(cfg, s) && TEnabled(s, Relays(x))
    ensures Complete(cfg, TApply(cfg, s, Relays(x)))
  {
    var s' := TApply(cfg, s, Relays(x));
    if Locked(s) {
      TableIsLocked(cfg.window, s, x);
      HistoriesKeepComplete(cfg, s.sweeper, s.current, s.relay.srv.sessions, s.born, s.writes, s'.born, s'.writes);
    }
  }

  lemma WriteKeepsComplete(cfg: Config, s: Timed, step: TStep)
    requires Complete(cfg, s) && TEnabled(s, step) && (step.WriteStamp? || step.TargetStamps?)
    ensures Complete(cfg, TApply(cfg, s, step))
  {
    var s' := TApply(cfg, s, step);
    HistoriesKeepComplete(cfg, s.sweeper, s.current, s.relay.srv.sessions, s.born, s.writes, s'.born, s'.writes);
  }

  lemma ReadKeepsComplete(cfg: Config, s: Timed, id: U64)
    requires TimedOk(cfg, s) && Complete(cfg, s) && TEnabled(s, ReadStamp(id))
    ensures Complete(cfg, TApply(cfg, s, ReadStamp(id)))
  {
    var s' := TApply(cfg, s, ReadStamp(id));
    var k := s.relay.srv.sessions[id];
    assert s.writes[..|s.writes|] == s.writes;
    assert s.relay.srv.heap[k].lastActivity == LastWrite(s.writes, k, s.born[k]);
    forall i <- s.relay.srv.sessions
      ensures Accounted(cfg, s'.sweeper, s'.current, s.relay.srv.sessions, s.born, s.writes, i)
    {
      assert Accounted(cfg, s.sweeper, s.current, s.relay.srv.sessions, s.born, s.writes, i);
    }
  }

  lemma ExpireKeepsComplete(cfg: Config, s: Timed, id: U64)
    requires Complete(cfg, s) && TEnabled(s, Expire(id))
    ensures Complete(cfg, TApply(cfg, s, Expire(id)))
  {
    ExpireIs(cfg, s, id);
    RemoveEffect(s.relay, id);
    var s' := TApply(cfg, s, Expire(id));
    forall i <- s'.relay.srv.sessions
      ensures Accounted(cfg, s'.sweeper, s'.current, s'.relay.srv.sessions, s'.born, s'.writes, i)
    {
      assert Accounted(cfg, s.sweeper, s.current, s.relay.srv.sessions, s.born, s.writes, i);
    }
  }

  lemma UnlistKeepsComplete(cfg: Config, s: Timed)
    requires Complete(cfg, s) && TEnabled(s, Unlist)
    ensures Complete(cfg, TApply(cfg, s, Unlist))
  {
    UnlistIs(cfg, s);
    var s' := TApply(cfg, s, Unlist);
    forall i <- s'.relay.srv.sessions
      ensures Accounted(cfg, s'.sweeper, s'.current, s'.relay.srv.sessions, s'.born, s'.writes, i)
    {
      assert Accounted(cfg, s.sweeper, s.current, s.relay.srv.sessions, s.born, s.writes, i);
    }
  }

  lemma StepKeepsComplete(cfg: Config, s: Timed, step: TStep)
    requires TimedOk(cfg, s) && Complete(cfg, s) && TEnabled(s, step)
    ensures Complete(cfg, TApply(cfg, s, step))
  {
    match step
    case Relays(x) => RelayKeepsComplete(cfg, s, x);
    case WriteStamp(_) => WriteKeepsComplete(cfg, s, step);
    case TargetStamps(_, _) => WriteKeepsComplete(cfg, s, step);
    case ReadStamp(id) => ReadKeepsComplete(cfg, s, id);
    case Expire(id) => ExpireKeepsComplete(cfg, s, id);
    case Unlist => UnlistKeepsComplete(cfg, s);
    case _ =>
  }

  lemma {:induction false} RunsAreComplete(cfg: Config, counter: U64, steps: seq<TStep>)
    requires After(cfg, counter, steps).Some?
    ensures Complete(cfg, After(cfg, counter, steps).value)
  {
    if steps != [] {
      var n := |steps| - 1;
      RunsAreTimed(cfg, counter, steps[..n]);
      RunsAreComplete(cfg, counter, steps[..n]);
      StepKeepsComplete(cfg, After(cfg, counter, steps[..n]).value, steps[n]);
    }
  }

  /** Sweep exactness at lock boundaries: when a sweep ends, in whatever run, every session in the
      table had a stamp it read as no older than the timeout by its clock; that it removed only
      what it read as older is in `RelayRepeats.ActiveIncarnationsSurvive`. */
  lemma {:induction false} NothingIdleIsLeft(cfg: Config, counter: U64, steps: seq<TStep>, id: U64)
    requires After(cfg, counter, steps).Some? && TEnabled(After(cfg, counter, steps).value, EndSweep)
    requires id in After(cfg, counter, steps).value.relay.srv.sessions
    ensures var s := After(cfg, counter, steps).value;
            id in s.current &&
            ReadFresh(cfg, s.born, s.writes, s.relay.srv.sessions[id], s.sweeper.clock, s.current[id])
  {
    RunsAreComplete(cfg, counter, steps);
    var s := After(cfg, counter, steps).value;
    assert Accounted(cfg, s.sweeper, s.current, s.relay.srv.sessions, s.born, s.writes, id);
  }
}
