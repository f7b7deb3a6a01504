/** At most once in time, under every interleaving with the sweep: how far apart two incarnations
    are, and so two acceptances of one packet. */
module RelayRepeats {
  import opened Bounded
  import Windows
  import opened Relay
  import opened RelayOrigins
  import opened RelayClaims
  import opened RelayChecks
  import opened RelaySafety
  import opened RelayExactlyOnce
  import opened RelayClock
  import opened RelayTiming
  import opened Counting

  /** The stamp of a check was written before the sweep read, and no older one over it. */
  predicate Covered(writes: seq<Write>, k: nat, st: Stamp, before: nat) {
    && st.write < before <= |writes|
    && forall n | st.write <= n < before && writes[n].k == k :: writes[n].at >= st.at
  }

  /** Then what the sweep read is no older than it. */
  lemma {:induction false} CoveredIsSeen(writes: seq<Write>, k: nat, st: Stamp, before: nat, birth: nat)
    requires Covered(writes, k, st, before) && writes[st.write] == Write(k, st.at)
    ensures LastWrite(writes[..before], k, birth) >= st.at
  {
    var cut := writes[..before];
    assert cut[|cut| - 1] == writes[before - 1] && cut[..|cut| - 1] == writes[..before - 1];
    if writes[before - 1].k != k {
      CoveredIsSeen(writes, k, st, before - 1, birth);
    }
  }

  /** A window admits a number once. */
  lemma {:induction false} AcceptedOnce(size: nat, ws: seq<Windows.Window>, checks: seq<Check>, i: nat, j: nat)
    requires size >= 1 && WindowsRun(size, ws, checks) && i < j < |checks|
    requires checks[i].k == checks[j].k && checks[i].p.q == checks[j].p.q
    ensures !(checks[i].accepted && checks[j].accepted)
  {
    var k := checks[i].k;
    var a, b := ChecksOf(checks[..i], k), ChecksOf(checks[..j], k);
    Position(checks, SessionOfCheck, k, j);
    assert checks[..j][..i] == checks[..i];
    Position(checks[..j], SessionOfCheck, k, i);
    assert Answered(size, checks, i) && Answered(size, checks, j);
    var calls := CallsOf(checks, k);
    assert calls[..|a|] == Numbers(a) && calls[..|b|] == Numbers(b);
    Windows.AtMostOnce(size, calls, |a|, |b|);
  }

  /** The id of a checked packet is that of its incarnation. */
  lemma {:induction false} CheckedId(cfg: Config, counter: U64, steps: seq<TStep>, i: nat)
    requires ValidConfig(cfg) && After(cfg, counter, steps).Some?
    requires i < |After(cfg, counter, steps).value.relay.checks|
    ensures var s := After(cfg, counter, steps).value.relay;
            s.checks[i].k < |s.srv.heap| && s.srv.heap[s.checks[i].k].id == s.checks[i].p.id
  {
    var r := IsARelayRun(cfg, counter, steps);
    RunsAreSafe(cfg.window, counter, r);
    var s := After(cfg, counter, steps).value.relay;
    assert CheckOk(H(s), s.checks[i]);
  }

  /** Between the acceptance `i` of an earlier incarnation and the clock reading of a handler that
      got a later one lies a sweep that removed the earlier one: it read the stamp of the earlier
      one, found it older than its own clock by more than the timeout, and had that clock no
      later than the handler its own.  Where it saw the stamp of `i`, the handlers are more than
      the timeout apart. */
  ghost predicate Apart(cfg: Config, s: Timed, i: nat, j: nat, r: Removal)
    requires i < |s.relay.checks| && j < |s.relay.checks| && |s.stamps| == |s.relay.checks|
  {
    && r in s.removals && r.k == s.relay.checks[i].k
    && r.clock - r.reading.seen > cfg.timeout && r.clock <= s.stamps[j].at
    && (Covered(s.writes, r.k, s.stamps[i], r.reading.before) ==> s.stamps[j].at - s.stamps[i].at > cfg.timeout)
  }

  lemma {:induction false} IncarnationsAreApart(cfg: Config, counter: U64, steps: seq<TStep>, i: nat, j: nat)
    returns (r: Removal)
    requires ValidConfig(cfg) && After(cfg, counter, steps).Some?
    requires var checks := After(cfg, counter, steps).value.relay.checks;
             && i < |checks| && j < |checks|
             && checks[i].p.id == checks[j].p.id && checks[i].k < checks[j].k
    ensures var s := After(cfg, counter, steps).value;
            |s.stamps| == |s.relay.checks| && Apart(cfg, s, i, j, r)
  {
    RunsAreTimed(cfg, counter, steps);
    CheckedId(cfg, counter, steps, i);
    CheckedId(cfg, counter, steps, j);
    var s := After(cfg, counter, steps).value;
    var k, l := s.relay.checks[i].k, s.relay.checks[j].k;
    assert StampOk(s.relay.checks[i], s.stamps[i], s.writes, s.born, s.now);
    assert StampOk(s.relay.checks[j], s.stamps[j], s.writes, s.born, s.now);
    assert RemovedBefore(s.removals, k, s.born[l]);
    r :| r in s.removals && r.k == k && r.clock <= s.born[l];
    assert ReadIdle(cfg, s.born, s.writes, r.k, r.clock, r.reading);
    if Covered(s.writes, k, s.stamps[i], r.reading.before) {
      CoveredIsSeen(s.writes, k, s.stamps[i], r.reading.before, s.born[k]);
    }
  }

  /** At most once, in time, at lock boundaries: in every run, whatever the interleaving, two
      acceptances of one id and number are by two incarnations, and a sweep lies in between as
      `Apart` says: more than the timeout apart if it saw the stamp of the first. */
  lemma {:induction false} RepeatsAreApart(cfg: Config, counter: U64, steps: seq<TStep>, i: nat, j: nat)
    returns (r: Removal)
    requires ValidConfig(cfg) && After(cfg, counter, steps).Some?
    requires var checks := After(cfg, counter, steps).value.relay.checks;
             && i < |checks| && j < |checks| && i != j
             && checks[i].accepted && checks[j].accepted
             && checks[i].p.id == checks[j].p.id && checks[i].p.q == checks[j].p.q
             && checks[i].k <= checks[j].k
    ensures var s := After(cfg, counter, steps).value;
            && s.relay.checks[i].k < s.relay.checks[j].k
            && |s.stamps| == |s.relay.checks| && Apart(cfg, s, i, j, r)
  {
    var s := After(cfg, counter, steps).value;
    var run := IsARelayRun(cfg, counter, steps);
    RunsAreChecked(cfg.window, counter, run);
    if s.relay.checks[i].k == s.relay.checks[j].k {
      AcceptedOnce(cfg.window, ServerWindows(s.relay.srv.heap), s.relay.checks,
                   if i < j then i else j, if i < j then j else i);
    }
    r := IncarnationsAreApart(cfg, counter, steps, i, j);
  }

  /** Active incarnations survive, at lock boundaries: in every run an incarnation is live, unless
      a sweep read its last stamp as older than the timeout; and every stamp that this sweep saw
      was then older than the timeout. */
  lemma {:induction false} ActiveIncarnationsSurvive(cfg: Config, counter: U64, steps: seq<TStep>, k: nat)
    returns (r: Removal)
    requires ValidConfig(cfg) && After(cfg, counter, steps).Some?
    requires k < |After(cfg, counter, steps).value.relay.srv.heap|
    ensures var s := After(cfg, counter, steps).value;
            IsLive(s.relay.srv.heap, s.relay.srv.sessions, k) || (
              && r in s.removals && r.k == k && k < |s.born| && r.clock <= s.now
              && ReadIdle(cfg, s.born, s.writes, k, r.clock, r.reading)
              && forall n: nat | n < |s.writes| && s.writes[n].k == k &&
                                 Covered(s.writes, k, Stamp(s.writes[n].at, n), r.reading.before) ::
                   r.clock - s.writes[n].at > cfg.timeout)
  {
    RunsAreTimed(cfg, counter, steps);
    var s := After(cfg, counter, steps).value;
    r := Removal(0, 0, Reading(0, 0));
    if !IsLive(s.relay.srv.heap, s.relay.srv.sessions, k) {
      r :| r in s.removals && r.k == k && r.clock <= s.now;
      forall n: nat | n < |s.writes| && s.writes[n].k == k &&
                      Covered(s.writes, k, Stamp(s.writes[n].at, n), r.reading.before)
        ensures r.clock - s.writes[n].at > cfg.timeout
      {
        CoveredIsSeen(s.writes, k, Stamp(s.writes[n].at, n), r.reading.before, s.born[k]);
      }
    }
  }
}
