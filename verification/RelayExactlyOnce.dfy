/** Exactly once from the client's counter to the target's socket, and when a packet can be
    forwarded again. */
module RelayExactlyOnce {
  import opened Bounded
  import Windows
  import Delivery
  import SessionIds
  import C = ClientState
  import S = ServerState
  import opened Relay
  import opened RelayOrigins
  import opened RelayClaims
  import opened RelayChecks
  import opened RelaySafety
  import opened Counting

  lemma {:induction false} RunsAreChecked(window: nat, start: U64, steps: seq<Step>)
    requires Run(window, start, steps).Some?
    ensures ServerChecked(window, Run(window, start, steps).value)
    ensures ClientChecked(Run(window, start, steps).value)
  {
    if steps != [] {
      var n := |steps| - 1;
      RunsAreChecked(window, start, steps[..n]);
      var s := Run(window, start, steps[..n]).value;
      ServerKeepsRun(window, s, steps[n]);
      ServerKeepsAll(window, s, steps[n]);
      ClientKeepsRun(window, s, steps[n]);
      ClientKeepsAll(window, s, steps[n]);
    }
  }

  // -------------------------------------------------------------- once again

  /** Number `q` is new to incarnation `k`: not accepted by it, and not below its window. */
  ghost predicate NewTo(window: nat, s: State, k: nat, q: U32) {
    var calls := CallsOf(s.checks, k);
    calls == [] || (q !in Windows.Accepted(window, calls) && q >= Windows.Run(window, calls).min)
  }

  lemma {:induction false} RejectsExactlyWhen(window: nat, s: State, k: nat, q: U32)
    requires window >= 1 && WindowsRun(window, ServerWindows(s.srv.heap), s.checks) && k < |s.srv.heap|
    ensures Windows.Step(s.srv.heap[k].window, q).duplicate <==> !NewTo(window, s, k, q)
    ensures Windows.Rejects(s.srv.heap[k].window, q) <==> !NewTo(window, s, k, q)
  {
    var calls := CallsOf(s.checks, k);
    Windows.RunIsSound(window, calls);
    Windows.StepRejects(Windows.Run(window, calls), q, q);
    if calls != [] {
      Windows.RunRefinesHistory(window, calls);
    }
  }

  /** When a copy of a forwarded packet that arrives now, by whatever path, and is handled without
      interruption, is forwarded again: exactly when the session is gone and a new one can be
      created, or another incarnation is live and the number is new to that one. */
  lemma {:induction false} ForwardedAgainExactlyWhen(window: nat, start: U64, steps: seq<Step>, f: Forwarded,
                                                     via: S.Path, connected: bool, now: int)
    requires window >= 1 && Run(window, start, steps).Some?
    requires f in Run(window, start, steps).value.forwarded
    ensures var s := Run(window, start, steps).value;
            && S.WellFormed(s.srv)
            && (S.OnPacket(s.srv, f.p.id, f.p.q, via, connected, window, now).verdict.Forward? <==>
                  if f.p.id in s.srv.sessions then
                    s.srv.sessions[f.p.id] != f.k && NewTo(window, s, s.srv.sessions[f.p.id], f.p.q)
                  else connected)
  {
    RunsAreSafe(window, start, steps);
    RunsAreChecked(window, start, steps);
    var s := Run(window, start, steps).value;
    ForwardsExactlyWhenNew(window, s, f.p.id, f.p.q, via, connected, now);
    ForwardedIsRejected(s, f);
    RejectsExactlyWhen(window, s, f.k, f.p.q);
  }

  lemma ForwardsExactlyWhenNew(window: nat, s: State, id: U64, q: U32, via: S.Path, connected: bool, now: int)
    requires window >= 1 && S.WellFormed(s.srv) && WindowsRun(window, ServerWindows(s.srv.heap), s.checks)
    ensures S.OnPacket(s.srv, id, q, via, connected, window, now).verdict.Forward? <==>
            if id in s.srv.sessions then NewTo(window, s, s.srv.sessions[id], q) else connected
  {
    if id in s.srv.sessions {
      RejectsExactlyWhen(window, s, s.srv.sessions[id], q);
    } else {
      assert !Windows.Step(Windows.New(window), q).duplicate;
    }
  }

  /** And when a copy that a handler already holds is forwarded again: exactly when the handler
      found another incarnation, live or not, and the number is new to that one.  Whether the
      incarnation that forwarded it is still live plays no part. */
  lemma {:induction false} HeldCopyForwardedExactlyWhen(window: nat, start: U64, steps: seq<Step>, f: Forwarded, t: nat)
    requires window >= 1 && Run(window, start, steps).Some?
    requires var s := Run(window, start, steps).value;
             f in s.forwarded && t in s.serverTasks && s.serverTasks[t].Held? && s.serverTasks[t].p.q == f.p.q
    ensures var s := Run(window, start, steps).value;
            var x := s.serverTasks[t];
            && x.k < |s.srv.heap|
            && (!S.IsDuplicate(s.srv, x.k, x.p.q) <==> x.k != f.k && NewTo(window, s, x.k, x.p.q))
  {
    RunsAreSafe(window, start, steps);
    RunsAreChecked(window, start, steps);
    var s := Run(window, start, steps).value;
    assert ServerTaskOk(H(s), s.serverTasks[t]);
    RejectsExactlyWhen(window, s, s.serverTasks[t].k, f.p.q);
    ForwardedIsRejected(s, f);
  }

  lemma ForwardedIsRejected(s: State, f: Forwarded)
    requires RequestsOk(s.srv.heap, s.serverTasks, s.forwarded) && f in s.forwarded
    ensures f.k < |s.srv.heap| && Windows.Rejects(s.srv.heap[f.k].window, f.p.q)
  {
    var i :| 0 <= i < |s.forwarded| && s.forwarded[i] == f;
    var used := ForwardClaims(s.forwarded);
    assert used[i] in used;
  }

  // ------------------------------------------------------------- exactly once

  /** Which packet of its client session this is, counting from 0. */
  function IndexOf(s: State, p: Pkt): nat {
    if p.origin < |s.assignments| then
      Taken(s.assignments[..p.origin], s.assignments[p.origin].session)
    else 0
  }

  function Indices(s: State, checks: seq<Check>): (arrivals: seq<nat>)
    ensures |arrivals| == |checks| && forall i | 0 <= i < |arrivals| :: arrivals[i] == IndexOf(s, checks[i].p)
  {
    seq(|checks|, i requires 0 <= i < |checks| => IndexOf(s, checks[i].p))
  }

  /** The packets that reached incarnation `k`, in the order they reached its window. */
  function ArrivalsAt(s: State, k: nat): seq<nat> {
    Indices(s, ChecksOf(s.checks, k))
  }

  /** The packet of a check is packet `IndexOf` of the one client session with that id. */
  lemma {:induction false} CheckedPacket(start: U64, s: State, c: Check)
    requires Safe(start, s) && c in s.checks
    ensures c.p.origin < |s.assignments| && s.assignments[c.p.origin].session < |s.initials|
    ensures s.initials[s.assignments[c.p.origin].session] < C.INITIAL_SEQ_BOUND
    ensures c.p.q == Delivery.SeqOf(s.initials[s.assignments[c.p.origin].session], IndexOf(s, c.p))
  {
    assert CheckOk(H(s), c);
    AssignedNumber(s.cli.heap, s.initials, s.assignments, c.p.origin);
  }

  lemma AssignedNumber(heap: seq<C.Session>, initials: seq<U32>, assignments: seq<Assignment>, a: nat)
    requires PacketsOk(heap, initials, assignments) && a < |assignments|
    ensures assignments[a].session < |initials| && initials[assignments[a].session] < C.INITIAL_SEQ_BOUND
    ensures assignments[a].q ==
            Delivery.SeqOf(initials[assignments[a].session], Taken(assignments[..a], assignments[a].session))
  {
    assert InSequence(initials, assignments, a);
  }

  lemma {:induction false} SameSession(start: U64, s: State, c: Check, d: Check)
    requires Safe(start, s) && c in s.checks && d in s.checks && c.k == d.k && |s.owners| <= SessionIds.PERIOD
    ensures c.p.id == d.p.id
    ensures c.p.origin < |s.assignments| && d.p.origin < |s.assignments|
    ensures s.assignments[c.p.origin].session == s.assignments[d.p.origin].session
  {
    assert CheckOk(H(s), c) && CheckOk(H(s), d);
    OneSession(start, s, s.assignments[c.p.origin].session, s.assignments[d.p.origin].session);
  }

  lemma {:induction false} SelectedIsChecked(checks: seq<Check>, k: nat, c: Check)
    requires c in ChecksOf(checks, k)
    ensures c in checks && c.k == k
  {
    var j :| 0 <= j < |ChecksOf(checks, k)| && ChecksOf(checks, k)[j] == c;
    var i := Locate(checks, SessionOfCheck, k, j);
  }

  lemma {:induction false} PositionOf(checks: seq<Check>, c: Check) returns (p: nat)
    requires c in checks
    ensures p < |ChecksOf(checks, c.k)| && ChecksOf(checks, c.k)[p] == c
  {
    var m :| 0 <= m < |checks| && checks[m] == c;
    Position(checks, SessionOfCheck, c.k, m);
    p := |ChecksOf(checks[..m], c.k)|;
  }

  /** What the window of an incarnation is called with is what `Delivery` speaks of. */
  lemma {:induction false} CallsAreArrivals(start: U64, s: State, c: Check)
    requires Safe(start, s) && c in s.checks && |s.owners| <= SessionIds.PERIOD
    ensures c.p.origin < |s.assignments| && s.assignments[c.p.origin].session < |s.initials|
    ensures CallsOf(s.checks, c.k) ==
            Delivery.Calls(s.initials[s.assignments[c.p.origin].session], ArrivalsAt(s, c.k))
  {
    CheckedPacket(start, s, c);
    var mine := ChecksOf(s.checks, c.k);
    var initial := s.initials[s.assignments[c.p.origin].session];
    forall i | 0 <= i < |mine|
      ensures CallsOf(s.checks, c.k)[i] == Delivery.Calls(initial, ArrivalsAt(s, c.k))[i]
    {
      SelectedIsChecked(s.checks, c.k, mine[i]);
      CheckedPacket(start, s, mine[i]);
      SameSession(start, s, c, mine[i]);
    }
  }

  /** A call at position `j` of a session object is a check, and its answer that of the call. */
  lemma {:induction false} CheckAt(size: nat, ws: seq<Windows.Window>, checks: seq<Check>, k: nat, j: nat)
    returns (i: nat)
    requires WindowsRun(size, ws, checks) && j < |ChecksOf(checks, k)|
    ensures i < |checks| && checks[i].k == k && checks[i] == ChecksOf(checks, k)[j]
    ensures checks[i].accepted <==> !Windows.Duplicate(size, CallsOf(checks, k), j)
  {
    i := Locate(checks, SessionOfCheck, k, j);
    assert Answered(size, checks, i);
    assert CallsOf(checks[..i], k) == CallsOf(checks, k)[..j];
  }

  /** Of the checks of one session object, seen as arrivals within the disorder of its window,
      some check with the index of `c` is accepted. */
  lemma {:induction false} SomeCopyIsAccepted(size: nat, ws: seq<Windows.Window>, checks: seq<Check>, c: Check,
                                              initial: U32, arrivals: seq<nat>, n: nat) returns (i: nat)
    requires size >= 1 && initial < C.INITIAL_SEQ_BOUND && WindowsRun(size, ws, checks)
    requires CallsOf(checks, c.k) == Delivery.Calls(initial, arrivals)
    requires (forall m <- arrivals :: m < TWO_31) && Delivery.WithinDisorder(size, arrivals) && n in arrivals
    ensures i < |checks| && checks[i].k == c.k && checks[i].accepted
    ensures exists j: nat :: j < |arrivals| == |ChecksOf(checks, c.k)| && arrivals[j] == n &&
                             checks[i] == ChecksOf(checks, c.k)[j]
  {
    var j := Delivery.ExactlyOnce(size, initial, arrivals, n);
    assert |Delivery.Calls(initial, arrivals)| == |arrivals|;
    i := CheckAt(size, ws, checks, c.k, j);
  }

  /** Exactly once at the window of every incarnation in every run: while the packets reach an
      incarnation within the disorder its window allows, some copy of each packet that reaches
      it is admitted, and that copy is forwarded, in hand, or was given up by its handler. */
  lemma {:induction false} FirstCopyIsKept(window: nat, start: U64, steps: seq<Step>, c: Check) returns (first: Check)
    requires window >= 1 && Run(window, start, steps).Some?
    requires var s := Run(window, start, steps).value;
             && c in s.checks && |s.owners| <= SessionIds.PERIOD
             && (forall n <- ArrivalsAt(s, c.k) :: n < TWO_31)
             && Delivery.WithinDisorder(window, ArrivalsAt(s, c.k))
    ensures var s := Run(window, start, steps).value;
            && first in s.checks && first.accepted && first.k == c.k && IndexOf(s, first.p) == IndexOf(s, c.p)
            && Kept(first, ServerHands(s.serverTasks), Items(s.forwarded), Items(s.lost))
  {
    RunsAreSafe(window, start, steps);
    RunsAreChecked(window, start, steps);
    var s := Run(window, start, steps).value;
    CheckedPacket(start, s, c);
    CallsAreArrivals(start, s, c);
    var p := PositionOf(s.checks, c);
    var arrivals := ArrivalsAt(s, c.k);
    assert arrivals[p] == IndexOf(s, c.p);
    var initial := s.initials[s.assignments[c.p.origin].session];
    var i := SomeCopyIsAccepted(window, ServerWindows(s.srv.heap), s.checks, c, initial, arrivals, IndexOf(s, c.p));
    first := s.checks[i];
    assert first in s.checks;
  }

  /** One packet, one assignment: within a session the index names the packet. */
  lemma {:induction false} SamePacket(start: U64, s: State, c: Check, d: Check)
    requires Safe(start, s) && c in s.checks && d in s.checks && c.k == d.k && |s.owners| <= SessionIds.PERIOD
    requires IndexOf(s, c.p) == IndexOf(s, d.p)
    ensures c.p == d.p
  {
    SameSession(start, s, c, d);
    SameAssignment(s.assignments, c.p.origin, d.p.origin);
    PacketOfAssignment(H(s), s.checks, c);
    PacketOfAssignment(H(s), s.checks, d);
  }

  lemma SameAssignment(assignments: seq<Assignment>, a: nat, b: nat)
    requires a < |assignments| && b < |assignments| && assignments[a].session == assignments[b].session
    requires Taken(assignments[..a], assignments[a].session) == Taken(assignments[..b], assignments[b].session)
    ensures a == b
  {
    if a < b {
      CountGrows(assignments, SessionOf, a, b);
    } else if b < a {
      CountGrows(assignments, SessionOf, b, a);
    }
  }

  lemma PacketOfAssignment(h: History, checks: seq<Check>, c: Check)
    requires c in checks && forall d <- checks :: CheckOk(h, d)
    ensures FromAssignment(h, c.p.id, c.p.q, c.p.payload, c.p.origin)
  {
    assert CheckOk(h, c);
  }

  /** Exactly once, end to end: in every run with fresh ids, if the packets of a session reach an
      incarnation within the disorder its window allows, then each packet of which a copy reached
      it is forwarded to the target exactly once by that incarnation, once no handler has it in
      hand or gave it up; however copies are lost, duplicated and reordered over all paths, and
      however the handlers interleave. */
  lemma {:induction false} ExactlyOnce(window: nat, start: U64, steps: seq<Step>, c: Check) returns (i: nat)
    requires window >= 1 && Run(window, start, steps).Some?
    requires var s := Run(window, start, steps).value;
             && c in s.checks && |s.owners| <= SessionIds.PERIOD
             && (forall n <- ArrivalsAt(s, c.k) :: n < TWO_31)
             && Delivery.WithinDisorder(window, ArrivalsAt(s, c.k))
             && Item(c.k, c.p) !in ServerHands(s.serverTasks).Values && Forwarded(c.k, c.p) !in s.lost
    ensures var s := Run(window, start, steps).value;
            && i < |s.forwarded| && s.forwarded[i] == Forwarded(c.k, c.p)
            && (forall j: nat | j < |s.forwarded| && s.forwarded[j].k == c.k && s.forwarded[j].p.q == c.p.q :: j == i)
  {
    RunsAreSafe(window, start, steps);
    var s := Run(window, start, steps).value;
    var first := FirstCopyIsKept(window, start, steps, c);
    SamePacket(start, s, c, first);
    i :| 0 <= i < |s.forwarded| && s.forwarded[i] == Forwarded(c.k, c.p);
    RequestSafety(window, start, steps);
  }

  // ------------------------------------------------------ exactly once, responses

  /** Which datagram of the incarnation that numbered it this is, counting from 0. */
  function AnswerIndex(s: State, p: Pkt): nat {
    if p.origin < |s.answers| then Drawn(s.answers[..p.origin], s.answers[p.origin].counter) else 0
  }

  function AnswerIndices(s: State, checks: seq<Check>): (arrivals: seq<nat>)
    ensures |arrivals| == |checks| && forall i | 0 <= i < |arrivals| :: arrivals[i] == AnswerIndex(s, checks[i].p)
  {
    seq(|checks|, i requires 0 <= i < |checks| => AnswerIndex(s, checks[i].p))
  }

  /** The responses that reached client session `k`, in the order they reached its window. */
  function ResponsesAt(s: State, k: nat): seq<nat> {
    AnswerIndices(s, ChecksOf(s.heard, k))
  }

  /** Every response that reached client session `k` was numbered by incarnation `from`. */
  ghost predicate OneCounter(s: State, k: nat, from: nat) {
    forall c <- s.heard | c.k == k && c.p.origin < |s.answers| :: s.answers[c.p.origin].counter == from
  }

  lemma {:induction false} HeardResponse(start: U64, s: State, c: Check)
    requires Safe(start, s) && c in s.heard
    ensures c.p.origin < |s.answers| && c.p.q == Delivery.SeqOf(0, AnswerIndex(s, c.p))
    ensures c.p == Pkt(s.answers[c.p.origin].id, s.answers[c.p.origin].n, s.answers[c.p.origin].payload, c.p.origin)
  {
    assert HeardOk(H(s), c);
  }

  lemma {:induction false} CallsAreResponses(start: U64, s: State, k: nat)
    requires Safe(start, s)
    ensures CallsOf(s.heard, k) == Delivery.Calls(0, ResponsesAt(s, k))
  {
    var mine := ChecksOf(s.heard, k);
    forall i | 0 <= i < |mine| ensures CallsOf(s.heard, k)[i] == Delivery.Calls(0, ResponsesAt(s, k))[i] {
      SelectedIsChecked(s.heard, k, mine[i]);
      HeardResponse(start, s, mine[i]);
    }
  }

  lemma {:induction false} SameResponse(start: U64, s: State, c: Check, d: Check)
    requires Safe(start, s) && c in s.heard && d in s.heard
    requires AnswerIndex(s, c.p) == AnswerIndex(s, d.p)
    requires c.p.origin < |s.answers| && d.p.origin < |s.answers|
    requires s.answers[c.p.origin].counter == s.answers[d.p.origin].counter
    ensures c.p == d.p
  {
    HeardResponse(start, s, c);
    HeardResponse(start, s, d);
    SameAnswer(s.answers, c.p.origin, d.p.origin);
  }

  lemma SameAnswer(answers: seq<Answer>, a: nat, b: nat)
    requires a < |answers| && b < |answers| && answers[a].counter == answers[b].counter
    requires Drawn(answers[..a], answers[a].counter) == Drawn(answers[..b], answers[b].counter)
    ensures a == b
  {
    if a < b {
      CountGrows(answers, CounterOf, a, b);
    } else if b < a {
      CountGrows(answers, CounterOf, b, a);
    }
  }

  lemma {:induction false} ResponseIsKept(start: U64, s: State, c: Check, from: nat)
    requires Safe(start, s) && ClientChecked(s) && c in s.heard && OneCounter(s, c.k, from)
    requires forall n <- ResponsesAt(s, c.k) :: n < TWO_31
    requires Delivery.WithinDisorder(C.RESPONSE_WINDOW, ResponsesAt(s, c.k))
    ensures Kept(c, ClientHands(s.clientTasks), Emissions(s.emitted), Emissions(s.dropped))
  {
    CallsAreResponses(start, s, c.k);
    var p := PositionOf(s.heard, c);
    assert ResponsesAt(s, c.k)[p] == AnswerIndex(s, c.p);
    var m := SomeCopyIsAccepted(C.RESPONSE_WINDOW, ClientWindows(s.cli.heap), s.heard, c, 0,
                                ResponsesAt(s, c.k), AnswerIndex(s, c.p));
    var first := s.heard[m];
    assert first in s.heard;
    HeardResponse(start, s, c);
    HeardResponse(start, s, first);
    SameResponse(start, s, c, first);
  }

  /** Exactly once, for responses: in every run, if the responses that reach a client session were
      numbered by one server incarnation, no more than 2^31 of them, and come within the disorder
      its window allows, then each of which a copy reached it is emitted to the source exactly
      once, once no handler has it in hand or gave it up; over UDP and TCP together, however the
      copies are lost, duplicated and reordered, and however the handlers interleave. */
  lemma {:induction false} ResponseExactlyOnce(window: nat, start: U64, steps: seq<Step>, c: Check, from: nat)
    returns (i: nat)
    requires window >= 1 && Run(window, start, steps).Some?
    requires var s := Run(window, start, steps).value;
             && c in s.heard && OneCounter(s, c.k, from)
             && (forall n <- ResponsesAt(s, c.k) :: n < TWO_31)
             && Delivery.WithinDisorder(C.RESPONSE_WINDOW, ResponsesAt(s, c.k))
             && Item(c.k, c.p) !in ClientHands(s.clientTasks).Values && Item(c.k, c.p) !in Emissions(s.dropped)
    ensures var s := Run(window, start, steps).value;
            && i < |s.emitted| && s.emitted[i].k == c.k && s.emitted[i].p == c.p
            && (forall j: nat | j < |s.emitted| && s.emitted[j].k == c.k && s.emitted[j].p.q == c.p.q :: j == i)
  {
    RunsAreSafe(window, start, steps);
    RunsAreChecked(window, start, steps);
    var s := Run(window, start, steps).value;
    ResponseIsKept(start, s, c, from);
    i := EmissionOf(s.emitted, Item(c.k, c.p));
    forall j: nat | j < |s.emitted| && s.emitted[j].k == c.k && s.emitted[j].p.q == c.p.q ensures j == i {
      if j < i { ResponseAtMostOnce(window, start, steps, j, i); }
      if i < j { ResponseAtMostOnce(window, start, steps, i, j); }
    }
  }

  lemma EmissionOf(emitted: seq<Emitted>, it: Item) returns (i: nat)
    requires it in Emissions(emitted)
    ensures i < |emitted| && emitted[i].k == it.k && emitted[i].p == it.p
  {
    var e :| e in emitted && Item(e.k, e.p) == it;
    i :| 0 <= i < |emitted| && emitted[i] == e;
  }
}
