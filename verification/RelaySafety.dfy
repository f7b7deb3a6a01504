/** What every run of the relay guarantees, end to end. */
module RelaySafety {
  import opened Bounded
  import opened SessionIds
  import C = ClientState
  import S = ServerState
  import opened Relay
  import opened RelayOrigins
  import RelaySteps
  import opened RelayClaims
  import Delivery
  import opened Counting

  // --------------------------------------------------- numbering of responses

  /** How many numbers incarnation `k` has given out. */
  function Drawn(answers: seq<Answer>, k: nat): nat {
    Count(answers, CounterOf, k)
  }

  function CounterOf(a: Answer): nat {
    a.counter
  }

  ghost predicate NumbersOk(heap: seq<S.TargetSession>, answers: seq<Answer>) {
    && (forall k: nat | k < |heap| :: heap[k].responseSeq == Drawn(answers, k) % TWO_32)
    && (forall k: nat | k >= |heap| :: Drawn(answers, k) == 0)
    && (forall d: nat | d < |answers| :: answers[d].n == Drawn(answers[..d], answers[d].counter) % TWO_32)
  }

  lemma WrappingCount(n: nat)
    ensures WrappingAdd(n % TWO_32, 1) == (n + 1) % TWO_32
  {
  }

  lemma DrawKeepsNumbers(heap: seq<S.TargetSession>, answers: seq<Answer>, a: Answer)
    requires NumbersOk(heap, answers) && a.counter < |heap| && a.n == heap[a.counter].responseSeq
    ensures var t := heap[a.counter];
            NumbersOk(heap[a.counter := t.(responseSeq := WrappingAdd(t.responseSeq, 1))], answers + [a])
  {
    var t := heap[a.counter];
    var heap' := heap[a.counter := t.(responseSeq := WrappingAdd(t.responseSeq, 1))];
    var more := answers + [a];
    forall k: nat
      ensures k < |heap| ==> heap'[k].responseSeq == Drawn(more, k) % TWO_32
      ensures k >= |heap| ==> Drawn(more, k) == 0
    {
      CountStep(answers, a, CounterOf, k);
      WrappingCount(Drawn(answers, k));
    }
    forall d: nat | d < |more| ensures more[d].n == Drawn(more[..d], more[d].counter) % TWO_32 {
      if d < |answers| {
        assert more[..d] == answers[..d];
      } else {
        assert more[..d] == answers;
      }
    }
  }

  ghost predicate SameNumbers(a: seq<S.TargetSession>, b: seq<S.TargetSession>) {
    && |a| <= |b| && (forall k | 0 <= k < |a| :: b[k].responseSeq == a[k].responseSeq)
    && (forall k | |a| <= k < |b| :: b[k].responseSeq == 0)
  }

  lemma OthersKeepNumbers(a: seq<S.TargetSession>, b: seq<S.TargetSession>, answers: seq<Answer>)
    requires NumbersOk(a, answers) && SameNumbers(a, b)
    ensures NumbersOk(b, answers)
  {
  }

  lemma PacketKeepsNumbers(window: nat, s: State, t: nat, step: PacketStep)
    requires NumbersOk(s.srv.heap, s.answers) && PacketEnabled(s, t, step)
    ensures var s' := PacketApply(window, s, t, step); NumbersOk(s'.srv.heap, s'.answers)
  {
    PacketFrame(window, s, t, step);
    PacketDrawsNothing(window, s, t, step);
    OthersKeepNumbers(s.srv.heap, PacketApply(window, s, t, step).srv.heap, s.answers);
  }

  lemma PacketDrawsNothing(window: nat, s: State, t: nat, step: PacketStep)
    requires PacketEnabled(s, t, step)
    ensures SameNumbers(s.srv.heap, PacketApply(window, s, t, step).srv.heap)
  {
    match step
    case ServerHearsUdp(_, _, _) =>
    case ServerHearsTcp(_) =>
    case ReadSessions =>
    case WriteSessions(_, _) =>
    case CheckPacket =>
    case NoteConn =>
    case AddPath =>
    case ForwardPacket =>
  }

  lemma AnswerKeepsNumbers(s: State, t: nat, step: AnswerStep)
    requires NumbersOk(s.srv.heap, s.answers) && AnswerEnabled(s, t, step)
    ensures var s' := AnswerApply(s, t, step); NumbersOk(s'.srv.heap, s'.answers)
  {
    if step.DrawNumber? {
      var x := s.serverTasks[t];
      var id := s.srv.heap[x.from].id;
      if id in s.srv.sessions && s.srv.sessions[id] < |s.srv.heap| {
        var k := s.srv.sessions[id];
        DrawKeepsNumbers(s.srv.heap, s.answers, Answer(x.from, k, id, s.srv.heap[k].responseSeq, x.payload));
      }
    }
  }

  lemma SweepKeepsNumbers(s: State, step: SweepStep)
    requires NumbersOk(s.srv.heap, s.answers) && SweepEnabled(s, step)
    ensures var s' := SweepApply(s, step); NumbersOk(s'.srv.heap, s'.answers)
  {
    OthersKeepNumbers(s.srv.heap, SweepApply(s, step).srv.heap, s.answers);
  }

  lemma StepKeepsNumbers(window: nat, s: State, step: Step)
    requires NumbersOk(s.srv.heap, s.answers) && Enabled(s, step)
    ensures var s' := Apply(window, s, step); NumbersOk(s'.srv.heap, s'.answers)
  {
    match step
    case OnSource(t, x) => SourceFrame(s, t, x);
    case OnResponse(t, x) => ResponseFrame(s, t, x);
    case OnPacket(t, x) => PacketKeepsNumbers(window, s, t, x);
    case OnAnswer(t, x) => AnswerKeepsNumbers(s, t, x);
    case OnSweep(x) => SweepKeepsNumbers(s, x);
  }

  // ----------------------------------------------------- numbering of packets

  /** How many packets client session `k` has numbered. */
  function Taken(assignments: seq<Assignment>, k: nat): nat {
    Count(assignments, SessionOf, k)
  }

  function SessionOf(a: Assignment): nat {
    a.session
  }

  /** Every session counts its packets from its initial number. */
  ghost predicate PacketsOk(heap: seq<C.Session>, initials: seq<U32>, assignments: seq<Assignment>) {
    && |initials| == |heap|
    && (forall k: nat | k < |heap| ::
          && initials[k] < C.INITIAL_SEQ_BOUND
          && heap[k].nextSeq == Delivery.SeqOf(initials[k], Taken(assignments, k)))
    && (forall k: nat | k >= |heap| :: Taken(assignments, k) == 0)
    && (forall i: nat | i < |assignments| :: InSequence(initials, assignments, i))
  }

  lemma NextSeq(initial: U32, n: nat)
    ensures WrappingAdd(Delivery.SeqOf(initial, n), 1) == Delivery.SeqOf(initial, n + 1)
  {
    WrappingCount(initial + n);
  }

  /** Assignment `i` has the number that was next in its session. */
  predicate InSequence(initials: seq<U32>, assignments: seq<Assignment>, i: nat)
    requires i < |assignments|
  {
    var a := assignments[i];
    a.session < |initials| && a.q == Delivery.SeqOf(initials[a.session], Taken(assignments[..i], a.session))
  }

  lemma TakeCounts(heap: seq<C.Session>, initials: seq<U32>, assignments: seq<Assignment>, a: Assignment, k: nat)
    requires PacketsOk(heap, initials, assignments) && a.session < |heap| && a.q == heap[a.session].nextSeq
    ensures k >= |heap| ==> Taken(assignments + [a], k) == 0
    ensures k < |heap| ==>
              Delivery.SeqOf(initials[k], Taken(assignments + [a], k)) ==
              if k == a.session then WrappingAdd(heap[k].nextSeq, 1) else heap[k].nextSeq
  {
    CountStep(assignments, a, SessionOf, k);
    assert Taken(assignments + [a], k) == Taken(assignments, k) + (if a.session == k then 1 else 0);
    if k < |heap| { NextSeq(initials[k], Taken(assignments, k)); }
  }

  lemma TakeKeepsPackets(heap: seq<C.Session>, initials: seq<U32>, assignments: seq<Assignment>, a: Assignment)
    requires PacketsOk(heap, initials, assignments) && a.session < |heap| && a.q == heap[a.session].nextSeq
    ensures var x := heap[a.session];
            PacketsOk(heap[a.session := x.(nextSeq := WrappingAdd(x.nextSeq, 1))], initials, assignments + [a])
  {
    var x := heap[a.session];
    var heap' := heap[a.session := x.(nextSeq := WrappingAdd(x.nextSeq, 1))];
    var more := assignments + [a];
    forall k: nat
      ensures k < |heap| ==> heap'[k].nextSeq == Delivery.SeqOf(initials[k], Taken(more, k))
      ensures k >= |heap| ==> Taken(more, k) == 0
    {
      TakeCounts(heap, initials, assignments, a, k);
    }
    forall i: nat | i < |more| ensures InSequence(initials, more, i) {
      if i < |assignments| {
        assert InSequence(initials, assignments, i) && more[..i] == assignments[..i];
      } else {
        assert more[..i] == assignments;
      }
    }
  }

  lemma NewSessionKeepsPackets(heap: seq<C.Session>, initials: seq<U32>, assignments: seq<Assignment>, x: C.Session)
    requires PacketsOk(heap, initials, assignments) && x.nextSeq < C.INITIAL_SEQ_BOUND
    ensures PacketsOk(heap + [x], initials + [x.nextSeq], assignments)
  {
    forall i: nat | i < |assignments| ensures InSequence(initials + [x.nextSeq], assignments, i) {
      assert InSequence(initials, assignments, i);
    }
  }

  ghost predicate SameSeqs(a: seq<C.Session>, b: seq<C.Session>) {
    |a| == |b| && forall k | 0 <= k < |a| :: b[k].nextSeq == a[k].nextSeq
  }

  lemma OthersKeepPackets(a: seq<C.Session>, b: seq<C.Session>, initials: seq<U32>, assignments: seq<Assignment>)
    requires PacketsOk(a, initials, assignments) && SameSeqs(a, b)
    ensures PacketsOk(b, initials, assignments)
  {
  }

  lemma SourceKeepsPackets(s: State, t: nat, step: SourceStep)
    requires PacketsOk(s.cli.heap, s.initials, s.assignments) && SourceEnabled(s, t, step)
    ensures var s' := SourceApply(s, t, step); PacketsOk(s'.cli.heap, s'.initials, s'.assignments)
  {
    match step
    case WriteTable(initial, now) =>
      var x := s.clientTasks[t];
      if x.addr !in s.cli.udpSessions {
        NewSessionKeepsPackets(s.cli.heap, s.initials, s.assignments,
                               C.FindOrCreate(s.cli, x.addr, initial, now).state.heap[|s.cli.heap|]);
      }
    case TakeNumber =>
      var x := s.clientTasks[t];
      TakeKeepsPackets(s.cli.heap, s.initials, s.assignments, Assignment(x.k, s.cli.heap[x.k].nextSeq, x.payload));
    case _ =>
  }

  lemma ResponseKeepsPackets(s: State, t: nat, step: ResponseStep)
    requires PacketsOk(s.cli.heap, s.initials, s.assignments) && ResponseEnabled(s, t, step)
    ensures var s' := ResponseApply(s, t, step); PacketsOk(s'.cli.heap, s'.initials, s'.assignments)
  {
    OthersKeepPackets(s.cli.heap, ResponseApply(s, t, step).cli.heap, s.initials, s.assignments);
  }

  lemma StepKeepsPackets(window: nat, s: State, step: Step)
    requires PacketsOk(s.cli.heap, s.initials, s.assignments) && Enabled(s, step)
    ensures var s' := Apply(window, s, step); PacketsOk(s'.cli.heap, s'.initials, s'.assignments)
  {
    match step
    case OnSource(t, x) => SourceKeepsPackets(s, t, x);
    case OnResponse(t, x) => ResponseKeepsPackets(s, t, x);
    case OnPacket(t, x) => PacketFrame(window, s, t, x);
    case OnAnswer(t, x) => AnswerFrame(s, t, x);
    case OnSweep(x) => OthersKeepPackets(s.cli.heap, SweepApply(s, x).cli.heap, s.initials, s.assignments);
  }

  // ------------------------------------------------- the server's session table

  function Replay(table: map<U64, nat>, e: Event): map<U64, nat> {
    match e
    case Created(id, k) => table[id := k]
    case Returned(_, _) => table
    case Removed(id) => table - {id}
  }

  /** Sessions are created only when absent, and handlers are given the one in the table. */
  predicate Allowed(table: map<U64, nat>, e: Event) {
    match e
    case Created(id, _) => id !in table
    case Returned(id, k) => id in table && table[id] == k
    case Removed(id) => id in table
  }

  /** The table, replayed from its events. */
  function Live(log: seq<Event>): map<U64, nat> {
    if log == [] then map[] else Replay(Live(log[..|log| - 1]), log[|log| - 1])
  }

  predicate Disciplined(log: seq<Event>) {
    log == [] || (Disciplined(log[..|log| - 1]) && Allowed(Live(log[..|log| - 1]), log[|log| - 1]))
  }

  ghost predicate LogOk(sessions: map<U64, nat>, sids: seq<U64>, log: seq<Event>) {
    && Live(log) == sessions && Disciplined(log)
    && (forall k | 0 <= k < |sids| :: Created(sids[k], k) in log)
  }

  lemma LogStep(log: seq<Event>, e: Event)
    ensures Live(log + [e]) == Replay(Live(log), e)
    ensures Disciplined(log + [e]) <==> Disciplined(log) && Allowed(Live(log), e)
  {
    assert (log + [e])[..|log|] == log;
  }

  lemma ReturnKeepsLog(sessions: map<U64, nat>, sids: seq<U64>, log: seq<Event>, id: U64)
    requires LogOk(sessions, sids, log) && id in sessions
    ensures LogOk(sessions, sids, log + [Returned(id, sessions[id])])
  {
    LogStep(log, Returned(id, sessions[id]));
  }

  lemma CreateKeepsLog(sessions: map<U64, nat>, sids: seq<U64>, log: seq<Event>, id: U64)
    requires LogOk(sessions, sids, log) && id !in sessions
    ensures LogOk(sessions[id := |sids|], sids + [id], log + [Created(id, |sids|)])
  {
    LogStep(log, Created(id, |sids|));
  }

  lemma RemoveKeepsLog(sessions: map<U64, nat>, sids: seq<U64>, log: seq<Event>, id: U64)
    requires LogOk(sessions, sids, log) && id in sessions
    ensures LogOk(sessions - {id}, sids, log + [Removed(id)])
  {
    LogStep(log, Removed(id));
  }

  lemma PacketKeepsLog(window: nat, s: State, t: nat, step: PacketStep)
    requires |s.sids| == |s.srv.heap| && LogOk(s.srv.sessions, s.sids, s.log) && PacketEnabled(s, t, step)
    ensures var s' := PacketApply(window, s, t, step); LogOk(s'.srv.sessions, s'.sids, s'.log)
  {
    if step.ReadSessions? || step.WriteSessions? {
      var id := s.serverTasks[t].p.id;
      if id in s.srv.sessions {
        ReturnKeepsLog(s.srv.sessions, s.sids, s.log, id);
      } else if step.WriteSessions? && step.connected {
        var k := |s.sids|;
        CreateKeepsLog(s.srv.sessions, s.sids, s.log, id);
        ReturnKeepsLog(s.srv.sessions[id := k], s.sids + [id], s.log + [Created(id, k)], id);
      }
    }
  }

  lemma SweepKeepsLog(s: State, step: SweepStep)
    requires LogOk(s.srv.sessions, s.sids, s.log) && SweepEnabled(s, step)
    ensures var s' := SweepApply(s, step); LogOk(s'.srv.sessions, s'.sids, s'.log)
  {
    if step.RemoveSession? {
      RemoveKeepsLog(s.srv.sessions, s.sids, s.log, step.id);
    }
  }

  lemma StepKeepsLog(window: nat, s: State, step: Step)
    requires |s.sids| == |s.srv.heap| && LogOk(s.srv.sessions, s.sids, s.log) && Enabled(s, step)
    ensures var s' := Apply(window, s, step); LogOk(s'.srv.sessions, s'.sids, s'.log)
  {
    match step
    case OnSource(t, x) => SourceFrame(s, t, x);
    case OnResponse(t, x) => ResponseFrame(s, t, x);
    case OnPacket(t, x) => PacketKeepsLog(window, s, t, x);
    case OnAnswer(t, x) => AnswerFrame(s, t, x);
    case OnSweep(x) => SweepKeepsLog(s, x);
  }

  // ------------------------------------------------------------- whole runs

  ghost predicate SameIds(a: C.State, b: C.State) {
    && b.counter == a.counter && |b.heap| == |a.heap|
    && forall k | 0 <= k < |a.heap| :: b.heap[k].id == a.heap[k].id
  }

  lemma CreateKeepsIssued(start: U64, c: C.State, addr: Addr, initial: U32, now: int)
    requires C.Issued(start, c)
    ensures C.Issued(start, C.FindOrCreate(c, addr, initial, now).state)
  {
  }

  lemma SourceKeepsIssued(start: U64, s: State, t: nat, step: SourceStep)
    requires C.Issued(start, s.cli) && SourceEnabled(s, t, step)
    ensures C.Issued(start, SourceApply(s, t, step).cli)
  {
    if step.WriteTable? {
      CreateKeepsIssued(start, s.cli, s.clientTasks[t].addr, step.initial, step.now);
    } else {
      assert SameIds(s.cli, SourceApply(s, t, step).cli);
    }
  }

  lemma StepKeepsIssued(window: nat, start: U64, s: State, step: Step)
    requires C.Issued(start, s.cli) && Enabled(s, step)
    ensures C.Issued(start, Apply(window, s, step).cli)
  {
    match step
    case OnSource(t, x) => SourceKeepsIssued(start, s, t, x);
    case OnResponse(t, x) => assert SameIds(s.cli, ResponseApply(s, t, x).cli);
    case OnPacket(t, x) => PacketFrame(window, s, t, x);
    case OnAnswer(t, x) => AnswerFrame(s, t, x);
    case OnSweep(x) => assert SameIds(s.cli, SweepApply(s, x).cli);
  }

  ghost predicate Safe(start: U64, s: State) {
    && Invariant(s)
    && RequestsOk(s.srv.heap, s.serverTasks, s.forwarded)
    && ResponsesOk(s.cli.heap, s.clientTasks, s.emitted)
    && PacketsOk(s.cli.heap, s.initials, s.assignments)
    && NumbersOk(s.srv.heap, s.answers)
    && LogOk(s.srv.sessions, s.sids, s.log)
    && C.Issued(start, s.cli)
  }

  lemma InitIsSafe(start: U64)
    ensures Safe(start, Init(start))
  {
    assert RequestClaims(map[]) == map[] && ResponseClaims(map[]) == map[];
  }

  lemma {:induction false} StepIsSafe(window: nat, start: U64, s: State, step: Step)
    requires window >= 1 && Safe(start, s) && Enabled(s, step)
    ensures Safe(start, Apply(window, s, step))
  {
    RelaySteps.StepKeeps(window, s, step);
    StepKeepsRequests(window, s, step);
    StepKeepsResponses(window, s, step);
    StepKeepsPackets(window, s, step);
    StepKeepsNumbers(window, s, step);
    StepKeepsLog(window, s, step);
    StepKeepsIssued(window, start, s, step);
  }

  /** Every state of every run is safe. */
  lemma {:induction false} RunsAreSafe(window: nat, start: U64, steps: seq<Step>)
    requires window >= 1 && Run(window, start, steps).Some?
    ensures Safe(start, Run(window, start, steps).value)
  {
    if steps == [] {
      InitIsSafe(start);
    } else {
      var n := |steps| - 1;
      RunsAreSafe(window, start, steps[..n]);
      StepIsSafe(window, start, Run(window, start, steps[..n]).value, steps[n]);
    }
  }

  // ----------------------------------------------------------- the theorems

  /** Request safety: in every run, whatever is lost, duplicated or reordered over any mix of
      paths and however the handlers interleave, what reaches the target is, byte for byte, a
      payload the client numbered so in the session of that id, and one server incarnation
      forwards a number at most once. */
  lemma {:induction false} RequestSafety(window: nat, start: U64, steps: seq<Step>)
    requires window >= 1 && Run(window, start, steps).Some?
    ensures var s := Run(window, start, steps).value;
            && (forall i | 0 <= i < |s.forwarded| ::
                  var f := s.forwarded[i];
                  && f.k < |s.sids| && s.sids[f.k] == f.p.id
                  && f.p.origin < |s.assignments|
                  && var it := s.assignments[f.p.origin];
                     && it.session < |s.owners| && s.owners[it.session].id == f.p.id
                     && it.q == f.p.q && it.payload == f.p.payload)
            && (forall i, j | 0 <= i < j < |s.forwarded| && s.forwarded[i].k == s.forwarded[j].k ::
                  s.forwarded[i].p.q != s.forwarded[j].p.q)
  {
    RunsAreSafe(window, start, steps);
    var s := Run(window, start, steps).value;
    forall i | 0 <= i < |s.forwarded| ensures ForwardedOk(H(s), s.forwarded[i]) {
      assert s.forwarded[i] in s.forwarded;
    }
    var used := ForwardClaims(s.forwarded);
    forall i, j | 0 <= i < j < |s.forwarded| ensures used[i] != used[j] { }
  }

  lemma DistinctResidues(initial: U32, a: nat, b: nat)
    requires a < b < TWO_32
    ensures Delivery.SeqOf(initial, a) != Delivery.SeqOf(initial, b)
  {
  }

  /** Two packets of one session carry different numbers while it has numbered at most 2^32. */
  lemma {:induction false} PacketsApart(heap: seq<C.Session>, initials: seq<U32>, assignments: seq<Assignment>,
                                        i: nat, j: nat)
    requires PacketsOk(heap, initials, assignments) && i < j < |assignments|
    requires assignments[i].session == assignments[j].session
    requires Taken(assignments, assignments[i].session) <= TWO_32
    ensures assignments[i].q != assignments[j].q
  {
    var k := assignments[i].session;
    var a, b := Taken(assignments[..i], k), Taken(assignments[..j], k);
    assert InSequence(initials, assignments, i) && InSequence(initials, assignments, j);
    assert a < b < Taken(assignments, k) by {
      CountGrows(assignments, SessionOf, i, j);
      CountGrows(assignments, SessionOf, j, j + 1);
    }
    DistinctResidues(initials[k], a, b);
  }

  /** Request identity: the pair of id and number names one packet.  While ids are fresh and the
      session has numbered at most 2^32 packets, what is forwarded under (id, number) is the one
      packet the client gave that pair to; so an incarnation forwards no packet twice. */
  lemma {:induction false} RequestIdentity(window: nat, start: U64, steps: seq<Step>, i: nat, a: nat)
    requires window >= 1 && Run(window, start, steps).Some?
    requires var s := Run(window, start, steps).value;
             i < |s.forwarded| && a < |s.assignments| && |s.owners| <= PERIOD
    ensures var s := Run(window, start, steps).value;
            var f, it := s.forwarded[i].p, s.assignments[a];
            && it.session < |s.owners|
            && (Taken(s.assignments, it.session) <= TWO_32 && s.owners[it.session].id == f.id && it.q == f.q ==>
                  a == f.origin && it.payload == f.payload)
  {
    RunsAreSafe(window, start, steps);
    var s := Run(window, start, steps).value;
    var f, it := s.forwarded[i].p, s.assignments[a];
    assert it in s.assignments && ForwardedOk(H(s), s.forwarded[i]);
    var own := s.assignments[f.origin].session;
    if Taken(s.assignments, it.session) <= TWO_32 && s.owners[it.session].id == f.id && it.q == f.q {
      OneSession(start, s, it.session, own);
      if a < f.origin {
        PacketsApart(s.cli.heap, s.initials, s.assignments, a, f.origin);
      } else if f.origin < a {
        PacketsApart(s.cli.heap, s.initials, s.assignments, f.origin, a);
      }
    }
  }

  lemma OneSession(start: U64, s: State, k: nat, l: nat)
    requires ClientShape(s) && C.Issued(start, s.cli) && |s.owners| <= PERIOD
    requires k < |s.owners| && l < |s.owners| && s.owners[k].id == s.owners[l].id
    ensures k == l
  {
    if k < l {
      IdsAreFresh(start, k, l);
    } else if l < k {
      IdsAreFresh(start, l, k);
    }
  }

  /** The first 2^31 packets of a session are numbered consecutively, without wrap-around. */
  lemma {:induction false} PacketsCountUp(window: nat, start: U64, steps: seq<Step>, a: nat)
    requires window >= 1 && Run(window, start, steps).Some?
    requires a < |Run(window, start, steps).value.assignments|
    ensures var s := Run(window, start, steps).value;
            var it := s.assignments[a];
            && it.session < |s.initials|
            && (Taken(s.assignments[..a], it.session) < TWO_31 ==>
                  it.q == s.initials[it.session] + Taken(s.assignments[..a], it.session))
  {
    RunsAreSafe(window, start, steps);
    var s := Run(window, start, steps).value;
    var it := s.assignments[a];
    assert InSequence(s.initials, s.assignments, a);
    if Taken(s.assignments[..a], it.session) < TWO_31 {
      Delivery.SeqDoesNotWrap(s.initials[it.session], Taken(s.assignments[..a], it.session));
    }
  }

  /** Response routing: whatever the client emits to a source was read from the target socket of
      a server session whose id was created for that source, and, as long as no more than
      2^64 - 1 ids were drawn, for no other. */
  lemma {:induction false} ResponseRouting(window: nat, start: U64, steps: seq<Step>, i: nat)
    requires window >= 1 && Run(window, start, steps).Some?
    requires i < |Run(window, start, steps).value.emitted|
    ensures var s := Run(window, start, steps).value;
            var e := s.emitted[i];
            && e.p.origin < |s.answers|
            && var it := s.answers[e.p.origin];
               && it.payload == e.p.payload && it.n == e.p.q
               && it.from < |s.sids| && s.sids[it.from] == it.id
               && Owner(it.id, e.addr) in s.owners
               && (|s.owners| <= PERIOD ==> forall o <- s.owners | o.id == it.id :: o.addr == e.addr)
  {
    RunsAreSafe(window, start, steps);
    var s := Run(window, start, steps).value;
    var e := s.emitted[i];
    assert EmittedOk(H(s), e);
    assert s.answers[e.p.origin] in s.answers;
    if |s.owners| <= PERIOD {
      forall o | o in s.owners && o.id == e.p.id ensures o.addr == e.addr {
        OneOwner(start, s, o, Owner(e.p.id, e.addr));
      }
    }
  }

  lemma OneOwner(start: U64, s: State, a: Owner, b: Owner)
    requires ClientShape(s) && C.Issued(start, s.cli) && |s.owners| <= PERIOD
    requires a in s.owners && b in s.owners && a.id == b.id
    ensures a == b
  {
    var i :| 0 <= i < |s.owners| && s.owners[i] == a;
    var j :| 0 <= j < |s.owners| && s.owners[j] == b;
    OneSession(start, s, i, j);
  }

  /** Responses at most once: a client session emits at most one datagram per number over UDP
      and TCP together, so it never emits the same target datagram twice. */
  lemma {:induction false} ResponseAtMostOnce(window: nat, start: U64, steps: seq<Step>, i: nat, j: nat)
    requires window >= 1 && Run(window, start, steps).Some?
    requires i < j < |Run(window, start, steps).value.emitted|
    ensures var e, f := Run(window, start, steps).value.emitted[i], Run(window, start, steps).value.emitted[j];
            e.k == f.k ==> e.p.q != f.p.q && e.p.origin != f.p.origin
  {
    RunsAreSafe(window, start, steps);
    var s := Run(window, start, steps).value;
    var used := EmitClaims(s.emitted);
    assert used[i] != used[j];
    assert EmittedOk(H(s), s.emitted[i]) && EmittedOk(H(s), s.emitted[j]);
  }

  /** Numbering: two datagrams numbered by one incarnation carry different numbers as long as
      that incarnation has given out at most 2^32. */
  lemma {:induction false} AnswersAreNumberedApart(window: nat, start: U64, steps: seq<Step>, i: nat, j: nat)
    requires window >= 1 && Run(window, start, steps).Some?
    requires i < j < |Run(window, start, steps).value.answers|
    ensures var s := Run(window, start, steps).value;
            var k := s.answers[i].counter;
            s.answers[j].counter == k && Drawn(s.answers, k) <= TWO_32 ==> s.answers[i].n != s.answers[j].n
  {
    RunsAreSafe(window, start, steps);
    var s := Run(window, start, steps).value;
    if s.answers[j].counter == s.answers[i].counter {
      NumberedApart(s.srv.heap, s.answers, i, j);
    }
  }

  lemma {:induction false} NumberedApart(heap: seq<S.TargetSession>, answers: seq<Answer>, i: nat, j: nat)
    requires NumbersOk(heap, answers) && i < j < |answers| && answers[i].counter == answers[j].counter
    ensures Drawn(answers, answers[i].counter) <= TWO_32 ==> answers[i].n != answers[j].n
  {
    var k := answers[i].counter;
    var a, b := Drawn(answers[..i], k), Drawn(answers[..j], k);
    assert answers[i].n == a % TWO_32 && answers[j].n == b % TWO_32;
    assert a < b < Drawn(answers, k) by {
      CountGrows(answers, CounterOf, i, j);
      CountGrows(answers, CounterOf, j, j + 1);
    }
  }

  lemma SliceStep(log: seq<Event>, i: nat, j: nat)
    requires i < j <= |log|
    ensures log[i..j] == log[i..j - 1] + [log[j - 1]]
  {
  }

  lemma {:induction false} StaysLive(log: seq<Event>, i: nat, j: nat, id: U64, k: nat)
    requires i <= j <= |log| && Disciplined(log)
    requires id in Live(log[..i]) && Live(log[..i])[id] == k
    requires Removed(id) !in log[i..j]
    ensures Disciplined(log[..j]) && id in Live(log[..j]) && Live(log[..j])[id] == k
  {
    DisciplinedPrefix(log, j);
    if i < j {
      SliceStep(log, i, j);
      StaysLive(log, i, j - 1, id, k);
      assert log[..j][..j - 1] == log[..j - 1];
    }
  }

  lemma {:induction false} DisciplinedPrefix(log: seq<Event>, n: nat)
    requires n <= |log| && Disciplined(log)
    ensures Disciplined(log[..n])
  {
    if n < |log| {
      assert log[..|log| - 1][..n] == log[..n];
      DisciplinedPrefix(log[..|log| - 1], n);
    } else {
      assert log[..n] == log;
    }
  }

  predicate Concerns(e: Event, id: U64) {
    !e.Removed? && e.id == id
  }

  lemma {:induction false} BetweenRemovals(log: seq<Event>, i: nat, j: nat, id: U64)
    requires i < j < |log| && Disciplined(log)
    requires Concerns(log[i], id) && Concerns(log[j], id) && Removed(id) !in log[i..j]
    ensures log[j] == Returned(id, log[i].k)
  {
    DisciplinedPrefix(log, i + 1);
    assert log[..i + 1][..i] == log[..i];
    assert forall e <- log[i + 1..j] :: e in log[i..j];
    StaysLive(log, i + 1, j, id, log[i].k);
    DisciplinedPrefix(log, j + 1);
    assert log[..j + 1][..j] == log[..j];
  }

  /** Double-checked creation: under every interleaving, between two removals of an id at most
      one session is created for it, and every handler that gets one gets that one. */
  lemma {:induction false} OneSessionBetweenRemovals(window: nat, start: U64, steps: seq<Step>, i: nat, j: nat, id: U64)
    requires window >= 1 && Run(window, start, steps).Some?
    requires var log := Run(window, start, steps).value.log;
             i < j < |log| && Concerns(log[i], id) && Concerns(log[j], id) && Removed(id) !in log[i..j]
    ensures var log := Run(window, start, steps).value.log;
            log[j] == Returned(id, log[i].k)
  {
    RunsAreSafe(window, start, steps);
    BetweenRemovals(Run(window, start, steps).value.log, i, j, id);
  }

  /** Two incarnations of an id were created at `a` and `b`, and the id was removed in between. */
  predicate RemovedBetween(log: seq<Event>, id: U64, k: nat, l: nat, a: nat, b: nat) {
    && a < b < |log| && Removed(id) in log[a..b]
    && {log[a], log[b]} == {Created(id, k), Created(id, l)}
  }

  /** So a packet is forwarded twice only by two incarnations, and its session was removed
      between the creation of the one and the creation of the other. */
  lemma {:induction false} RepeatsNeedRemoval(window: nat, start: U64, steps: seq<Step>, i: nat, j: nat)
    returns (a: nat, b: nat)
    requires window >= 1 && Run(window, start, steps).Some?
    requires i < j < |Run(window, start, steps).value.forwarded|
    ensures var s := Run(window, start, steps).value;
            var f, g := s.forwarded[i], s.forwarded[j];
            f.p.id == g.p.id && f.p.q == g.p.q ==> f.k != g.k && RemovedBetween(s.log, f.p.id, f.k, g.k, a, b)
  {
    RunsAreSafe(window, start, steps);
    RequestSafety(window, start, steps);
    var s := Run(window, start, steps).value;
    var f, g := s.forwarded[i], s.forwarded[j];
    a, b := 0, 0;
    if f.p.id == g.p.id && f.p.q == g.p.q {
      a, b := TwoIncarnations(s.srv.sessions, s.sids, s.log, f.k, g.k);
    }
  }

  lemma {:induction false} TwoIncarnations(sessions: map<U64, nat>, sids: seq<U64>, log: seq<Event>, k: nat, l: nat)
    returns (a: nat, b: nat)
    requires LogOk(sessions, sids, log) && k < |sids| && l < |sids| && k != l && sids[k] == sids[l]
    ensures RemovedBetween(log, sids[k], k, l, a, b)
  {
    var id := sids[k];
    a :| 0 <= a < |log| && log[a] == Created(id, k);
    b :| 0 <= b < |log| && log[b] == Created(id, l);
    if b < a {
      a, b := b, a;
    }
    if Removed(id) !in log[a..b] {
      BetweenRemovals(log, a, b, id);
    }
  }
}
