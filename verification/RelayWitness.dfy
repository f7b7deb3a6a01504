/** The machine at work: no task is ever blocked, handlers run whole, and packets and
    answers do get through. */
module RelayWitness {
  import opened Bounded
  import opened Codec
  import opened SessionIds
  import Framing
  import Windows
  import opened Relay
  import C = ClientState
  import S = ServerState
  import opened RelayOrigins
  import opened RelaySafety

  /** What a client task does next. */
  function ClientNext(t: nat, x: ClientTask): Step {
    match x
    case Source(_, _) => OnSource(t, ReadTable)
    case Absent(_, _) => OnSource(t, WriteTable(0, 0))
    case Unindexed(_, _, _) => OnSource(t, WriteIndex)
    case HasSession(_, _, _) => OnSource(t, TakeNumber)
    case Sending(_, _) => OnSource(t, SendUdp)
    case Dialling(_, _, _) => OnSource(t, Dial(true))
    case Writing(_, _, _) => OnSource(t, SendTcp(true))
    case ByUdp(_) => OnResponse(t, FindAddr)
    case At(_, _) => OnResponse(t, FindSession)
    case Ready(_, _, _) => OnResponse(t, CheckResponse)
    case Passed(_, _, _) => OnResponse(t, Emit)
  }

  /** What a server task does next; a response sent to every path is finished. */
  function ServerNext(t: nat, x: ServerTask): Step {
    match x
    case Arrived(_, _) => OnPacket(t, ReadSessions)
    case Missed(_, _) => OnPacket(t, WriteSessions(true, 0))
    case Held(_, _, _) => OnPacket(t, CheckPacket)
    case Accepted(_, _, _) => OnPacket(t, NoteConn)
    case Noted(_, _, _) => OnPacket(t, AddPath)
    case Registered(_, _) => OnPacket(t, ForwardPacket)
    case Answering(_, _) => OnAnswer(t, DrawNumber)
    case Numbered(_) => OnAnswer(t, Snapshot)
    case Fanning(_, left) => OnAnswer(t, if left == [] then ServerDrops else SendCopy(true))
    case Unlinking(_, _) => OnAnswer(t, UnlinkConn)
  }

  /** The conditions that make a step well defined never block a handler: in every reachable
      state every task can take its next step. */
  lemma {:induction false} NoTaskIsBlocked(window: nat, start: U64, steps: seq<Step>, t: nat)
    requires window >= 1 && Run(window, start, steps).Some?
    ensures var s := Run(window, start, steps).value;
            && (t in s.clientTasks ==> Enabled(s, ClientNext(t, s.clientTasks[t])))
            && (t in s.serverTasks ==> Enabled(s, ServerNext(t, s.serverTasks[t])))
  {
    RunsAreSafe(window, start, steps);
    var s := Run(window, start, steps).value;
    if t in s.clientTasks { ClientGoesOn(s, t); }
    if t in s.serverTasks { ServerGoesOn(s, t); }
  }

  lemma ClientGoesOn(s: State, t: nat)
    requires Invariant(s) && t in s.clientTasks
    ensures Enabled(s, ClientNext(t, s.clientTasks[t]))
  {
    assert ClientTaskOk(H(s), s.clientTasks[t]);
  }

  lemma ServerGoesOn(s: State, t: nat)
    requires Invariant(s) && t in s.serverTasks
    ensures Enabled(s, ServerNext(t, s.serverTasks[t]))
  {
    assert ServerTaskOk(H(s), s.serverTasks[t]);
  }

  lemma Then(window: nat, start: U64, steps: seq<Step>, s: State, step: Step) returns (more: seq<Step>, s': State)
    requires Run(window, start, steps) == Some(s) && Enabled(s, step)
    ensures s' == Apply(window, s, step) && Run(window, start, more) == Some(s') && more == steps + [step]
  {
    more, s' := steps + [step], Apply(window, s, step);
    assert more[..|steps|] == steps;
  }

  /** The client's half of the state, and what is on its way to and from it. */
  ghost predicate SameClientEnd(s: State, s': State) {
    && s'.cli == s.cli && s'.clientTasks == s.clientTasks && s'.clientAddrs == s.clientAddrs
    && s'.emitted == s.emitted && s'.answers == s.answers && s'.udpUp == s.udpUp
  }

  /** What a whole packet handler does, as `ServerState.OnPacket` says. */
  ghost predicate Handles(window: nat, s: State, t: nat, connected: bool, now: int, s': State)
    requires S.WellFormed(s.srv) && t in s.serverTasks && s.serverTasks[t].Arrived?
  {
    var x := s.serverTasks[t];
    var h := S.OnPacket(s.srv, x.p.id, x.p.q, x.via, connected, window, now);
    && s'.srv == h.state && t !in s'.serverTasks && SameClientEnd(s, s')
    && s'.forwarded == s.forwarded + (if h.verdict.Forward? then [Forwarded(h.verdict.session, x.p)] else [])
  }

  /** The two granularities agree: a packet handler whose regions run without interruption does
      to the server what `ServerState.OnPacket` says, and forwards when that says so. */
  lemma {:induction false} UninterruptedHandler(window: nat, start: U64, steps: seq<Step>, s: State, t: nat,
                                                connected: bool, now: int)
    returns (more: seq<Step>, s': State)
    requires window >= 1 && Run(window, start, steps) == Some(s)
    requires t in s.serverTasks && s.serverTasks[t].Arrived?
    ensures S.WellFormed(s.srv) && Run(window, start, more) == Some(s')
    ensures Handles(window, s, t, connected, now, s')
  {
    ServerIsWellFormed(window, start, steps);
    var id := s.serverTasks[t].p.id;
    more, s' := Then(window, start, steps, s, OnPacket(t, ReadSessions));
    if id in s.srv.sessions {
      more, s' := HandlePresent(window, start, more, s, s', t, connected, now);
    } else if connected {
      more, s' := HandleAbsent(window, start, more, s, s', t, now);
    } else {
      more, s' := HandleRefused(window, start, more, s, s', t, now);
    }
  }

  lemma {:induction false} ServerIsWellFormed(window: nat, start: U64, steps: seq<Step>)
    requires window >= 1 && Run(window, start, steps).Some?
    ensures S.WellFormed(Run(window, start, steps).value.srv)
  {
    RunsAreSafe(window, start, steps);
  }

  lemma {:induction false} HandleRefused(window: nat, start: U64, steps: seq<Step>, s: State, r: State, t: nat,
                                         now: int)
    returns (more: seq<Step>, s': State)
    requires S.WellFormed(s.srv) && PacketEnabled(s, t, ReadSessions) && s.serverTasks[t].p.id !in s.srv.sessions
    requires r == PacketApply(window, s, t, ReadSessions) && Run(window, start, steps) == Some(r)
    ensures Run(window, start, more) == Some(s') && Handles(window, s, t, false, now, s')
  {
    more, s' := Then(window, start, steps, r, OnPacket(t, WriteSessions(false, now)));
  }

  lemma {:induction false} HandlePresent(window: nat, start: U64, steps: seq<Step>, s: State, r: State, t: nat,
                                         connected: bool, now: int)
    returns (more: seq<Step>, s': State)
    requires S.WellFormed(s.srv) && PacketEnabled(s, t, ReadSessions) && s.serverTasks[t].p.id in s.srv.sessions
    requires r == PacketApply(window, s, t, ReadSessions) && Run(window, start, steps) == Some(r)
    ensures Run(window, start, more) == Some(s') && Handles(window, s, t, connected, now, s')
  {
    var x := s.serverTasks[t];
    assert r.serverTasks[t] == Held(x.p, x.via, s.srv.sessions[x.p.id]) && SameClientEnd(s, r);
    more, s' := FinishHandler(window, start, steps, r, t, now);
  }

  lemma {:induction false} HandleAbsent(window: nat, start: U64, steps: seq<Step>, s: State, r: State, t: nat, now: int)
    returns (more: seq<Step>, s': State)
    requires S.WellFormed(s.srv) && PacketEnabled(s, t, ReadSessions) && s.serverTasks[t].p.id !in s.srv.sessions
    requires r == PacketApply(window, s, t, ReadSessions) && Run(window, start, steps) == Some(r)
    ensures Run(window, start, more) == Some(s') && Handles(window, s, t, true, now, s')
  {
    var x := s.serverTasks[t];
    var f := S.FindOrCreate(s.srv, x.p.id, true, window, now);
    more, s' := Then(window, start, steps, r, OnPacket(t, WriteSessions(true, now)));
    assert s'.srv == f.state && s'.serverTasks[t] == Held(x.p, x.via, f.session.value) && SameClientEnd(s, s');
    assert f.session.value < |f.state.heap|;
    more, s' := FinishHandler(window, start, more, s', t, now);
  }

  lemma {:induction false} FinishHandler(window: nat, start: U64, steps: seq<Step>, s: State, t: nat, now: int)
    returns (more: seq<Step>, s': State)
    requires Run(window, start, steps) == Some(s)
    requires t in s.serverTasks && s.serverTasks[t].Held? && s.serverTasks[t].k < |s.srv.heap|
    ensures Run(window, start, more) == Some(s') && t !in s'.serverTasks && SameClientEnd(s, s')
    ensures var x := s.serverTasks[t];
            var u := S.Touch(s.srv, x.k, now);
            var v := S.Mark(u, x.k, x.p.q);
            if S.IsDuplicate(u, x.k, x.p.q) then s'.srv == v && s'.forwarded == s.forwarded
            else
              && s'.srv == S.AddPath(S.NoteConn(v, x.via, x.p.id), x.p.id, x.via)
              && s'.forwarded == s.forwarded + [Forwarded(x.k, x.p)]
  {
    var x := s.serverTasks[t];
    more, s' := Then(window, start, steps, s, OnSweep(TouchServer(x.k, now)));
    assert s'.serverTasks[t] == x;
    var duplicate := S.IsDuplicate(s'.srv, x.k, x.p.q);
    more, s' := Then(window, start, more, s', OnPacket(t, CheckPacket));
    if !duplicate {
      assert s'.serverTasks[t] == Accepted(x.p, x.via, x.k);
      more, s' := Then(window, start, more, s', OnPacket(t, NoteConn));
      assert s'.serverTasks[t] == Noted(x.p, x.via, x.k);
      more, s' := Then(window, start, more, s', OnPacket(t, AddPath));
      assert s'.serverTasks[t] == Registered(x.p, x.k);
      more, s' := Then(window, start, more, s', OnPacket(t, ForwardPacket));
    }
  }

  function AnswerMsg(s: State, d: nat): Msg
    requires d < |s.answers|
  {
    Msg(Encode(s.answers[d].id, s.answers[d].n, s.answers[d].payload), d)
  }

  /** A response still to be sent by UDP gets onto the network. */
  lemma {:induction false} CopyGetsOut(window: nat, start: U64, steps: seq<Step>, s: State, t: nat, p: S.Path)
    returns (more: seq<Step>, s': State)
    requires Run(window, start, steps) == Some(s)
    requires t in s.serverTasks && s.serverTasks[t].Fanning? && s.serverTasks[t].d < |s.answers|
    requires p in s.serverTasks[t].left && p.Udp?
    ensures Run(window, start, more) == Some(s') && SameClientEnd(s, s') && s'.forwarded == s.forwarded
    ensures Mail(AnswerMsg(s, s.serverTasks[t].d), p.addr) in s'.udpDown
    decreases |s.serverTasks[t].left|
  {
    var x := s.serverTasks[t];
    more, s' := Then(window, start, steps, s, OnAnswer(t, SendCopy(false)));
    if x.left[0] != p {
      assert s'.serverTasks[t] == Fanning(x.d, x.left[1..]);
      more, s' := CopyGetsOut(window, start, more, s', t, p);
    }
  }

  /** A datagram of the target is numbered and its copies are sent. */
  lemma AnswerGetsOut(window: nat, start: U64, steps: seq<Step>, s: State, t: nat, from: nat, payload: Bytes, p: S.Path)
    returns (more: seq<Step>, s': State)
    requires Run(window, start, steps) == Some(s) && t !in s.serverTasks
    requires from < |s.srv.heap| && |payload| <= Framing.MAX_PAYLOAD
    requires S.Find(s.srv, s.srv.heap[from].id) == Some(from)
    requires p in S.PathsOf(s.srv, s.srv.heap[from].id) && p.Udp?
    ensures Run(window, start, more) == Some(s') && SameClientEnd(s.(answers := s'.answers), s')
    ensures s'.forwarded == s.forwarded
    ensures var x := s.srv.heap[from];
            Mail(Msg(Encode(x.id, x.responseSeq, payload), |s.answers|), p.addr) in s'.udpDown
  {
    more, s' := Then(window, start, steps, s, OnAnswer(t, TargetDatagram(from, payload)));
    assert s'.serverTasks[t] == Answering(from, payload);
    more, s' := Then(window, start, more, s', OnAnswer(t, DrawNumber));
    assert s'.serverTasks[t] == Numbered(|s.answers|);
    more, s' := Then(window, start, more, s', OnAnswer(t, Snapshot));
    assert s'.serverTasks[t] == Fanning(|s.answers|, S.PathsOf(s.srv, s.srv.heap[from].id));
    more, s' := CopyGetsOut(window, start, more, s', t, p);
  }

  /** Answers do come back: from every reachable state, a datagram of the target to a live
      session with a UDP path whose address still reaches the client can be brought to the very
      source the client lists for that id, unless the client's window rejects its number. */
  lemma {:induction false} AnswerComesBack(window: nat, start: U64, steps: seq<Step>, s: State, t: nat, u: nat,
                                           from: nat, payload: Bytes, p: S.Path, addr: Addr, k: nat)
    returns (more: seq<Step>, s': State)
    requires window >= 1 && Run(window, start, steps) == Some(s)
    requires t !in s.serverTasks && u !in s.clientTasks
    requires from < |s.srv.heap| && |payload| <= Framing.MAX_PAYLOAD
    requires S.Find(s.srv, s.srv.heap[from].id) == Some(from)
    requires p in S.PathsOf(s.srv, s.srv.heap[from].id) && p.Udp? && p.addr in s.clientAddrs
    requires C.FindAddr(s.cli, s.srv.heap[from].id) == Some(addr)
    requires C.FindSession(s.cli, addr) == Some(k) && k < |s.cli.heap|
    requires !C.IsDuplicate(s.cli, k, s.srv.heap[from].responseSeq)
    ensures Run(window, start, more) == Some(s') && s'.forwarded == s.forwarded
    ensures var x := s.srv.heap[from];
            s'.emitted == s.emitted + [Emitted(k, addr, Pkt(x.id, x.responseSeq, payload, |s.answers|))]
  {
    var x := s.srv.heap[from];
    var m := Msg(Encode(x.id, x.responseSeq, payload), |s.answers|);
    var pkt := Pkt(x.id, x.responseSeq, payload, |s.answers|);
    DecodeEncode(x.id, x.responseSeq, payload);
    more, s' := AnswerGetsOut(window, start, steps, s, t, from, payload, p);
    more, s' := Then(window, start, more, s', OnResponse(u, HearUdp(m, p.addr)));
    assert s'.clientTasks[u] == ByUdp(pkt);
    more, s' := Then(window, start, more, s', OnResponse(u, FindAddr));
    assert s'.clientTasks[u] == At(addr, pkt);
    more, s' := Then(window, start, more, s', OnResponse(u, FindSession));
    assert s'.clientTasks[u] == Ready(addr, pkt, k);
    more, s' := Then(window, start, more, s', OnResponse(u, CheckResponse));
    assert s'.clientTasks[u] == Passed(addr, pkt, k);
    more, s' := Then(window, start, more, s', OnResponse(u, Emit));
  }

  /** A new source gets a session ... */
  lemma NewSource(window: nat, start: U64, addr: Addr, payload: Bytes) returns (steps: seq<Step>, s: State)
    ensures Run(window, start, steps) == Some(s) && forall x <- steps :: x.OnSource?
    ensures s == Init(start).(clientTasks := map[0 := Absent(addr, payload)])
  {
    steps, s := Then(window, start, [], Init(start), OnSource(0, SourcePacket(addr, payload)));
    assert s == Init(start).(clientTasks := map[0 := Source(addr, payload)]);
    steps, s := Then(window, start, steps, s, OnSource(0, ReadTable));
    assert s.clientTasks == map[0 := Absent(addr, payload)];
  }

  lemma OpenSession(window: nat, start: U64, addr: Addr, payload: Bytes) returns (steps: seq<Step>, s: State)
    ensures Run(window, start, steps) == Some(s)
    ensures s.clientTasks == map[0 := HasSession(addr, payload, 0)] && s.owners == [Owner(Draw(start).id, addr)]
    ensures s.cli.heap == [C.Session(Draw(start).id, 5, Windows.New(C.RESPONSE_WINDOW), 0)]
    ensures s.cli.udpSessions == map[addr := 0] && s.cli.udpAddrs == map[Draw(start).id := addr]
    ensures s.assignments == [] && s.answers == [] && s.udpUp == {}
    ensures s.checks == [] && forall x <- steps :: x.OnSource?
    ensures s.srv == S.EMPTY && s.serverTasks == map[] && s.forwarded == [] && s.emitted == []
  {
    steps, s := NewSource(window, start, addr, payload);
    steps, s := Then(window, start, steps, s, OnSource(0, WriteTable(5, 0)));
    assert s.clientTasks == map[0 := Unindexed(addr, payload, 0)] && |s.cli.heap| == 1;
    steps, s := Then(window, start, steps, s, OnSource(0, WriteIndex));
  }

  /** ... its packet a number, and a copy of it leaves by UDP. */
  lemma RequestLeaves(window: nat, start: U64, addr: Addr, payload: Bytes) returns (steps: seq<Step>, s: State)
    ensures Run(window, start, steps) == Some(s)
    ensures s.cli.udpSessions == map[addr := 0] && s.cli.udpAddrs == map[Draw(start).id := addr]
    ensures |s.cli.heap| == 1 && s.cli.heap[0].window == Windows.New(C.RESPONSE_WINDOW)
    ensures s.clientTasks.Keys == {0} && s.udpUp == {Msg(Encode(Draw(start).id, 5, payload), 0)}
    ensures s.answers == [] && s.srv == S.EMPTY && s.serverTasks == map[] && s.forwarded == [] && s.emitted == []
    ensures s.cli.heap[0].nextSeq == 6 && |s.assignments| == 1 && s.owners == [Owner(Draw(start).id, addr)]
    ensures s.checks == [] && forall x <- steps :: x.OnSource?
  {
    steps, s := OpenSession(window, start, addr, payload);
    steps, s := Then(window, start, steps, s, OnSource(0, TakeNumber));
    assert s.clientTasks == map[0 := Sending(addr, 0)] && s.assignments == [Assignment(0, 5, payload)];
    steps, s := Then(window, start, steps, s, OnSource(0, SendUdp));
  }

  /** A second packet of the source leaves by UDP as well. */
  lemma SecondLeaves(window: nat, start: U64, addr: Addr, payload: Bytes) returns (steps: seq<Step>, s: State)
    ensures Run(window, start, steps) == Some(s)
    ensures Msg(Encode(Draw(start).id, 5, payload), 0) in s.udpUp
    ensures Msg(Encode(Draw(start).id, 6, payload), 1) in s.udpUp
    ensures s.srv == S.EMPTY && s.serverTasks == map[] && s.forwarded == [] && s.checks == []
    ensures forall x <- steps :: x.OnSource?
  {
    steps, s := RequestLeaves(window, start, addr, payload);
    steps, s := SecondTaken(window, start, steps, s, addr, payload);
    steps, s := Then(window, start, steps, s, OnSource(1, SendUdp));
  }

  lemma SecondTaken(window: nat, start: U64, steps: seq<Step>, s: State, addr: Addr, payload: Bytes)
    returns (more: seq<Step>, s': State)
    requires Run(window, start, steps) == Some(s) && 1 !in s.clientTasks && s.cli.udpSessions == map[addr := 0]
    requires |s.cli.heap| == 1 && s.cli.heap[0].nextSeq == 6 && |s.assignments| == 1
    requires forall x <- steps :: x.OnSource?
    ensures Run(window, start, more) == Some(s') && forall x <- more :: x.OnSource?
    ensures 1 in s'.clientTasks && s'.clientTasks[1] == Sending(addr, 1)
    ensures |s'.assignments| == 2 && s'.assignments[1] == Assignment(0, 6, payload)
    ensures s'.owners == s.owners && s'.udpUp == s.udpUp && s'.srv == s.srv && s'.serverTasks == s.serverTasks
    ensures s'.forwarded == s.forwarded && s'.checks == s.checks
  {
    more, s' := Then(window, start, steps, s, OnSource(1, SourcePacket(addr, payload)));
    assert s'.clientTasks[1] == Source(addr, payload);
    more, s' := Then(window, start, more, s', OnSource(1, ReadTable));
    assert s'.clientTasks[1] == HasSession(addr, payload, 0);
    more, s' := Then(window, start, more, s', OnSource(1, TakeNumber));
  }

  /** Its copy by UDP reaches the server from the address `from`. */
  lemma RequestArrives(window: nat, start: U64, addr: Addr, payload: Bytes, from: Addr)
    returns (steps: seq<Step>, s: State)
    ensures Run(window, start, steps) == Some(s)
    ensures s.cli.udpSessions == map[addr := 0] && s.cli.udpAddrs == map[Draw(start).id := addr]
    ensures |s.cli.heap| == 1 && s.cli.heap[0].window == Windows.New(C.RESPONSE_WINDOW)
    ensures s.clientTasks.Keys == {0} && s.clientAddrs == {from} && s.answers == [] && s.emitted == []
    ensures s.srv == S.EMPTY && s.forwarded == []
    ensures s.serverTasks == map[0 := Arrived(Pkt(Draw(start).id, 5, payload, 0), S.Udp(0, from))]
  {
    var id := Draw(start).id;
    DecodeEncode(id, 5, payload);
    steps, s := RequestLeaves(window, start, addr, payload);
    steps, s := Then(window, start, steps, s, OnPacket(0, ServerHearsUdp(Msg(Encode(id, 5, payload), 0), 0, from)));
    steps, s := Then(window, start, steps, s, OnSweep(Rebind({from})));
  }

  lemma FirstPacket(id: U64, q: U32, listener: nat, from: Addr, window: nat, now: int)
    ensures var h := S.OnPacket(S.EMPTY, id, q, S.Udp(listener, from), true, window, now);
            && h.verdict == S.Forward(0) && S.Find(h.state, id) == Some(0) && |h.state.heap| == 1
            && h.state.heap[0].id == id && h.state.heap[0].responseSeq == 0
            && S.PathsOf(h.state, id) == [S.Udp(listener, from)]
  {
  }

  /** The whole way there and back: for every source, payload and answer there is a run in which
      the payload reaches the target and the answer reaches the source. */
  lemma RoundTripHappens(window: nat, start: U64, addr: Addr, payload: Bytes, answer: Bytes) returns (steps: seq<Step>)
    requires window >= 1 && |answer| <= Framing.MAX_PAYLOAD
    ensures Run(window, start, steps).Some?
    ensures var s := Run(window, start, steps).value;
            && |s.forwarded| == 1 && s.forwarded[0].p.payload == payload
            && |s.emitted| == 1 && s.emitted[0].addr == addr && s.emitted[0].p.payload == answer
  {
    var s;
    var id := Draw(start).id;
    steps, s := RequestArrives(window, start, addr, payload, 9);
    FirstPacket(id, 5, 0, 9, window, 0);
    steps, s := UninterruptedHandler(window, start, steps, s, 0, true, 0);
    assert s.forwarded == [Forwarded(0, Pkt(id, 5, payload, 0))];
    assert !C.IsDuplicate(s.cli, 0, 0);
    steps, s := AnswerComesBack(window, start, steps, s, 0, 1, 0, answer, S.Udp(0, 9), addr, 0);
  }
}
