/** The two granularities agree: a handler whose regions run without interruption does what the
    handler-level model says.  Packets at the server are in `RelayWitness.UninterruptedHandler`. */
module RelayHandlers {
  import opened Bounded
  import opened Codec
  import opened Framing
  import Windows
  import C = ClientState
  import S = ServerState
  import opened Relay
  import opened RelayOrigins
  import opened RelaySafety
  import opened RelayWitness

  lemma {:induction false} TablesAreWellFormed(window: nat, start: U64, steps: seq<Step>)
    requires window >= 1 && Run(window, start, steps).Some?
    ensures C.WellFormed(Run(window, start, steps).value.cli) && S.WellFormed(Run(window, start, steps).value.srv)
  {
    RunsAreSafe(window, start, steps);
  }

  // ------------------------------------------------------------ a source packet

  /** The first half: the handler gets its session. */
  lemma {:induction false} GetsSession(window: nat, start: U64, steps: seq<Step>, s: State, t: nat, initial: U32,
                                       now: int)
    returns (more: seq<Step>, s': State)
    requires Run(window, start, steps) == Some(s) && initial < C.INITIAL_SEQ_BOUND && C.WellFormed(s.cli)
    requires t in s.clientTasks && s.clientTasks[t].Source?
    ensures Run(window, start, more) == Some(s')
    ensures var x := s.clientTasks[t];
            var f := C.GetOrCreate(s.cli, x.addr, initial, now);
            && s'.cli == f.state && s'.clientTasks == s.clientTasks[t := HasSession(x.addr, x.payload, f.session)]
    ensures s'.assignments == s.assignments
  {
    var x := s.clientTasks[t];
    more, s' := Then(window, start, steps, s, OnSource(t, ReadTable));
    if x.addr !in s.cli.udpSessions {
      assert s'.clientTasks == s.clientTasks[t := Absent(x.addr, x.payload)] && s'.cli == s.cli;
      more, s' := OpensSession(window, start, more, s', t, initial, now);
    }
  }

  lemma {:induction false} OpensSession(window: nat, start: U64, steps: seq<Step>, s: State, t: nat, initial: U32,
                                        now: int)
    returns (more: seq<Step>, s': State)
    requires Run(window, start, steps) == Some(s) && initial < C.INITIAL_SEQ_BOUND && C.WellFormed(s.cli)
    requires t in s.clientTasks && s.clientTasks[t].Absent? && s.clientTasks[t].addr !in s.cli.udpSessions
    ensures Run(window, start, more) == Some(s')
    ensures var x := s.clientTasks[t];
            var f := C.GetOrCreate(s.cli, x.addr, initial, now);
            && s'.cli == f.state && s'.clientTasks == s.clientTasks[t := HasSession(x.addr, x.payload, f.session)]
    ensures s'.assignments == s.assignments
  {
    var x := s.clientTasks[t];
    var f := C.FindOrCreate(s.cli, x.addr, initial, now);
    more, s' := Then(window, start, steps, s, OnSource(t, WriteTable(initial, now)));
    assert s'.clientTasks == s.clientTasks[t := Unindexed(x.addr, x.payload, f.session)] && s'.cli == f.state;
    more, s' := Then(window, start, more, s', OnSource(t, WriteIndex));
  }

  /** A source packet: the tables become what `ClientState.Apply` says, and the packet is given the
      session and the number that `ClientState.Numbered` says. */
  lemma {:induction false} UninterruptedSource(window: nat, start: U64, steps: seq<Step>, s: State, t: nat,
                                               initial: U32, now: int)
    returns (more: seq<Step>, s': State)
    requires window >= 1 && Run(window, start, steps) == Some(s) && initial < C.INITIAL_SEQ_BOUND
    requires t in s.clientTasks && s.clientTasks[t].Source?
    ensures C.WellFormed(s.cli) && Run(window, start, more) == Some(s')
    ensures var x := s.clientTasks[t];
            var ticket := C.Numbered(s.cli, x.addr, initial, now);
            && s'.cli == C.Apply(s.cli, C.Source(x.addr, initial, now))
            && s'.assignments == s.assignments + [Assignment(ticket.session, ticket.q, x.payload)]
            && s'.clientTasks == s.clientTasks[t := Sending(x.addr, |s.assignments|)]
  {
    TablesAreWellFormed(window, start, steps);
    var x := s.clientTasks[t];
    more, s' := GetsSession(window, start, steps, s, t, initial, now);
    var k := s'.clientTasks[t].k;
    more, s' := Then(window, start, more, s', OnSource(t, TakeNumber));
    more, s' := Then(window, start, more, s', OnSweep(TouchClient(k, now)));
  }

  // ---------------------------------------------------------------- a response

  /** A response whose source is known: checked against the session of that source, which it
      stamps, and emitted, exactly when it passes. */
  lemma {:induction false} UninterruptedTcpResponse(window: nat, start: U64, steps: seq<Step>, s: State, t: nat,
                                                    now: int)
    returns (more: seq<Step>, s': State)
    requires window >= 1 && Run(window, start, steps) == Some(s)
    requires t in s.clientTasks && s.clientTasks[t].At?
    ensures C.WellFormed(s.cli) && Run(window, start, more) == Some(s') && t !in s'.clientTasks
    ensures var x := s.clientTasks[t];
            var session := C.FindSession(s.cli, x.addr);
            && s'.cli == C.Apply(s.cli, C.TcpResponse(x.addr, x.p.q, now))
            && s'.emitted == s.emitted +
                 (if C.Passes(s.cli, session, x.p.q) then [Emitted(session.value, x.addr, x.p)] else [])
  {
    TablesAreWellFormed(window, start, steps);
    var x := s.clientTasks[t];
    more, s' := Then(window, start, steps, s, OnResponse(t, FindSession));
    if x.addr in s.cli.udpSessions {
      var k := s.cli.udpSessions[x.addr];
      assert s'.clientTasks[t] == Ready(x.addr, x.p, k) && s'.cli == s.cli;
      more, s' := ChecksResponse(window, start, more, s', t, now);
    }
  }

  lemma {:induction false} ChecksResponse(window: nat, start: U64, steps: seq<Step>, s: State, t: nat, now: int)
    returns (more: seq<Step>, s': State)
    requires Run(window, start, steps) == Some(s) && C.WellFormed(s.cli)
    requires t in s.clientTasks && s.clientTasks[t].Ready? && s.clientTasks[t].k < |s.cli.heap|
    ensures Run(window, start, more) == Some(s') && t !in s'.clientTasks
    ensures var x := s.clientTasks[t];
            && s'.cli == C.OnResponse(s.cli, Some(x.k), x.p.q, now)
            && s'.emitted == s.emitted +
                 (if C.Passes(s.cli, Some(x.k), x.p.q) then [Emitted(x.k, x.addr, x.p)] else [])
  {
    var x := s.clientTasks[t];
    var duplicate := C.IsDuplicate(s.cli, x.k, x.p.q);
    Windows.StepRejects(s.cli.heap[x.k].window, x.p.q, x.p.q);
    more, s' := Then(window, start, steps, s, OnResponse(t, CheckResponse));
    if !duplicate {
      assert s'.clientTasks[t] == Passed(x.addr, x.p, x.k) && s'.cli == C.Mark(s.cli, x.k, x.p.q);
      more, s' := Then(window, start, more, s', OnSweep(TouchClient(x.k, now)));
      assert s'.clientTasks[t] == Passed(x.addr, x.p, x.k);
      more, s' := Then(window, start, more, s', OnResponse(t, Emit));
    }
  }

  /** A response that came by UDP: the id names the source, then the same. */
  lemma {:induction false} UninterruptedUdpResponse(window: nat, start: U64, steps: seq<Step>, s: State, t: nat,
                                                    now: int)
    returns (more: seq<Step>, s': State)
    requires window >= 1 && Run(window, start, steps) == Some(s)
    requires t in s.clientTasks && s.clientTasks[t].ByUdp?
    ensures C.WellFormed(s.cli) && Run(window, start, more) == Some(s') && t !in s'.clientTasks
    ensures var p := s.clientTasks[t].p;
            var session := C.Lookup(s.cli, p.id);
            && s'.cli == C.Apply(s.cli, C.UdpResponse(p.id, p.q, now))
            && s'.emitted == s.emitted +
                 (if C.Passes(s.cli, session, p.q) then [Emitted(session.value, s.cli.udpAddrs[p.id], p)] else [])
  {
    TablesAreWellFormed(window, start, steps);
    var p := s.clientTasks[t].p;
    more, s' := Then(window, start, steps, s, OnResponse(t, FindAddr));
    if p.id in s.cli.udpAddrs {
      assert s'.clientTasks[t] == At(s.cli.udpAddrs[p.id], p) && s'.cli == s.cli;
      more, s' := UninterruptedTcpResponse(window, start, more, s', t, now);
    }
  }

  // ------------------------------------------------- a datagram from the target

  /** One copy is on its way: as a datagram to its address, or as a frame on its connection. */
  ghost predicate OnItsWay(s: State, send: S.Send, d: nat) {
    match send.path
    case Udp(_, addr) => Mail(Msg(send.bytes, d), addr) in s.udpDown
    case Tcp(conn) =>
      conn < |s.wires| ==>
        exists m :: m in s.wires[conn].downLog && m.origin == d && Frame(m.bytes) == send.bytes
  }

  /** Nothing on its way is taken back. */
  ghost predicate MoreOnTheWay(s: State, s': State) {
    && s.udpDown <= s'.udpDown && |s'.wires| == |s.wires|
    && forall c | 0 <= c < |s.wires| :: s.wires[c].downLog <= s'.wires[c].downLog
  }

  lemma StaysOnItsWay(s: State, s': State, send: S.Send, d: nat)
    requires OnItsWay(s, send, d) && MoreOnTheWay(s, s')
    ensures OnItsWay(s', send, d)
  {
    match send.path
    case Udp(_, _) =>
    case Tcp(conn) =>
      if conn < |s.wires| {
        var m :| m in s.wires[conn].downLog && m.origin == d && Frame(m.bytes) == send.bytes;
        assert m in s'.wires[conn].downLog;
      }
  }

  lemma CopyIsOnItsWay(s: State, t: nat)
    requires AnswerEnabled(s, t, SendCopy(true))
    ensures var x, s' := s.serverTasks[t], AnswerApply(s, t, SendCopy(true));
            && OnItsWay(s', S.Copy(x.left[0], AnswerMsg(s, x.d).bytes), x.d) && MoreOnTheWay(s, s')
            && s'.srv == s.srv && s'.answers == s.answers
            && s'.serverTasks == s.serverTasks[t := Fanning(x.d, x.left[1..])]
  {
    var x, s' := s.serverTasks[t], AnswerApply(s, t, SendCopy(true));
    var m := AnswerMsg(s, x.d);
    if x.left[0].Tcp? && x.left[0].conn < |s.wires| {
      assert m in s'.wires[x.left[0].conn].downLog;
    }
  }

  lemma {:induction false} SendsCopies(window: nat, start: U64, steps: seq<Step>, s: State, t: nat)
    returns (more: seq<Step>, s': State)
    requires Run(window, start, steps) == Some(s)
    requires t in s.serverTasks && s.serverTasks[t].Fanning? && s.serverTasks[t].d < |s.answers|
    ensures Run(window, start, more) == Some(s') && MoreOnTheWay(s, s')
    ensures s'.srv == s.srv && s'.answers == s.answers
    ensures s'.serverTasks == s.serverTasks[t := Fanning(s.serverTasks[t].d, [])]
    ensures var x := s.serverTasks[t];
            forall i | 0 <= i < |x.left| :: OnItsWay(s', S.Copy(x.left[i], AnswerMsg(s, x.d).bytes), x.d)
    decreases |s.serverTasks[t].left|
  {
    var x := s.serverTasks[t];
    if x.left == [] {
      more, s' := steps, s;
    } else {
      CopyIsOnItsWay(s, t);
      var u;
      more, u := Then(window, start, steps, s, OnAnswer(t, SendCopy(true)));
      more, s' := SendsCopies(window, start, more, u, t);
      StaysOnItsWay(u, s', S.Copy(x.left[0], AnswerMsg(s, x.d).bytes), x.d);
      forall i | 0 <= i < |x.left| ensures OnItsWay(s', S.Copy(x.left[i], AnswerMsg(s, x.d).bytes), x.d) {
        if i > 0 { assert x.left[1..][i - 1] == x.left[i]; }
      }
    }
  }

  /** A datagram of the target: the server becomes what `ServerState.OnTarget` says, and everything
      that it says is sent is on its way. */
  lemma {:induction false} UninterruptedAnswer(window: nat, start: U64, steps: seq<Step>, s: State, t: nat, now: int)
    returns (more: seq<Step>, s': State)
    requires window >= 1 && Run(window, start, steps) == Some(s)
    requires t in s.serverTasks && s.serverTasks[t].Answering? && s.serverTasks[t].from < |s.srv.heap|
    requires s.srv.heap[s.serverTasks[t].from].id in s.srv.sessions
    ensures S.WellFormed(s.srv) && Run(window, start, more) == Some(s')
    ensures var x := s.serverTasks[t];
            var a := S.OnTarget(s.srv, s.srv.heap[x.from].id, x.payload, now);
            && s'.srv == a.state
            && forall i | 0 <= i < |a.sends| :: OnItsWay(s', a.sends[i], |s.answers|)
  {
    TablesAreWellFormed(window, start, steps);
    var x := s.serverTasks[t];
    var id := s.srv.heap[x.from].id;
    var k := s.srv.sessions[id];
    var a := S.OnTarget(s.srv, id, x.payload, now);
    more, s' := Then(window, start, steps, s, OnSweep(TouchServer(k, now)));
    more, s' := NumbersAndFans(window, start, more, s', t, id);
    more, s' := SendsCopies(window, start, more, s', t);
    forall i | 0 <= i < |a.sends| ensures OnItsWay(s', a.sends[i], |s.answers|) {
      assert a.sends[i] == S.Copy(S.PathsOf(s.srv, id)[i], Encode(id, s.srv.heap[k].responseSeq, x.payload));
    }
  }

  lemma {:induction false} NumbersAndFans(window: nat, start: U64, steps: seq<Step>, s: State, t: nat, id: U64)
    returns (more: seq<Step>, s': State)
    requires Run(window, start, steps) == Some(s) && S.WellFormed(s.srv)
    requires t in s.serverTasks && s.serverTasks[t].Answering? && s.serverTasks[t].from < |s.srv.heap|
    requires s.srv.heap[s.serverTasks[t].from].id == id && id in s.srv.sessions
    ensures Run(window, start, more) == Some(s')
    ensures var x, k := s.serverTasks[t], s.srv.sessions[id];
            && s'.srv == S.DrawSeq(s.srv, k)
            && s'.answers == s.answers + [Answer(x.from, k, id, s.srv.heap[k].responseSeq, x.payload)]
            && s'.serverTasks == s.serverTasks[t := Fanning(|s.answers|, S.PathsOf(s.srv, id))]
  {
    more, s' := Then(window, start, steps, s, OnAnswer(t, DrawNumber));
    assert s'.serverTasks == s.serverTasks[t := Numbered(|s.answers|)];
    more, s' := Then(window, start, more, s', OnAnswer(t, Snapshot));
  }

  // ------------------------------------------------------- a closing connection

  /** A connection closes: the server becomes what `ServerState.OnClose` says. */
  lemma {:induction false} UninterruptedClose(window: nat, start: U64, steps: seq<Step>, s: State, t: nat, conn: nat)
    returns (more: seq<Step>, s': State)
    requires Run(window, start, steps) == Some(s) && t !in s.serverTasks
    ensures Run(window, start, more) == Some(s')
    ensures s'.srv == S.OnClose(s.srv, conn) && s'.serverTasks == s.serverTasks
  {
    more, s' := Then(window, start, steps, s, OnAnswer(t, CloseConn(conn)));
    if conn in s.srv.connSession {
      assert s'.serverTasks[t] == Unlinking(conn, s.srv.connSession[conn]);
      more, s' := Then(window, start, more, s', OnAnswer(t, UnlinkConn));
    }
  }
}
