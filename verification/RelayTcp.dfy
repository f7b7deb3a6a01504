/** The ways over TCP: a packet of a source gets to the server, and an answer to its source. */
module RelayTcp {
  import opened Bounded
  import opened Codec
  import opened Framing
  import Windows
  import C = ClientState
  import S = ServerState
  import opened Relay
  import opened RelayOrigins
  import opened RelaySafety
  import opened RelayWitness

  /** The connections agree with their logs, in every run. */
  lemma {:induction false} WiresAreOk(window: nat, start: U64, steps: seq<Step>)
    requires window >= 1 && Run(window, start, steps).Some?
    ensures var s := Run(window, start, steps).value;
            && |s.wires| == |s.sources| && HistoryOk(H(s))
            && (forall c | 0 <= c < |s.wires| :: WireOk(H(s), s.sources[c], s.wires[c]))
            && (forall key <- s.cli.tcpSessions ::
                  s.cli.tcpSessions[key] < |s.wires| && s.sources[s.cli.tcpSessions[key]] == key.source)
            && (forall t <- s.clientTasks :: ClientTaskOk(H(s), s.clientTasks[t]))
  {
    RunsAreSafe(window, start, steps);
  }

  /** A stream with packets in it has a frame to read. */
  lemma HasFrame(log: seq<Msg>, stream: Bytes)
    requires stream == Stream(BytesOf(log)) && log != [] && forall m <- log :: Sendable(m.bytes)
    ensures NextFrame(stream) == Got(log[0].bytes, Stream(BytesOf(log[1..])))
  {
    assert BytesOf(log)[1..] == BytesOf(log[1..]);
    FrameHead(log[0].bytes, Stream(BytesOf(log[1..])));
  }

  // --------------------------------------------------------------- to the server

  /** A source with a packet in hand gets a connection of its own, dialled if need be. */
  lemma {:induction false} Connects(window: nat, start: U64, steps: seq<Step>, s: State, t: nat, server: nat)
    returns (more: seq<Step>, s': State, conn: nat)
    requires window >= 1 && Run(window, start, steps) == Some(s)
    requires t in s.clientTasks && s.clientTasks[t].Sending?
    ensures Run(window, start, more) == Some(s') && conn < |s'.wires| == |s'.sources|
    ensures s'.sources[conn] == s.clientTasks[t].addr && t in s'.clientTasks
    ensures s'.clientTasks[t] == Writing(s.clientTasks[t].addr, s.clientTasks[t].a, conn)
    ensures s'.assignments == s.assignments && s'.owners == s.owners
    ensures s'.srv == s.srv && s'.serverTasks == s.serverTasks
  {
    WiresAreOk(window, start, steps);
    var x := s.clientTasks[t];
    var key := C.Key(x.addr, server);
    more, s' := Then(window, start, steps, s, OnSource(t, FindConn(server)));
    if key in s.cli.tcpSessions {
      conn := s.cli.tcpSessions[key];
    } else {
      conn := |s.wires|;
      assert s'.clientTasks[t] == Dialling(x.addr, x.a, server);
      more, s' := Then(window, start, more, s', OnSource(t, Dial(true)));
    }
  }

  /** And writes the packet to it. */
  lemma {:induction false} GoesUp(window: nat, start: U64, steps: seq<Step>, s: State, t: nat, server: nat)
    returns (more: seq<Step>, s': State, conn: nat)
    requires window >= 1 && Run(window, start, steps) == Some(s)
    requires t in s.clientTasks && s.clientTasks[t].Sending? && HasPacket(s, s.clientTasks[t].a)
    requires |s.assignments[s.clientTasks[t].a].payload| <= MAX_PAYLOAD
    ensures Run(window, start, more) == Some(s') && conn < |s'.wires| == |s'.sources|
    ensures s'.sources[conn] == s.clientTasks[t].addr && s'.wires[conn].upLog != []
    ensures var log := s'.wires[conn].upLog;
            log[|log| - 1] == Msg(PacketOf(s, s.clientTasks[t].a), s.clientTasks[t].a)
    ensures s'.srv == s.srv && s'.serverTasks == s.serverTasks
  {
    more, s', conn := Connects(window, start, steps, s, t, server);
    more, s' := Then(window, start, more, s', OnSource(t, SendTcp(true)));
  }

  /** The server reads one packet from a connection. */
  lemma {:induction false} ReadsOne(window: nat, start: U64, steps: seq<Step>, s: State, conn: nat, u: nat)
    returns (more: seq<Step>, s': State)
    requires window >= 1 && Run(window, start, steps) == Some(s)
    requires conn < |s.wires| && u !in s.serverTasks && s.wires[conn].upLog != []
    ensures Run(window, start, more) == Some(s') && s'.srv == s.srv
    ensures |s'.wires| == |s.wires| && s'.wires[conn].upLog == s.wires[conn].upLog[1..]
    ensures var first := s.wires[conn].upLog[0];
            && Decode(first.bytes).Packet?
            && var d := Decode(first.bytes);
               s'.serverTasks ==
               s.serverTasks[u := Arrived(Pkt(d.id, d.seqNo, d.payload, first.origin), S.Tcp(conn))]
  {
    WiresAreOk(window, start, steps);
    var log := s.wires[conn].upLog;
    assert UpOn(H(s), s.sources[conn], log[0]);
    HasFrame(log, s.wires[conn].up);
    DecodedUp(H(s), log[0]);
    more, s' := Then(window, start, steps, s, OnPacket(u, ServerHearsTcp(conn)));
  }

  /** The server reads up to the last packet on a connection. */
  lemma {:induction false} ReadsToLast(window: nat, start: U64, steps: seq<Step>, s: State, conn: nat, u: nat)
    returns (more: seq<Step>, s': State)
    requires window >= 1 && Run(window, start, steps) == Some(s)
    requires conn < |s.wires| && u !in s.serverTasks && s.wires[conn].upLog != []
    ensures Run(window, start, more) == Some(s') && s'.srv == s.srv
    ensures var log := s.wires[conn].upLog;
            var last := log[|log| - 1];
            && Decode(last.bytes).Packet?
            && var d := Decode(last.bytes);
               s'.serverTasks ==
               s.serverTasks[u := Arrived(Pkt(d.id, d.seqNo, d.payload, last.origin), S.Tcp(conn))]
    decreases |s.wires[conn].upLog|
  {
    more, s' := ReadsOne(window, start, steps, s, conn, u);
    if |s.wires[conn].upLog| > 1 {
      more, s' := Then(window, start, more, s', OnAnswer(u, ServerDrops));
      assert s'.serverTasks == s.serverTasks;
      more, s' := ReadsToLast(window, start, more, s', conn, u);
    }
  }

  /** Requests get through over TCP: from every reachable state, a packet that a source is sending
      can be brought to the server over a connection of that source, byte for byte. */
  lemma {:induction false} RequestGoesByTcp(window: nat, start: U64, steps: seq<Step>, s: State, t: nat, server: nat,
                                            u: nat)
    returns (more: seq<Step>, s': State, conn: nat)
    requires window >= 1 && Run(window, start, steps) == Some(s)
    requires t in s.clientTasks && s.clientTasks[t].Sending? && HasPacket(s, s.clientTasks[t].a)
    requires |s.assignments[s.clientTasks[t].a].payload| <= MAX_PAYLOAD && u !in s.serverTasks
    ensures Run(window, start, more) == Some(s') && s'.srv == s.srv && u in s'.serverTasks
    ensures var it := s.assignments[s.clientTasks[t].a];
            s'.serverTasks[u] ==
            Arrived(Pkt(s.owners[it.session].id, it.q, it.payload, s.clientTasks[t].a), S.Tcp(conn))
  {
    var a := s.clientTasks[t].a;
    var it := s.assignments[a];
    more, s', conn := GoesUp(window, start, steps, s, t, server);
    more, s' := ReadsToLast(window, start, more, s', conn, u);
    DecodeEncode(s.owners[it.session].id, it.q, it.payload);
  }

  // --------------------------------------------------------------- to the source

  /** Everything but the connections is as before. */
  ghost predicate SameButWires(s: State, s': State) {
    && |s'.wires| == |s.wires| && s'.sources == s.sources
    && s'.cli == s.cli && s'.clientTasks == s.clientTasks && s'.emitted == s.emitted
    && s'.srv == s.srv && s'.serverTasks == s.serverTasks && s'.answers == s.answers
  }

  /** The client reads a packet from a connection and gives it up. */
  lemma {:induction false} DrainOne(window: nat, start: U64, steps: seq<Step>, s: State, conn: nat, u: nat)
    returns (more: seq<Step>, s': State)
    requires window >= 1 && Run(window, start, steps) == Some(s) && conn < |s.wires| && u !in s.clientTasks
    requires s.wires[conn].downLog != []
    ensures Run(window, start, more) == Some(s') && SameButWires(s, s')
    ensures s'.wires[conn].downLog == s.wires[conn].downLog[1..]
  {
    WiresAreOk(window, start, steps);
    var log := s.wires[conn].downLog;
    assert DownOn(H(s), s.sources[conn], log[0]);
    HasFrame(log, s.wires[conn].down);
    DecodedDown(H(s), log[0]);
    more, s' := Then(window, start, steps, s, OnResponse(u, HearTcp(conn)));
    assert s'.clientTasks[u].At?;
    more, s' := Then(window, start, more, s', OnResponse(u, ClientDrops));
    assert s'.clientTasks == s.clientTasks;
  }

  /** The client reads everything there is on a connection. */
  lemma {:induction false} Drain(window: nat, start: U64, steps: seq<Step>, s: State, conn: nat, u: nat)
    returns (more: seq<Step>, s': State)
    requires window >= 1 && Run(window, start, steps) == Some(s) && conn < |s.wires| && u !in s.clientTasks
    ensures Run(window, start, more) == Some(s') && SameButWires(s, s') && s'.wires[conn].downLog == []
    decreases |s.wires[conn].downLog|
  {
    if s.wires[conn].downLog == [] {
      more, s' := steps, s;
    } else {
      more, s' := DrainOne(window, start, steps, s, conn, u);
      more, s' := Drain(window, start, more, s', conn, u);
    }
  }

  /** Of the copies of an answer, the one for connection `conn` gets onto it, and no other. */
  lemma {:induction false} CopyGetsOnWire(window: nat, start: U64, steps: seq<Step>, s: State, t: nat, conn: nat)
    returns (more: seq<Step>, s': State)
    requires Run(window, start, steps) == Some(s) && conn < |s.wires|
    requires t in s.serverTasks && s.serverTasks[t].Fanning? && s.serverTasks[t].d < |s.answers|
    requires S.Tcp(conn) in s.serverTasks[t].left
    ensures Run(window, start, more) == Some(s') && |s'.wires| == |s.wires| && s'.sources == s.sources
    ensures s'.wires[conn] == PutDown(s.wires[conn], AnswerMsg(s, s.serverTasks[t].d))
    ensures s'.cli == s.cli && s'.clientTasks == s.clientTasks && s'.emitted == s.emitted
    decreases |s.serverTasks[t].left|
  {
    var x := s.serverTasks[t];
    more, s' := Then(window, start, steps, s, OnAnswer(t, SendCopy(x.left[0] == S.Tcp(conn))));
    if x.left[0] != S.Tcp(conn) {
      assert s'.serverTasks[t] == Fanning(x.d, x.left[1..]);
      more, s' := CopyGetsOnWire(window, start, more, s', t, conn);
    }
  }

  /** The next frame on an empty connection is the answer put there. */
  lemma {:induction false} HearsAnswer(window: nat, start: U64, steps: seq<Step>, s: State, conn: nat, u: nat,
                                       id: U64, q: U32, payload: Bytes, d: nat)
    returns (more: seq<Step>, s': State)
    requires window >= 1 && Run(window, start, steps) == Some(s) && conn < |s.wires| == |s.sources|
    requires u !in s.clientTasks && s.wires[conn].downLog == [Msg(Encode(id, q, payload), d)]
    ensures Run(window, start, more) == Some(s') && s'.cli == s.cli && s'.emitted == s.emitted
    ensures u in s'.clientTasks && s'.clientTasks[u] == At(s.sources[conn], Pkt(id, q, payload, d))
  {
    WiresAreOk(window, start, steps);
    var m := Msg(Encode(id, q, payload), d);
    assert m in s.wires[conn].downLog;
    HasFrame(s.wires[conn].downLog, s.wires[conn].down);
    DecodeEncode(id, q, payload);
    more, s' := Then(window, start, steps, s, OnResponse(u, HearTcp(conn)));
  }

  /** The server numbers a datagram of the target and starts to send it. */
  lemma {:induction false} AnswerStarts(window: nat, start: U64, steps: seq<Step>, s: State, t: nat, from: nat,
                                        payload: Bytes)
    returns (more: seq<Step>, s': State)
    requires Run(window, start, steps) == Some(s) && t !in s.serverTasks
    requires from < |s.srv.heap| && |payload| <= MAX_PAYLOAD
    requires S.Find(s.srv, s.srv.heap[from].id) == Some(from)
    ensures Run(window, start, more) == Some(s') && t in s'.serverTasks
    ensures s'.cli == s.cli && s'.clientTasks == s.clientTasks && s'.emitted == s.emitted
    ensures s'.wires == s.wires && s'.sources == s.sources && |s'.answers| == |s.answers| + 1
    ensures var x := s.srv.heap[from];
            && s'.serverTasks[t] == Fanning(|s.answers|, S.PathsOf(s.srv, x.id))
            && AnswerMsg(s', |s.answers|) == Msg(Encode(x.id, x.responseSeq, payload), |s.answers|)
  {
    more, s' := Then(window, start, steps, s, OnAnswer(t, TargetDatagram(from, payload)));
    assert s'.serverTasks[t] == Answering(from, payload);
    more, s' := Then(window, start, more, s', OnAnswer(t, DrawNumber));
    assert s'.serverTasks[t] == Numbered(|s.answers|);
    more, s' := Then(window, start, more, s', OnAnswer(t, Snapshot));
  }

  /** Answers come back over TCP: from every reachable state, a datagram of the target to a live
      session that lists connection `conn` can be brought to the source of that connection, unless
      the window of that source's session rejects its number. */
  lemma {:induction false} AnswerComesBackByTcp(window: nat, start: U64, steps: seq<Step>, s: State, t: nat, u: nat,
                                                from: nat, payload: Bytes, conn: nat, k: nat)
    returns (more: seq<Step>, s': State)
    requires window >= 1 && Run(window, start, steps) == Some(s)
    requires t !in s.serverTasks && u !in s.clientTasks && conn < |s.wires| == |s.sources|
    requires from < |s.srv.heap| && |payload| <= MAX_PAYLOAD
    requires S.Find(s.srv, s.srv.heap[from].id) == Some(from)
    requires S.Tcp(conn) in S.PathsOf(s.srv, s.srv.heap[from].id)
    requires C.FindSession(s.cli, s.sources[conn]) == Some(k) && k < |s.cli.heap|
    requires !C.IsDuplicate(s.cli, k, s.srv.heap[from].responseSeq)
    ensures Run(window, start, more) == Some(s')
    ensures var x := s.srv.heap[from];
            s'.emitted ==
            s.emitted + [Emitted(k, s.sources[conn], Pkt(x.id, x.responseSeq, payload, |s.answers|))]
  {
    var x, d, addr := s.srv.heap[from], |s.answers|, s.sources[conn];
    var p := Pkt(x.id, x.responseSeq, payload, d);
    more, s' := Drain(window, start, steps, s, conn, u);
    more, s' := AnswerStarts(window, start, more, s', t, from, payload);
    more, s' := CopyGetsOnWire(window, start, more, s', t, conn);
    more, s' := HearsAnswer(window, start, more, s', conn, u, x.id, x.responseSeq, payload, d);
    more, s' := EmitsAt(window, start, more, s', u, addr, p, k);
  }

  lemma {:induction false} EmitsAt(window: nat, start: U64, steps: seq<Step>, s: State, u: nat, addr: Addr, p: Pkt,
                                   k: nat)
    returns (more: seq<Step>, s': State)
    requires Run(window, start, steps) == Some(s)
    requires u in s.clientTasks && s.clientTasks[u] == At(addr, p)
    requires C.FindSession(s.cli, addr) == Some(k) && k < |s.cli.heap| && !C.IsDuplicate(s.cli, k, p.q)
    ensures Run(window, start, more) == Some(s') && s'.emitted == s.emitted + [Emitted(k, addr, p)]
  {
    more, s' := Then(window, start, steps, s, OnResponse(u, FindSession));
    assert s'.clientTasks[u] == Ready(addr, p, k);
    more, s' := Then(window, start, more, s', OnResponse(u, CheckResponse));
    assert s'.clientTasks[u] == Passed(addr, p, k);
    more, s' := Then(window, start, more, s', OnResponse(u, Emit));
  }
}
