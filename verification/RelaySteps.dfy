/** Every step of the relay keeps `RelayOrigins.Invariant`. */
module RelaySteps {
  import opened Bounded
  import opened Windows
  import opened Codec
  import opened Framing
  import C = ClientState
  import S = ServerState
  import opened Relay
  import opened RelayOrigins

  /** A step that does no more than move one task. */
  lemma SetClientKeeps(s: State, t: nat, x: ClientTask)
    requires Invariant(s) && ClientTaskOk(H(s), x)
    ensures Invariant(SetClient(s, t, x)) && Invariant(EndClient(s, t))
  {
    ClientTaskSet(H(s), s.clientTasks, t, x);
  }

  lemma SetServerKeeps(s: State, t: nat, x: ServerTask)
    requires Invariant(s) && ServerTaskOk(H(s), x)
    ensures Invariant(SetServer(s, t, x)) && Invariant(EndServer(s, t))
  {
    ServerTaskSet(H(s), s.serverTasks, t, x);
  }

  lemma DropKeeps(s: State, t: nat)
    requires Invariant(s)
    ensures Invariant(EndClient(s, t)) && Invariant(EndServer(s, t))
  {
  }

  /** Session objects change, ids do not. */
  lemma ServerObjectKeeps(s: State, k: nat, obj: S.TargetSession)
    requires Invariant(s) && k < |s.srv.heap| && obj.id == s.srv.heap[k].id && Sound(obj.window)
    ensures Invariant(s.(srv := s.srv.(heap := s.srv.heap[k := obj])))
  {
    var s' := s.(srv := s.srv.(heap := s.srv.heap[k := obj]));
    assert ServerShape(s');
  }

  lemma ClientObjectKeeps(s: State, k: nat, obj: C.Session)
    requires Invariant(s) && k < |s.cli.heap| && obj.id == s.cli.heap[k].id && Sound(obj.window)
    ensures Invariant(s.(cli := s.cli.(heap := s.cli.heap[k := obj])))
  {
    var s' := s.(cli := s.cli.(heap := s.cli.heap[k := obj]));
    assert ClientShape(s');
  }

  // --------------------------------------------------- client: a source packet

  lemma StartAndLookUp(s: State, t: nat, step: SourceStep)
    requires Invariant(s) && SourceEnabled(s, t, step)
    requires step.SourcePacket? || step.ReadTable? || step.FindConn?
    ensures Invariant(SourceApply(s, t, step))
  {
    var s' := SourceApply(s, t, step);
    assert s' == SetClient(s, t, s'.clientTasks[t]);
    SetClientKeeps(s, t, s'.clientTasks[t]);
  }

  lemma WriteTableKeeps(s: State, t: nat, initial: U32, now: int)
    requires Invariant(s) && SourceEnabled(s, t, WriteTable(initial, now))
    ensures Invariant(SourceApply(s, t, WriteTable(initial, now)))
  {
    var x := s.clientTasks[t];
    var s' := SourceApply(s, t, WriteTable(initial, now));
    if x.addr !in s.cli.udpSessions {
      OriginsGrow(H(s), H(s'), s);
      assert s'.cli.heap[|s.cli.heap|].window == New(C.RESPONSE_WINDOW);
      ClientTaskSet(H(s'), s.clientTasks, t, Unindexed(x.addr, x.payload, |s.cli.heap|));
      assert ClientTablesOk(H(s'), s'.cli);
      assert ClientShape(s');
    } else {
      ClientTaskSet(H(s), s.clientTasks, t, HasSession(x.addr, x.payload, s.cli.udpSessions[x.addr]));
    }
  }

  lemma WriteIndexKeeps(s: State, t: nat)
    requires Invariant(s) && SourceEnabled(s, t, WriteIndex)
    ensures Invariant(SourceApply(s, t, WriteIndex))
  {
    var x := s.clientTasks[t];
    assert s.owners[x.k] == Owner(s.cli.heap[x.k].id, x.addr);
    ClientTaskSet(H(s), s.clientTasks, t, HasSession(x.addr, x.payload, x.k));
  }

  lemma TakeNumberKeeps(s: State, t: nat)
    requires Invariant(s) && SourceEnabled(s, t, TakeNumber)
    ensures Invariant(SourceApply(s, t, TakeNumber))
  {
    var x := s.clientTasks[t];
    var u := s.(cli := C.TakeSeq(s.cli, x.k));
    ClientObjectKeeps(s, x.k, u.cli.heap[x.k]);
    var s' := SourceApply(s, t, TakeNumber);
    OriginsGrow(H(u), H(s'), u);
    ClientTaskSet(H(s'), s.clientTasks, t, Sending(x.addr, |s.assignments|));
  }

  lemma SendUdpKeeps(s: State, t: nat)
    requires Invariant(s) && SourceEnabled(s, t, SendUdp)
    ensures Invariant(SourceApply(s, t, SendUdp))
  {
    var x := s.clientTasks[t];
    assert UpOk(H(s), Msg(PacketOf(s, x.a), x.a));
  }

  /** A new connection belongs to the source it was dialled for. */
  lemma ConnectKeeps(s: State, key: C.Key)
    requires Invariant(s)
    ensures Invariant(s.(cli := s.cli.(tcpSessions := s.cli.tcpSessions[key := |s.wires|]),
                         wires := s.wires + [Wire([], [], [], [])], sources := s.sources + [key.source]))
  {
    var s' := s.(cli := s.cli.(tcpSessions := s.cli.tcpSessions[key := |s.wires|]),
                 wires := s.wires + [Wire([], [], [], [])], sources := s.sources + [key.source]);
    OriginsGrow(H(s), H(s'), s);
    assert BytesOf([]) == [];
    assert WireOk(H(s'), key.source, Wire([], [], [], []));
    assert WiresOk(H(s'), s'.wires);
  }

  lemma DialKeeps(s: State, t: nat, connected: bool)
    requires Invariant(s) && SourceEnabled(s, t, Dial(connected))
    ensures Invariant(SourceApply(s, t, Dial(connected)))
  {
    var x := s.clientTasks[t];
    var key := C.Key(x.addr, x.server);
    if key in s.cli.tcpSessions {
      SetClientKeeps(s, t, Writing(x.addr, x.a, s.cli.tcpSessions[key]));
    } else if connected {
      ConnectKeeps(s, key);
      var u := s.(cli := s.cli.(tcpSessions := s.cli.tcpSessions[key := |s.wires|]),
                  wires := s.wires + [Wire([], [], [], [])], sources := s.sources + [key.source]);
      SetClientKeeps(u, t, Writing(x.addr, x.a, |s.wires|));
    } else {
      SetClientKeeps(s, t, Sending(x.addr, x.a));
    }
  }

  lemma SendTcpKeeps(s: State, t: nat, ok: bool)
    requires Invariant(s) && SourceEnabled(s, t, SendTcp(ok))
    ensures Invariant(SourceApply(s, t, SendTcp(ok)))
  {
    var x := s.clientTasks[t];
    var m := Msg(PacketOf(s, x.a), x.a);
    ClientTaskSet(H(s), s.clientTasks, t, Sending(x.addr, x.a));
    if |m.bytes| <= MAX_TCP_FRAME_SIZE {
      PutUpKeeps(H(s), x.addr, s.wires[x.conn], m);
    }
  }

  lemma SourceKeeps(s: State, t: nat, step: SourceStep)
    requires Invariant(s) && SourceEnabled(s, t, step)
    ensures Invariant(SourceApply(s, t, step))
  {
    match step
    case WriteTable(initial, now) => WriteTableKeeps(s, t, initial, now);
    case WriteIndex => WriteIndexKeeps(s, t);
    case TakeNumber => TakeNumberKeeps(s, t);
    case SendUdp => SendUdpKeeps(s, t);
    case Dial(connected) => DialKeeps(s, t, connected);
    case SendTcp(ok) => SendTcpKeeps(s, t, ok);
    case _ => StartAndLookUp(s, t, step);
  }

  // -------------------------------------------------------- client: a response

  lemma HearUdpKeeps(s: State, t: nat, m: Msg, to: Addr)
    requires Invariant(s) && ResponseEnabled(s, t, HearUdp(m, to))
    ensures Invariant(ResponseApply(s, t, HearUdp(m, to)))
  {
    DecodedDown(H(s), m);
    var d := Decode(m.bytes);
    SetClientKeeps(s, t, ByUdp(Pkt(d.id, d.seqNo, d.payload, m.origin)));
  }

  lemma WireKeeps(s: State, conn: nat, w: Wire)
    requires Invariant(s) && conn < |s.wires| && WireOk(H(s), s.sources[conn], w)
    ensures Invariant(s.(wires := s.wires[conn := w]))
  {
  }

  lemma HearTcpKeeps(s: State, t: nat, conn: nat)
    requires Invariant(s) && ResponseEnabled(s, t, HearTcp(conn))
    ensures Invariant(ResponseApply(s, t, HearTcp(conn)))
  {
    var w := s.wires[conn];
    TakeDownKeeps(H(s), s.sources[conn], w);
    DecodedDown(H(s), w.downLog[0]);
    var d := Decode(w.downLog[0].bytes);
    var w' := TakeDown(w, NextFrame(w.down).rest);
    WireKeeps(s, conn, w');
    SetClientKeeps(s.(wires := s.wires[conn := w']), t,
                   At(s.sources[conn], Pkt(d.id, d.seqNo, d.payload, w.downLog[0].origin)));
  }

  lemma HeardKeeps(s: State, c: Check)
    requires Invariant(s) && HeardOk(H(s), c)
    ensures Invariant(s.(heard := s.heard + [c]))
  {
  }

  lemma CheckResponseKeeps(s: State, t: nat)
    requires Invariant(s) && ResponseEnabled(s, t, CheckResponse)
    ensures Invariant(ResponseApply(s, t, CheckResponse))
  {
    var x := s.clientTasks[t];
    var u := s.(cli := C.Mark(s.cli, x.k, x.p.q));
    StepKeepsSound(s.cli.heap[x.k].window, x.p.q);
    ClientObjectKeeps(s, x.k, u.cli.heap[x.k]);
    SetClientKeeps(u, t, Passed(x.addr, x.p, x.k));
    var c := Check(x.k, x.p, !C.IsDuplicate(s.cli, x.k, x.p.q));
    HeardKeeps(SetClient(u, t, Passed(x.addr, x.p, x.k)), c);
    HeardKeeps(EndClient(u, t), c);
  }

  lemma FindKeeps(s: State, t: nat, step: ResponseStep)
    requires Invariant(s) && ResponseEnabled(s, t, step)
    requires step.FindAddr? || step.FindSession? || step.ClientDrops?
    ensures Invariant(ResponseApply(s, t, step))
  {
    var s' := ResponseApply(s, t, step);
    if t in s'.clientTasks {
      assert s' == SetClient(s, t, s'.clientTasks[t]);
      SetClientKeeps(s, t, s'.clientTasks[t]);
    } else {
      DropKeeps(s, t);
    }
  }

  lemma EmitKeeps(s: State, t: nat)
    requires Invariant(s) && ResponseEnabled(s, t, Emit)
    ensures Invariant(ResponseApply(s, t, Emit))
  {
    var x := s.clientTasks[t];
    assert EmittedOk(H(s), Emitted(x.k, x.addr, x.p));
  }

  lemma ResponseKeeps(s: State, t: nat, step: ResponseStep)
    requires Invariant(s) && ResponseEnabled(s, t, step)
    ensures Invariant(ResponseApply(s, t, step))
  {
    match step
    case HearUdp(m, to) => HearUdpKeeps(s, t, m, to);
    case HearTcp(conn) => HearTcpKeeps(s, t, conn);
    case CheckResponse => CheckResponseKeeps(s, t);
    case Emit => EmitKeeps(s, t);
    case _ => FindKeeps(s, t, step);
  }

  // --------------------------------------------------------- server: a packet

  lemma ServerHearsUdpKeeps(s: State, t: nat, m: Msg, listener: nat, from: Addr)
    requires Invariant(s) && PacketEnabled(s, t, ServerHearsUdp(m, listener, from))
    ensures Invariant(PacketApply(1, s, t, ServerHearsUdp(m, listener, from)))
  {
    DecodedUp(H(s), m);
    var d := Decode(m.bytes);
    SetServerKeeps(s, t, Arrived(Pkt(d.id, d.seqNo, d.payload, m.origin), S.Udp(listener, from)));
  }

  lemma ServerHearsTcpKeeps(s: State, t: nat, conn: nat)
    requires Invariant(s) && PacketEnabled(s, t, ServerHearsTcp(conn))
    ensures Invariant(PacketApply(1, s, t, ServerHearsTcp(conn)))
  {
    var w := s.wires[conn];
    TakeUpKeeps(H(s), s.sources[conn], w);
    var m := w.upLog[0];
    DecodedUp(H(s), m);
    var d := Decode(m.bytes);
    assert s.owners[s.assignments[m.origin].session] == Owner(d.id, s.sources[conn]);
    var w' := TakeUp(w, NextFrame(w.up).rest);
    WireKeeps(s, conn, w');
    SetServerKeeps(s.(wires := s.wires[conn := w']), t,
                   Arrived(Pkt(d.id, d.seqNo, d.payload, m.origin), S.Tcp(conn)));
  }

  lemma CreateSessionKeeps(window: nat, s: State, id: U64, now: int)
    requires window >= 1 && Invariant(s) && id !in s.srv.sessions
    ensures var f := S.FindOrCreate(s.srv, id, true, window, now);
            Invariant(s.(srv := f.state, sids := s.sids + [id]))
  {
    var f := S.FindOrCreate(s.srv, id, true, window, now);
    var s' := s.(srv := f.state, sids := s.sids + [id]);
    OriginsGrow(H(s), H(s'), s);
    assert f.state.heap[|s.srv.heap|].window == New(window);
    assert ServerShape(s');
    assert ServerTablesOk(H(s'), s'.srv);
  }

  lemma CreateAndHoldKeeps(window: nat, s: State, t: nat, now: int)
    requires window >= 1
    requires Invariant(s) && PacketEnabled(s, t, WriteSessions(true, now))
    requires s.serverTasks[t].p.id !in s.srv.sessions
    ensures Invariant(PacketApply(window, s, t, WriteSessions(true, now)))
  {
    var x := s.serverTasks[t];
    var id, k := x.p.id, |s.srv.heap|;
    CreateSessionKeeps(window, s, id, now);
    var u := s.(srv := S.FindOrCreate(s.srv, id, true, window, now).state, sids := s.sids + [id]);
    SetServerKeeps(u, t, Held(x.p, x.via, k));
    CreatesAndHolds(window, s, t, now);
    LogKeeps(SetServer(u, t, Held(x.p, x.via, k)), s.log + [Created(id, k)] + [Returned(id, k)]);
  }

  lemma LogKeeps(s: State, log: seq<Event>)
    requires Invariant(s)
    ensures Invariant(s.(log := log))
  {
  }

  lemma CreatesAndHolds(window: nat, s: State, t: nat, now: int)
    requires PacketEnabled(s, t, WriteSessions(true, now)) && s.serverTasks[t].p.id !in s.srv.sessions
    ensures var x, k := s.serverTasks[t], |s.srv.heap|;
            var id := x.p.id;
            var u := s.(srv := S.FindOrCreate(s.srv, id, true, window, now).state, sids := s.sids + [id]);
            PacketApply(window, s, t, WriteSessions(true, now)) ==
            SetServer(u, t, Held(x.p, x.via, k)).(log := s.log + [Created(id, k)] + [Returned(id, k)])
  {
  }

  lemma WriteSessionsKeeps(window: nat, s: State, t: nat, connected: bool, now: int)
    requires window >= 1
    requires Invariant(s) && PacketEnabled(s, t, WriteSessions(connected, now))
    ensures Invariant(PacketApply(window, s, t, WriteSessions(connected, now)))
  {
    var x := s.serverTasks[t];
    if x.p.id in s.srv.sessions {
      SetServerKeeps(s, t, Held(x.p, x.via, s.srv.sessions[x.p.id]));
    } else if connected {
      CreateAndHoldKeeps(window, s, t, now);
    } else {
      DropKeeps(s, t);
    }
  }

  lemma CheckPacketKeeps(s: State, t: nat)
    requires Invariant(s) && PacketEnabled(s, t, CheckPacket)
    ensures Invariant(PacketApply(1, s, t, CheckPacket))
  {
    var x := s.serverTasks[t];
    var u := s.(srv := S.Mark(s.srv, x.k, x.p.q));
    StepKeepsSound(s.srv.heap[x.k].window, x.p.q);
    ServerObjectKeeps(s, x.k, u.srv.heap[x.k]);
    SetServerKeeps(u, t, Accepted(x.p, x.via, x.k));
    assert CheckOk(H(s), Check(x.k, x.p, !S.IsDuplicate(s.srv, x.k, x.p.q)));
  }

  lemma AddPathKeeps(s: State, t: nat)
    requires Invariant(s) && PacketEnabled(s, t, AddPath)
    ensures Invariant(PacketApply(1, s, t, AddPath))
  {
    var x := s.serverTasks[t];
    var s' := PacketApply(1, s, t, AddPath);
    forall via | via in s'.srv.paths[x.p.id] ensures ViaOk(H(s), x.p.id, via) {
      S.WithPathAddsOnly(S.PathsOf(s.srv, x.p.id), x.via, via);
    }
    ServerTaskSet(H(s), s.serverTasks, t, Registered(x.p, x.k));
  }

  lemma ReadSessionsKeeps(s: State, t: nat)
    requires Invariant(s) && PacketEnabled(s, t, ReadSessions)
    ensures Invariant(PacketApply(1, s, t, ReadSessions))
  {
    var s' := PacketApply(1, s, t, ReadSessions);
    SetServerKeeps(s, t, s'.serverTasks[t]);
    LogKeeps(SetServer(s, t, s'.serverTasks[t]), s'.log);
  }

  lemma NoteConnKeeps(s: State, t: nat)
    requires Invariant(s) && PacketEnabled(s, t, NoteConn)
    ensures Invariant(PacketApply(1, s, t, NoteConn))
  {
    var x := s.serverTasks[t];
    SetServerKeeps(s, t, Noted(x.p, x.via, x.k));
    ConnsKeep(SetServer(s, t, Noted(x.p, x.via, x.k)), S.NoteConn(s.srv, x.via, x.p.id).connSession);
  }

  lemma ConnsKeep(s: State, conns: map<nat, U64>)
    requires Invariant(s)
    ensures Invariant(s.(srv := s.srv.(connSession := conns)))
  {
  }

  lemma ForwardKeeps(s: State, t: nat)
    requires Invariant(s) && PacketEnabled(s, t, ForwardPacket)
    ensures Invariant(PacketApply(1, s, t, ForwardPacket))
  {
    var x := s.serverTasks[t];
    assert ForwardedOk(H(s), Forwarded(x.k, x.p));
  }

  lemma PacketKeeps(window: nat, s: State, t: nat, step: PacketStep)
    requires window >= 1 && Invariant(s) && PacketEnabled(s, t, step)
    ensures Invariant(PacketApply(window, s, t, step))
  {
    match step
    case ServerHearsUdp(m, listener, from) => ServerHearsUdpKeeps(s, t, m, listener, from);
    case ServerHearsTcp(conn) => ServerHearsTcpKeeps(s, t, conn);
    case WriteSessions(connected, now) => WriteSessionsKeeps(window, s, t, connected, now);
    case CheckPacket => CheckPacketKeeps(s, t);
    case AddPath => AddPathKeeps(s, t);
    case ForwardPacket => ForwardKeeps(s, t);
    case ReadSessions => ReadSessionsKeeps(s, t);
    case NoteConn => NoteConnKeeps(s, t);
  }

  // ---------------------------------------- server: a datagram from the target

  lemma AnswerIsRecorded(s: State, a: Answer)
    requires Invariant(s) && Serves(H(s), a.from, a.id) && Serves(H(s), a.counter, a.id) && |a.payload| <= MAX_PAYLOAD
    ensures Invariant(s.(answers := s.answers + [a]))
  {
    var s' := s.(answers := s.answers + [a]);
    OriginsGrow(H(s), H(s'), s);
    assert HistoryOk(H(s'));
  }

  lemma DrawNumberKeeps(s: State, t: nat)
    requires Invariant(s) && AnswerEnabled(s, t, DrawNumber)
    ensures Invariant(AnswerApply(s, t, DrawNumber))
  {
    var x := s.serverTasks[t];
    var id := s.srv.heap[x.from].id;
    if id in s.srv.sessions {
      var k := s.srv.sessions[id];
      var u := s.(srv := S.DrawSeq(s.srv, k));
      ServerObjectKeeps(s, k, u.srv.heap[k]);
      AnswerIsRecorded(u, Answer(x.from, k, id, s.srv.heap[k].responseSeq, x.payload));
      SetServerKeeps(u.(answers := AnswerApply(s, t, DrawNumber).answers), t, Numbered(|s.answers|));
    } else {
      DropKeeps(s, t);
    }
  }

  lemma SendDownKeeps(s: State, conn: nat, m: Msg)
    requires Invariant(s) && conn < |s.wires| && DownOn(H(s), s.sources[conn], m)
    ensures Invariant(s.(wires := s.wires[conn := PutDown(s.wires[conn], m)]))
  {
    PutDownKeeps(H(s), s.sources[conn], s.wires[conn], m);
  }

  lemma MailKeeps(s: State, m: Msg, to: Addr)
    requires Invariant(s) && DownOk(H(s), m)
    ensures Invariant(s.(udpDown := s.udpDown + {Mail(m, to)}))
  {
  }

  /** What is known of the next copy, and of what is left after it. */
  lemma NextCopy(h: History, x: ServerTask)
    requires HistoryOk(h) && ServerTaskOk(h, x) && x.Fanning? && x.left != []
    ensures ServerTaskOk(h, Fanning(x.d, x.left[1..]))
    ensures var it := h.answers[x.d];
            var m := Msg(Encode(it.id, it.n, it.payload), x.d);
            && DownOk(h, m)
            && (x.left[0].Tcp? ==> x.left[0].conn < |h.sources| && DownOn(h, h.sources[x.left[0].conn], m))
  {
    assert x.left[0] in x.left && h.answers[x.d] in h.answers;
    assert forall v <- x.left[1..] :: v in x.left;
  }

  lemma SendCopyKeeps(s: State, t: nat, ok: bool)
    requires Invariant(s) && AnswerEnabled(s, t, SendCopy(ok))
    ensures Invariant(AnswerApply(s, t, SendCopy(ok)))
  {
    var x := s.serverTasks[t];
    var it := s.answers[x.d];
    var m := Msg(Encode(it.id, it.n, it.payload), x.d);
    NextCopy(H(s), x);
    SetServerKeeps(s, t, Fanning(x.d, x.left[1..]));
    var u := SetServer(s, t, Fanning(x.d, x.left[1..]));
    match x.left[0]
    case Udp(_, addr) => MailKeeps(u, m, addr);
    case Tcp(conn) => SendDownKeeps(u, conn, m);
  }

  lemma UnlinkKeeps(s: State, t: nat)
    requires Invariant(s) && AnswerEnabled(s, t, UnlinkConn)
    ensures Invariant(AnswerApply(s, t, UnlinkConn))
  {
    var x := s.serverTasks[t];
    if x.id in s.srv.paths {
      S.WithoutTcpLaws(s.srv.paths[x.id], x.conn);
    }
  }

  lemma OtherAnswerKeeps(s: State, t: nat, step: AnswerStep)
    requires Invariant(s) && AnswerEnabled(s, t, step)
    requires step.TargetDatagram? || step.Snapshot? || step.CloseConn? || step.ServerDrops?
    ensures Invariant(AnswerApply(s, t, step))
  {
    var s' := AnswerApply(s, t, step);
    if t in s'.serverTasks {
      SetServerKeeps(s, t, s'.serverTasks[t]);
    } else {
      DropKeeps(s, t);
    }
  }

  lemma AnswerKeeps(s: State, t: nat, step: AnswerStep)
    requires Invariant(s) && AnswerEnabled(s, t, step)
    ensures Invariant(AnswerApply(s, t, step))
  {
    match step
    case DrawNumber => DrawNumberKeeps(s, t);
    case SendCopy(ok) => SendCopyKeeps(s, t, ok);
    case UnlinkConn => UnlinkKeeps(s, t);
    case _ => OtherAnswerKeeps(s, t, step);
  }

  lemma SweepKeeps(s: State, step: SweepStep)
    requires Invariant(s) && SweepEnabled(s, step)
    ensures Invariant(SweepApply(s, step))
  {
    match step
    case TouchClient(k, now) => ClientObjectKeeps(s, k, s.cli.heap[k].(lastActivity := now));
    case TouchServer(k, now) => ServerObjectKeeps(s, k, s.srv.heap[k].(lastActivity := now));
    case _ => ForgettingKeeps(s, step);
  }

  lemma ForgettingKeeps(s: State, step: SweepStep)
    requires Invariant(s) && SweepEnabled(s, step) && !step.TouchClient? && !step.TouchServer?
    ensures Invariant(SweepApply(s, step))
  {
  }

  lemma StepKeeps(window: nat, s: State, step: Step)
    requires window >= 1 && Invariant(s) && Enabled(s, step)
    ensures Invariant(Apply(window, s, step))
  {
    match step
    case OnSource(t, x) => SourceKeeps(s, t, x);
    case OnResponse(t, x) => ResponseKeeps(s, t, x);
    case OnPacket(t, x) => PacketKeeps(window, s, t, x);
    case OnAnswer(t, x) => AnswerKeeps(s, t, x);
    case OnSweep(x) => SweepKeeps(s, x);
  }
}
