/** The whole relay as a step machine: one client, the network, one server.

    Handlers are split at their lock boundaries and any number of them are in flight.  UDP
    loses, duplicates and reorders: what was sent stays in a set and may be delivered any
    number of times, or never, to any listener and from any address; a response reaches the
    client while its destination is one of the client's addresses.  A TCP connection is a
    byte stream read frame by frame.  The sweeps are given more freedom than they have: they
    may drop any entry of any table at any moment.

    Fields under "history" are never read by a handler; they only record what happened. */
module Relay {
  import opened Bounded
  import opened Codec
  import opened Framing
  import opened SessionIds
  import C = ClientState
  import S = ServerState

  type Addr = nat

  /** A client session, and the source it was created for.  Its first number is in `initials`. */
  datatype Owner = Owner(id: U64, addr: Addr)

  /** The client gave `payload` the number `q` in client session `session`. */
  datatype Assignment = Assignment(session: nat, q: U32, payload: Bytes)

  /** A datagram read from the target socket of incarnation `from`, numbered `n` by incarnation
      `counter` (the one that is live when the number is drawn). */
  datatype Answer = Answer(from: nat, counter: nat, id: U64, n: U32, payload: Bytes)

  /** Bytes on the wire; `origin` is history, the index of the assignment or of the answer. */
  datatype Msg = Msg(bytes: Bytes, origin: nat)

  /** A datagram on its way to the address `to`. */
  datatype Mail = Mail(m: Msg, to: Addr)

  /** A decoded packet in the hands of a handler. */
  datatype Pkt = Pkt(id: U64, q: U32, payload: Bytes, origin: nat)

  /** The two byte streams of a connection; the logs are history, the packets not yet read. */
  datatype Wire = Wire(up: Bytes, down: Bytes, upLog: seq<Msg>, downLog: seq<Msg>)

  datatype ClientTask =
    | Source(addr: Addr, payload: Bytes)
    | Absent(addr: Addr, payload: Bytes)
    | Unindexed(addr: Addr, payload: Bytes, k: nat)
    | HasSession(addr: Addr, payload: Bytes, k: nat)
    | Sending(addr: Addr, a: nat)
    | Dialling(addr: Addr, a: nat, server: nat)
    | Writing(addr: Addr, a: nat, conn: nat)
    | ByUdp(p: Pkt)
    | At(addr: Addr, p: Pkt)
    | Ready(addr: Addr, p: Pkt, k: nat)
    | Passed(addr: Addr, p: Pkt, k: nat)

  datatype ServerTask =
    | Arrived(p: Pkt, via: S.Path)
    | Missed(p: Pkt, via: S.Path)
    | Held(p: Pkt, via: S.Path, k: nat)
    | Accepted(p: Pkt, via: S.Path, k: nat)
    | Noted(p: Pkt, via: S.Path, k: nat)
    | Registered(p: Pkt, k: nat)
    | Answering(from: nat, payload: Bytes)
    | Numbered(d: nat)
    | Fanning(d: nat, left: seq<S.Path>)
    | Unlinking(conn: nat, id: U64)

  /** The window has admitted the packet of this task. */
  predicate Admitted(x: ServerTask) {
    x.Accepted? || x.Noted? || x.Registered?
  }

  /** What happened to the server's session table. */
  datatype Event =
    | Created(id: U64, k: nat)
    | Returned(id: U64, k: nat)
    | Removed(id: U64)

  /** Packet `p` was put to the window of session object `k`. */
  datatype Check = Check(k: nat, p: Pkt, accepted: bool)

  datatype Forwarded = Forwarded(k: nat, p: Pkt)
  datatype Emitted = Emitted(k: nat, addr: Addr, p: Pkt)

  /** A packet of session `id` that came by `via` was admitted. */
  datatype Earned = Earned(id: U64, via: S.Path)

  datatype State = State(
    cli: C.State,
    clientTasks: map<nat, ClientTask>,
    udpUp: set<Msg>,
    udpDown: set<Mail>,
    clientAddrs: set<Addr>,
    wires: seq<Wire>,
    srv: S.State,
    serverTasks: map<nat, ServerTask>,
    // history
    owners: seq<Owner>,
    initials: seq<U32>,
    sources: seq<Addr>,
    sids: seq<U64>,
    assignments: seq<Assignment>,
    answers: seq<Answer>,
    checks: seq<Check>,
    forwarded: seq<Forwarded>,
    lost: seq<Forwarded>,
    earned: set<Earned>,
    heard: seq<Check>,
    emitted: seq<Emitted>,
    dropped: seq<Emitted>,
    log: seq<Event>)

  function Init(counter: U64): State {
    State(C.Start(counter), map[], {}, {}, {}, [], S.EMPTY, map[],
          [], [], [], [], [], [], [], [], [], {}, [], [], [], [])
  }

  /** The client on a source packet. */
  datatype SourceStep =
    | SourcePacket(addr: Addr, payload: Bytes)
    | ReadTable
    | WriteTable(initial: U32, now: int)
    | WriteIndex
    | TakeNumber
    | SendUdp
    | FindConn(server: nat)
    | Dial(connected: bool)
    | SendTcp(ok: bool)

  /** The client on a response, and giving up on either. */
  datatype ResponseStep =
    | HearUdp(m: Msg, to: Addr)
    | HearTcp(conn: nat)
    | FindAddr
    | FindSession
    | CheckResponse
    | Emit
    | ClientDrops

  /** The server on a packet. */
  datatype PacketStep =
    | ServerHearsUdp(m: Msg, listener: nat, from: Addr)
    | ServerHearsTcp(conn: nat)
    | ReadSessions
    | WriteSessions(connected: bool, now: int)
    | CheckPacket
    | NoteConn
    | AddPath
    | ForwardPacket

  /** The server on a datagram from the target or a closing connection, and giving up. */
  datatype AnswerStep =
    | TargetDatagram(from: nat, payload: Bytes)
    | DrawNumber
    | Snapshot
    | SendCopy(ok: bool)
    | CloseConn(conn: nat)
    | UnlinkConn
    | ServerDrops

  /** Activity stamps and sweeps, on both sides; and the network gives the client other addresses
      (`clientAddrs` are those at which datagrams reach it now). */
  datatype SweepStep =
    | TouchClient(k: nat, now: int)
    | TouchServer(k: nat, now: int)
    | ForgetSource(addr: Addr)
    | ForgetId(id: U64)
    | ForgetConn(key: C.Key)
    | RemoveSession(id: U64)
    | RemovePaths(id: U64)
    | Rebind(addrs: set<Addr>)

  /** Task `t` takes one step, or something happens that belongs to no task. */
  datatype Step =
    | OnSource(t: nat, source: SourceStep)
    | OnResponse(t: nat, response: ResponseStep)
    | OnPacket(t: nat, packet: PacketStep)
    | OnAnswer(t: nat, answer: AnswerStep)
    | OnSweep(sweep: SweepStep)

  function PacketOf(s: State, a: nat): Bytes
    requires a < |s.assignments| && s.assignments[a].session < |s.owners|
  {
    var it := s.assignments[a];
    Encode(s.owners[it.session].id, it.q, it.payload)
  }

  predicate SourceEnabled(s: State, t: nat, step: SourceStep) {
    if step.SourcePacket? then t !in s.clientTasks
    else
      && t in s.clientTasks
      && var x := s.clientTasks[t];
         match step
         case ReadTable => x.Source?
         case WriteTable(initial, _) => x.Absent? && initial < C.INITIAL_SEQ_BOUND
         case WriteIndex => x.Unindexed? && x.k < |s.cli.heap|
         case TakeNumber => x.HasSession? && x.k < |s.cli.heap|
         case SendUdp => x.Sending? && HasPacket(s, x.a)
         case FindConn(_) => x.Sending?
         case Dial(_) => x.Dialling?
         case SendTcp(_) => x.Writing? && HasPacket(s, x.a) && x.conn < |s.wires|
  }

  predicate ResponseEnabled(s: State, t: nat, step: ResponseStep) {
    match step
    case HearUdp(m, to) => t !in s.clientTasks && Mail(m, to) in s.udpDown && to in s.clientAddrs
    case HearTcp(conn) =>
      t !in s.clientTasks && conn < |s.wires| && conn < |s.sources| && NextFrame(s.wires[conn].down).Got?
    case FindAddr => t in s.clientTasks && s.clientTasks[t].ByUdp?
    case FindSession => t in s.clientTasks && s.clientTasks[t].At?
    case CheckResponse =>
      t in s.clientTasks && s.clientTasks[t].Ready? && s.clientTasks[t].k < |s.cli.heap|
    case Emit => t in s.clientTasks && s.clientTasks[t].Passed?
    case ClientDrops => t in s.clientTasks
  }

  predicate PacketEnabled(s: State, t: nat, step: PacketStep) {
    match step
    case ServerHearsUdp(m, _, _) => t !in s.serverTasks && m in s.udpUp
    case ServerHearsTcp(conn) => t !in s.serverTasks && conn < |s.wires| && NextFrame(s.wires[conn].up).Got?
    case ReadSessions => t in s.serverTasks && s.serverTasks[t].Arrived?
    case WriteSessions(_, _) => t in s.serverTasks && s.serverTasks[t].Missed?
    case CheckPacket => t in s.serverTasks && s.serverTasks[t].Held? && s.serverTasks[t].k < |s.srv.heap|
    case NoteConn => t in s.serverTasks && s.serverTasks[t].Accepted?
    case AddPath => t in s.serverTasks && s.serverTasks[t].Noted?
    case ForwardPacket => t in s.serverTasks && s.serverTasks[t].Registered?
  }

  predicate AnswerEnabled(s: State, t: nat, step: AnswerStep) {
    match step
    case TargetDatagram(from, payload) =>
      t !in s.serverTasks && from < |s.srv.heap| && |payload| <= MAX_PAYLOAD
    case DrawNumber =>
      t in s.serverTasks && s.serverTasks[t].Answering? && s.serverTasks[t].from < |s.srv.heap|
    case Snapshot => t in s.serverTasks && s.serverTasks[t].Numbered? && s.serverTasks[t].d < |s.answers|
    case SendCopy(_) =>
      && t in s.serverTasks && s.serverTasks[t].Fanning?
      && s.serverTasks[t].d < |s.answers| && s.serverTasks[t].left != []
    case CloseConn(conn) => t !in s.serverTasks
    case UnlinkConn => t in s.serverTasks && s.serverTasks[t].Unlinking?
    case ServerDrops => t in s.serverTasks
  }

  predicate SweepEnabled(s: State, step: SweepStep) {
    match step
    case TouchClient(k, _) => k < |s.cli.heap|
    case TouchServer(k, _) => k < |s.srv.heap|
    case RemoveSession(id) => id in s.srv.sessions
    case _ => true
  }

  predicate Enabled(s: State, step: Step) {
    match step
    case OnSource(t, x) => SourceEnabled(s, t, x)
    case OnResponse(t, x) => ResponseEnabled(s, t, x)
    case OnPacket(t, x) => PacketEnabled(s, t, x)
    case OnAnswer(t, x) => AnswerEnabled(s, t, x)
    case OnSweep(x) => SweepEnabled(s, x)
  }

  predicate HasPacket(s: State, a: nat) {
    a < |s.assignments| && s.assignments[a].session < |s.owners|
  }

  function SetClient(s: State, t: nat, task: ClientTask): State {
    s.(clientTasks := s.clientTasks[t := task])
  }

  function EndClient(s: State, t: nat): State {
    s.(clientTasks := s.clientTasks - {t})
  }

  function SetServer(s: State, t: nat, task: ServerTask): State {
    s.(serverTasks := s.serverTasks[t := task])
  }

  /** The task `t`, or one that holds nothing. */
  function TaskAt(tasks: map<nat, ServerTask>, t: nat): ServerTask {
    if t in tasks then tasks[t] else Unlinking(0, 0)
  }

  function EndServer(s: State, t: nat): State {
    s.(serverTasks := s.serverTasks - {t})
  }

  function OriginOf(log: seq<Msg>): nat {
    if log == [] then 0 else log[0].origin
  }

  function Pop(log: seq<Msg>): seq<Msg> {
    if log == [] then [] else log[1..]
  }

  function SourceApply(s: State, t: nat, step: SourceStep): State
    requires SourceEnabled(s, t, step)
  {
    if step.SourcePacket? then SetClient(s, t, Source(step.addr, step.payload))
    else
      var x := s.clientTasks[t];
      match step
      case ReadTable =>
        (match C.FindSession(s.cli, x.addr)
         case Some(k) => SetClient(s, t, HasSession(x.addr, x.payload, k))
         case None => SetClient(s, t, Absent(x.addr, x.payload)))
      case WriteTable(initial, now) =>
        var f := C.FindOrCreate(s.cli, x.addr, initial, now);
        if f.created then
          SetClient(s, t, Unindexed(x.addr, x.payload, f.session))
          .(cli := f.state,
            owners := s.owners + [Owner(Draw(s.cli.counter).id, x.addr)], initials := s.initials + [initial])
        else
          SetClient(s, t, HasSession(x.addr, x.payload, f.session))
      case WriteIndex =>
        SetClient(s, t, HasSession(x.addr, x.payload, x.k)).(cli := C.Index(s.cli, x.k, x.addr))
      case TakeNumber =>
        SetClient(s, t, Sending(x.addr, |s.assignments|))
        .(cli := C.TakeSeq(s.cli, x.k),
          assignments := s.assignments + [Assignment(x.k, s.cli.heap[x.k].nextSeq, x.payload)])
      case SendUdp => s.(udpUp := s.udpUp + {Msg(PacketOf(s, x.a), x.a)})
      case FindConn(server) =>
        var key := C.Key(x.addr, server);
        if key in s.cli.tcpSessions then SetClient(s, t, Writing(x.addr, x.a, s.cli.tcpSessions[key]))
        else SetClient(s, t, Dialling(x.addr, x.a, server))
      case Dial(connected) =>
        var key := C.Key(x.addr, x.server);
        if key in s.cli.tcpSessions then SetClient(s, t, Writing(x.addr, x.a, s.cli.tcpSessions[key]))
        else if !connected then SetClient(s, t, Sending(x.addr, x.a))
        else
          SetClient(s, t, Writing(x.addr, x.a, |s.wires|))
          .(cli := s.cli.(tcpSessions := s.cli.tcpSessions[key := |s.wires|]),
            wires := s.wires + [Wire([], [], [], [])],
            sources := s.sources + [x.addr])
      case SendTcp(ok) =>
        var packet := PacketOf(s, x.a);
        var s' := SetClient(s, t, Sending(x.addr, x.a));
        if ok && |packet| <= MAX_TCP_FRAME_SIZE then
          s'.(wires := s.wires[x.conn := PutUp(s.wires[x.conn], Msg(packet, x.a))])
        else s'
  }

  function PutUp(w: Wire, m: Msg): Wire {
    w.(up := w.up + Frame(m.bytes), upLog := w.upLog + [m])
  }

  function PutDown(w: Wire, m: Msg): Wire {
    w.(down := w.down + Frame(m.bytes), downLog := w.downLog + [m])
  }

  function TakeUp(w: Wire, rest: Bytes): Wire {
    w.(up := rest, upLog := Pop(w.upLog))
  }

  function TakeDown(w: Wire, rest: Bytes): Wire {
    w.(down := rest, downLog := Pop(w.downLog))
  }

  function ResponseApply(s: State, t: nat, step: ResponseStep): State
    requires ResponseEnabled(s, t, step)
  {
    match step
    case HearUdp(m, _) =>
      (match Decode(m.bytes)
       case PacketTooShort => s
       case Packet(id, q, payload) => SetClient(s, t, ByUdp(Pkt(id, q, payload, m.origin))))
    case HearTcp(conn) =>
      var w := s.wires[conn];
      var r := NextFrame(w.down);
      var s' := s.(wires := s.wires[conn := TakeDown(w, r.rest)]);
      (match Decode(r.data)
       case PacketTooShort => s'
       case Packet(id, q, payload) =>
         SetClient(s', t, At(s.sources[conn], Pkt(id, q, payload, OriginOf(w.downLog)))))
    case FindAddr =>
      var x := s.clientTasks[t];
      (match C.FindAddr(s.cli, x.p.id)
       case None => EndClient(s, t)
       case Some(addr) => SetClient(s, t, At(addr, x.p)))
    case FindSession =>
      var x := s.clientTasks[t];
      (match C.FindSession(s.cli, x.addr)
       case None => EndClient(s, t)
       case Some(k) => SetClient(s, t, Ready(x.addr, x.p, k)))
    case CheckResponse =>
      var x := s.clientTasks[t];
      var duplicate := C.IsDuplicate(s.cli, x.k, x.p.q);
      var s' := s.(cli := C.Mark(s.cli, x.k, x.p.q), heard := s.heard + [Check(x.k, x.p, !duplicate)]);
      if duplicate then EndClient(s', t)
      else SetClient(s', t, Passed(x.addr, x.p, x.k))
    case Emit =>
      var x := s.clientTasks[t];
      EndClient(s, t).(emitted := s.emitted + [Emitted(x.k, x.addr, x.p)])
    case ClientDrops =>
      var x := s.clientTasks[t];
      EndClient(s, t).(dropped := s.dropped + (if x.Passed? then [Emitted(x.k, x.addr, x.p)] else []))
  }

  function PacketApply(window: nat, s: State, t: nat, step: PacketStep): State
    requires PacketEnabled(s, t, step)
  {
    match step
    case ServerHearsUdp(m, listener, from) =>
      (match Decode(m.bytes)
       case PacketTooShort => s
       case Packet(id, q, payload) =>
         SetServer(s, t, Arrived(Pkt(id, q, payload, m.origin), S.Udp(listener, from))))
    case ServerHearsTcp(conn) =>
      var w := s.wires[conn];
      var r := NextFrame(w.up);
      var s' := s.(wires := s.wires[conn := TakeUp(w, r.rest)]);
      (match Decode(r.data)
       case PacketTooShort => s'
       case Packet(id, q, payload) =>
         SetServer(s', t, Arrived(Pkt(id, q, payload, OriginOf(w.upLog)), S.Tcp(conn))))
    case ReadSessions =>
      var x := s.serverTasks[t];
      (match S.Find(s.srv, x.p.id)
       case None => SetServer(s, t, Missed(x.p, x.via))
       case Some(k) => SetServer(s, t, Held(x.p, x.via, k)).(log := s.log + [Returned(x.p.id, k)]))
    case WriteSessions(connected, now) =>
      var x := s.serverTasks[t];
      var id := x.p.id;
      var f := S.FindOrCreate(s.srv, id, connected, window, now);
      (match f.session
       case None => EndServer(s, t)
       case Some(k) =>
         var s' := SetServer(s, t, Held(x.p, x.via, k));
         if id in s.srv.sessions then s'.(log := s.log + [Returned(id, k)])
         else s'.(srv := f.state, sids := s.sids + [id], log := s.log + [Created(id, k)] + [Returned(id, k)]))
    case CheckPacket =>
      var x := s.serverTasks[t];
      var duplicate := S.IsDuplicate(s.srv, x.k, x.p.q);
      var s' := s.(srv := S.Mark(s.srv, x.k, x.p.q), checks := s.checks + [Check(x.k, x.p, !duplicate)]);
      if duplicate then EndServer(s', t)
      else SetServer(s', t, Accepted(x.p, x.via, x.k)).(earned := s.earned + {Earned(x.p.id, x.via)})
    case NoteConn =>
      var x := s.serverTasks[t];
      SetServer(s, t, Noted(x.p, x.via, x.k)).(srv := S.NoteConn(s.srv, x.via, x.p.id))
    case AddPath =>
      var x := s.serverTasks[t];
      SetServer(s, t, Registered(x.p, x.k)).(srv := S.AddPath(s.srv, x.p.id, x.via))
    case ForwardPacket =>
      var x := s.serverTasks[t];
      EndServer(s, t).(forwarded := s.forwarded + [Forwarded(x.k, x.p)])
  }

  function AnswerApply(s: State, t: nat, step: AnswerStep): State
    requires AnswerEnabled(s, t, step)
  {
    match step
    case TargetDatagram(from, payload) => SetServer(s, t, Answering(from, payload))
    case DrawNumber =>
      var x := s.serverTasks[t];
      var id := s.srv.heap[x.from].id;
      if id in s.srv.sessions && s.srv.sessions[id] < |s.srv.heap| then
        var k := s.srv.sessions[id];
        SetServer(s, t, Numbered(|s.answers|))
        .(srv := S.DrawSeq(s.srv, k),
          answers := s.answers + [Answer(x.from, k, id, s.srv.heap[k].responseSeq, x.payload)])
      else
        EndServer(s, t)
    case Snapshot =>
      var x := s.serverTasks[t];
      SetServer(s, t, Fanning(x.d, S.PathsOf(s.srv, s.answers[x.d].id)))
    case SendCopy(ok) =>
      var x := s.serverTasks[t];
      var it := s.answers[x.d];
      var m := Msg(Encode(it.id, it.n, it.payload), x.d);
      var s' := SetServer(s, t, Fanning(x.d, x.left[1..]));
      (match x.left[0]
       case Udp(_, addr) => s'.(udpDown := s.udpDown + {Mail(m, addr)})
       case Tcp(conn) =>
         if ok && conn < |s.wires| then s'.(wires := s.wires[conn := PutDown(s.wires[conn], m)]) else s')
    case CloseConn(conn) =>
      if conn in s.srv.connSession then
        SetServer(s, t, Unlinking(conn, s.srv.connSession[conn])).(srv := S.ForgetConn(s.srv, conn))
      else s
    case UnlinkConn =>
      var x := s.serverTasks[t];
      EndServer(s, t).(srv := S.Unlink(s.srv, x.conn, x.id))
    case ServerDrops =>
      var x := s.serverTasks[t];
      EndServer(s, t).(lost := s.lost + (if Admitted(x) then [Forwarded(x.k, x.p)] else []))
  }

  function SweepApply(s: State, step: SweepStep): State
    requires SweepEnabled(s, step)
  {
    match step
    case TouchClient(k, now) => s.(cli := C.Touch(s.cli, k, now))
    case TouchServer(k, now) => s.(srv := S.Touch(s.srv, k, now))
    case ForgetSource(addr) => s.(cli := s.cli.(udpSessions := s.cli.udpSessions - {addr}))
    case ForgetId(id) => s.(cli := s.cli.(udpAddrs := s.cli.udpAddrs - {id}))
    case ForgetConn(key) => s.(cli := s.cli.(tcpSessions := s.cli.tcpSessions - {key}))
    case RemoveSession(id) =>
      s.(srv := s.srv.(sessions := s.srv.sessions - {id}), log := s.log + [Removed(id)])
    case RemovePaths(id) => s.(srv := s.srv.(paths := s.srv.paths - {id}))
    case Rebind(addrs) => s.(clientAddrs := addrs)
  }

  function Apply(window: nat, s: State, step: Step): State
    requires Enabled(s, step)
  {
    match step
    case OnSource(t, x) => SourceApply(s, t, x)
    case OnResponse(t, x) => ResponseApply(s, t, x)
    case OnPacket(t, x) => PacketApply(window, s, t, x)
    case OnAnswer(t, x) => AnswerApply(s, t, x)
    case OnSweep(x) => SweepApply(s, x)
  }

  // What the steps of one side leave alone.

  ghost predicate SameServerSide(s: State, s': State) {
    && s'.srv == s.srv && s'.serverTasks == s.serverTasks && s'.answers == s.answers && s'.sids == s.sids
    && s'.log == s.log && s'.checks == s.checks && s'.forwarded == s.forwarded && s'.lost == s.lost
    && s'.earned == s.earned
  }

  ghost predicate SameClientSide(s: State, s': State) {
    && s'.cli == s.cli && s'.clientTasks == s.clientTasks && s'.assignments == s.assignments
    && s'.initials == s.initials && s'.heard == s.heard && s'.emitted == s.emitted && s'.dropped == s.dropped
  }

  lemma SourceFrame(s: State, t: nat, step: SourceStep)
    requires SourceEnabled(s, t, step)
    ensures var s' := SourceApply(s, t, step);
            SameServerSide(s, s') && s'.heard == s.heard && s'.emitted == s.emitted && s'.dropped == s.dropped
  {
    match step
    case SourcePacket(_, _) =>
    case ReadTable =>
    case WriteTable(_, _) =>
    case WriteIndex =>
    case TakeNumber =>
    case SendUdp =>
    case FindConn(_) =>
    case Dial(_) =>
    case SendTcp(_) =>
  }

  lemma ResponseFrame(s: State, t: nat, step: ResponseStep)
    requires ResponseEnabled(s, t, step)
    ensures SameServerSide(s, ResponseApply(s, t, step))
  {
    match step
    case HearUdp(_, _) =>
    case HearTcp(_) =>
    case FindAddr =>
    case FindSession =>
    case CheckResponse =>
    case Emit =>
    case ClientDrops =>
  }

  lemma PacketFrame(window: nat, s: State, t: nat, step: PacketStep)
    requires PacketEnabled(s, t, step)
    ensures var s' := PacketApply(window, s, t, step);
            SameClientSide(s, s') && s'.answers == s.answers && s'.lost == s.lost
  {
    var s' := PacketApply(window, s, t, step);
    assert s'.cli == s.cli && s'.clientTasks == s.clientTasks && s'.heard == s.heard by {
      match step
      case ServerHearsUdp(_, _, _) =>
      case ServerHearsTcp(_) =>
      case ReadSessions =>
      case WriteSessions(_, _) =>
      case CheckPacket =>
      case NoteConn =>
      case AddPath =>
      case ForwardPacket =>
    }
    PacketHistories(window, s, t, step);
  }

  lemma PacketHistories(window: nat, s: State, t: nat, step: PacketStep)
    requires PacketEnabled(s, t, step)
    ensures var s' := PacketApply(window, s, t, step);
            && s'.assignments == s.assignments && s'.initials == s.initials && s'.emitted == s.emitted
            && s'.dropped == s.dropped && s'.answers == s.answers && s'.lost == s.lost
  {
    match step
    case ServerHearsUdp(_, _, _) =>
    case ServerHearsTcp(_) =>
    case ReadSessions =>
    case WriteSessions(_, _) =>
    case CheckPacket =>
    case NoteConn =>
    case AddPath =>
    case ForwardPacket =>
  }

  lemma AnswerFrame(s: State, t: nat, step: AnswerStep)
    requires AnswerEnabled(s, t, step)
    ensures var s' := AnswerApply(s, t, step);
            && SameClientSide(s, s')
            && s'.srv.sessions == s.srv.sessions && s'.sids == s.sids && s'.log == s.log
            && s'.forwarded == s.forwarded && s'.checks == s.checks && s'.earned == s.earned
  {
    match step
    case TargetDatagram(_, _) =>
    case DrawNumber =>
    case Snapshot =>
    case SendCopy(_) =>
    case CloseConn(_) =>
    case UnlinkConn =>
    case ServerDrops =>
  }

  /** The state after a run, if every step of it was possible. */
  function Run(window: nat, counter: U64, steps: seq<Step>): Option<State> {
    if steps == [] then Some(Init(counter))
    else
      match Run(window, counter, steps[..|steps| - 1])
      case None => None
      case Some(s) =>
        var step := steps[|steps| - 1];
        if Enabled(s, step) then Some(Apply(window, s, step)) else None
  }
}
