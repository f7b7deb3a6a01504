/** Where everything in the relay comes from: the invariant behind request provenance and
    response routing, kept by every step of every interleaving. */
module RelayOrigins {
  import opened Bounded
  import opened Codec
  import opened Framing
  import C = ClientState
  import S = ServerState
  import opened Relay

  /** The append-only histories the invariant speaks of. */
  datatype History = History(
    owners: seq<Owner>,
    sources: seq<Addr>,
    sids: seq<U64>,
    assignments: seq<Assignment>,
    answers: seq<Answer>)

  function H(s: State): History {
    History(s.owners, s.sources, s.sids, s.assignments, s.answers)
  }

  ghost predicate Extends(h: History, g: History) {
    && h.owners <= g.owners && h.sources <= g.sources && h.sids <= g.sids
    && h.assignments <= g.assignments && h.answers <= g.answers
  }

  // --------------------------------------------- single messages and tasks

  /** Assignment `a` belongs to a client session of source `addr`. */
  predicate SentBy(h: History, a: nat, addr: Addr) {
    a < |h.assignments| && h.assignments[a].session < |h.owners| && h.owners[h.assignments[a].session].addr == addr
  }

  predicate FromAssignment(h: History, id: U64, q: U32, payload: Bytes, a: nat) {
    && a < |h.assignments| && h.assignments[a].session < |h.owners|
    && id == h.owners[h.assignments[a].session].id
    && q == h.assignments[a].q && payload == h.assignments[a].payload
  }

  predicate FromAnswer(h: History, id: U64, q: U32, payload: Bytes, d: nat) {
    d < |h.answers| && id == h.answers[d].id && q == h.answers[d].n && payload == h.answers[d].payload
  }

  predicate UpOk(h: History, m: Msg) {
    && m.origin < |h.assignments| && h.assignments[m.origin].session < |h.owners|
    && var it := h.assignments[m.origin];
       m.bytes == Encode(h.owners[it.session].id, it.q, it.payload)
  }

  predicate DownOk(h: History, m: Msg) {
    && m.origin < |h.answers|
    && var it := h.answers[m.origin];
       m.bytes == Encode(it.id, it.n, it.payload)
  }

  predicate PktUp(h: History, p: Pkt) {
    FromAssignment(h, p.id, p.q, p.payload, p.origin)
  }

  predicate PktDown(h: History, p: Pkt) {
    FromAnswer(h, p.id, p.q, p.payload, p.origin)
  }

  /** A connection is a path of session `id` only if it belongs to the source `id` was created for. */
  predicate ViaOk(h: History, id: U64, via: S.Path) {
    via.Tcp? ==> via.conn < |h.sources| && Owner(id, h.sources[via.conn]) in h.owners
  }

  predicate Owns(h: History, k: nat, addr: Addr) {
    k < |h.owners| && h.owners[k].addr == addr
  }

  predicate Serves(h: History, k: nat, id: U64) {
    k < |h.sids| && h.sids[k] == id
  }

  predicate ClientTaskOk(h: History, x: ClientTask) {
    match x
    case Source(_, _) => true
    case Absent(_, _) => true
    case Unindexed(addr, _, k) => Owns(h, k, addr)
    case HasSession(addr, _, k) => Owns(h, k, addr)
    case Sending(addr, a) => SentBy(h, a, addr)
    case Dialling(addr, a, _) => SentBy(h, a, addr)
    case Writing(addr, a, conn) => SentBy(h, a, addr) && conn < |h.sources| && h.sources[conn] == addr
    case ByUdp(p) => PktDown(h, p)
    case At(addr, p) => PktDown(h, p) && Owner(p.id, addr) in h.owners
    case Ready(addr, p, k) => PktDown(h, p) && Owner(p.id, addr) in h.owners && Owns(h, k, addr)
    case Passed(addr, p, k) => PktDown(h, p) && Owner(p.id, addr) in h.owners && Owns(h, k, addr)
  }

  predicate ServerTaskOk(h: History, x: ServerTask) {
    match x
    case Arrived(p, via) => PktUp(h, p) && ViaOk(h, p.id, via)
    case Missed(p, via) => PktUp(h, p) && ViaOk(h, p.id, via)
    case Held(p, via, k) => PktUp(h, p) && ViaOk(h, p.id, via) && Serves(h, k, p.id)
    case Accepted(p, via, k) => PktUp(h, p) && ViaOk(h, p.id, via) && Serves(h, k, p.id)
    case Noted(p, via, k) => PktUp(h, p) && ViaOk(h, p.id, via) && Serves(h, k, p.id)
    case Registered(p, k) => PktUp(h, p) && Serves(h, k, p.id)
    case Answering(from, payload) => from < |h.sids| && |payload| <= MAX_PAYLOAD
    case Numbered(d) => d < |h.answers|
    case Fanning(d, left) => d < |h.answers| && forall v <- left :: ViaOk(h, h.answers[d].id, v)
    case Unlinking(_, _) => true
  }

  function BytesOf(log: seq<Msg>): (packets: seq<Bytes>)
    ensures |packets| == |log| && forall i | 0 <= i < |log| :: packets[i] == log[i].bytes
  {
    seq(|log|, i requires 0 <= i < |log| => log[i].bytes)
  }

  /** A frame on a connection of `source`, in either direction. */
  predicate UpOn(h: History, source: Addr, m: Msg) {
    UpOk(h, m) && SentBy(h, m.origin, source) && Sendable(m.bytes)
  }

  predicate DownOn(h: History, source: Addr, m: Msg) {
    DownOk(h, m) && Owner(h.answers[m.origin].id, source) in h.owners && Sendable(m.bytes)
  }

  ghost predicate WireOk(h: History, source: Addr, w: Wire) {
    && w.up == Stream(BytesOf(w.upLog)) && (forall m <- w.upLog :: UpOn(h, source, m))
    && w.down == Stream(BytesOf(w.downLog)) && (forall m <- w.downLog :: DownOn(h, source, m))
  }

  predicate CheckOk(h: History, c: Check) {
    PktUp(h, c.p) && Serves(h, c.k, c.p.id)
  }

  predicate HeardOk(h: History, c: Check) {
    PktDown(h, c.p) && c.k < |h.owners|
  }

  predicate ForwardedOk(h: History, f: Forwarded) {
    PktUp(h, f.p) && Serves(h, f.k, f.p.id)
  }

  predicate EmittedOk(h: History, e: Emitted) {
    PktDown(h, e.p) && Owner(e.p.id, e.addr) in h.owners && Owns(h, e.k, e.addr)
  }

  // ------------------------------------------------------- the invariant

  ghost predicate HistoryOk(h: History) {
    && (forall a <- h.assignments :: a.session < |h.owners|)
    && (forall d <- h.answers :: Serves(h, d.from, d.id) && Serves(h, d.counter, d.id) && |d.payload| <= MAX_PAYLOAD)
  }

  ghost predicate ClientTablesOk(h: History, c: C.State) {
    && (forall a <- c.udpSessions :: Owns(h, c.udpSessions[a], a))
    && (forall id <- c.udpAddrs :: Owner(id, c.udpAddrs[id]) in h.owners)
    && (forall key <- c.tcpSessions :: c.tcpSessions[key] < |h.sources| && h.sources[c.tcpSessions[key]] == key.source)
  }

  ghost predicate ServerTablesOk(h: History, v: S.State) {
    && (forall id <- v.sessions :: Serves(h, v.sessions[id], id))
    && (forall id <- v.paths :: forall via <- v.paths[id] :: ViaOk(h, id, via))
  }

  ghost predicate ClientTasksOk(h: History, tasks: map<nat, ClientTask>) {
    forall t <- tasks :: ClientTaskOk(h, tasks[t])
  }

  ghost predicate ServerTasksOk(h: History, tasks: map<nat, ServerTask>) {
    forall t <- tasks :: ServerTaskOk(h, tasks[t])
  }

  ghost predicate NetworkOk(h: History, up: set<Msg>, down: set<Mail>) {
    && (forall m <- up :: UpOk(h, m))
    && (forall mail <- down :: DownOk(h, mail.m))
  }

  ghost predicate WiresOk(h: History, wires: seq<Wire>) {
    |wires| <= |h.sources| && forall c | 0 <= c < |wires| :: WireOk(h, h.sources[c], wires[c])
  }

  ghost predicate TracesOk(h: History, checks: seq<Check>, heard: seq<Check>, forwarded: seq<Forwarded>,
                           emitted: seq<Emitted>)
  {
    && (forall c <- checks :: CheckOk(h, c))
    && (forall c <- heard :: HeardOk(h, c))
    && (forall f <- forwarded :: ForwardedOk(h, f))
    && (forall e <- emitted :: EmittedOk(h, e))
  }

  ghost predicate Origins(h: History, s: State) {
    && ClientTablesOk(h, s.cli) && ServerTablesOk(h, s.srv)
    && ClientTasksOk(h, s.clientTasks) && ServerTasksOk(h, s.serverTasks)
    && NetworkOk(h, s.udpUp, s.udpDown) && WiresOk(h, s.wires)
    && TracesOk(h, s.checks, s.heard, s.forwarded, s.emitted)
  }

  /** The live objects match the histories. */
  ghost predicate ClientShape(s: State) {
    && C.WellFormed(s.cli) && |s.owners| == |s.cli.heap|
    && forall k | 0 <= k < |s.owners| :: s.owners[k].id == s.cli.heap[k].id
  }

  ghost predicate ServerShape(s: State) {
    && S.WellFormed(s.srv) && |s.sids| == |s.srv.heap|
    && forall k | 0 <= k < |s.sids| :: s.sids[k] == s.srv.heap[k].id
  }

  ghost predicate Invariant(s: State) {
    && ClientShape(s) && ServerShape(s) && |s.wires| == |s.sources|
    && HistoryOk(H(s)) && Origins(H(s), s)
  }

  // ------------------------------------------------ growth of the histories

  lemma ClientTaskGrows(h: History, g: History, x: ClientTask)
    requires Extends(h, g) && ClientTaskOk(h, x)
    ensures ClientTaskOk(g, x)
  {
  }

  lemma ServerTaskGrows(h: History, g: History, x: ServerTask)
    requires Extends(h, g) && ServerTaskOk(h, x)
    ensures ServerTaskOk(g, x)
  {
  }

  lemma WireGrows(h: History, g: History, source: Addr, w: Wire)
    requires Extends(h, g) && WireOk(h, source, w)
    ensures WireOk(g, source, w)
  {
  }

  /** A longer history explains everything a shorter one does. */
  lemma OriginsGrow(h: History, g: History, s: State)
    requires Extends(h, g) && Origins(h, s)
    ensures Origins(g, s)
  {
    forall t | t in s.clientTasks ensures ClientTaskOk(g, s.clientTasks[t]) {
      ClientTaskGrows(h, g, s.clientTasks[t]);
    }
    forall t | t in s.serverTasks ensures ServerTaskOk(g, s.serverTasks[t]) {
      ServerTaskGrows(h, g, s.serverTasks[t]);
    }
    forall c | 0 <= c < |s.wires| ensures WireOk(g, g.sources[c], s.wires[c]) {
      WireGrows(h, g, h.sources[c], s.wires[c]);
    }
    assert ClientTablesOk(g, s.cli);
    assert ServerTablesOk(g, s.srv);
    assert NetworkOk(g, s.udpUp, s.udpDown);
    assert TracesOk(g, s.checks, s.heard, s.forwarded, s.emitted);
  }

  // ---------------------------------------------------- bytes on a connection

  lemma PutUpKeeps(h: History, source: Addr, w: Wire, m: Msg)
    requires WireOk(h, source, w) && UpOn(h, source, m)
    ensures WireOk(h, source, PutUp(w, m))
  {
    StreamAppend(BytesOf(w.upLog), m.bytes);
    assert BytesOf(w.upLog + [m]) == BytesOf(w.upLog) + [m.bytes];
  }

  lemma PutDownKeeps(h: History, source: Addr, w: Wire, m: Msg)
    requires WireOk(h, source, w) && DownOn(h, source, m)
    ensures WireOk(h, source, PutDown(w, m))
  {
    StreamAppend(BytesOf(w.downLog), m.bytes);
    assert BytesOf(w.downLog + [m]) == BytesOf(w.downLog) + [m.bytes];
  }

  /** Reading a frame yields the oldest packet not yet read, byte for byte. */
  lemma ReadsOldest(log: seq<Msg>, stream: Bytes)
    requires stream == Stream(BytesOf(log)) && NextFrame(stream).Got?
    requires forall m <- log :: Sendable(m.bytes)
    ensures log != [] && NextFrame(stream) == Got(log[0].bytes, Stream(BytesOf(log[1..])))
  {
    if log != [] {
      assert BytesOf(log)[1..] == BytesOf(log[1..]);
      FrameHead(log[0].bytes, Stream(BytesOf(log[1..])));
    }
  }

  lemma TakeUpKeeps(h: History, source: Addr, w: Wire)
    requires WireOk(h, source, w) && NextFrame(w.up).Got?
    ensures WireOk(h, source, TakeUp(w, NextFrame(w.up).rest))
    ensures w.upLog != [] && NextFrame(w.up).data == w.upLog[0].bytes && UpOn(h, source, w.upLog[0])
  {
    ReadsOldest(w.upLog, w.up);
  }

  lemma TakeDownKeeps(h: History, source: Addr, w: Wire)
    requires WireOk(h, source, w) && NextFrame(w.down).Got?
    ensures WireOk(h, source, TakeDown(w, NextFrame(w.down).rest))
    ensures w.downLog != [] && NextFrame(w.down).data == w.downLog[0].bytes && DownOn(h, source, w.downLog[0])
  {
    ReadsOldest(w.downLog, w.down);
  }

  // ------------------------------------------------------------- the steps

  lemma ClientTaskSet(h: History, tasks: map<nat, ClientTask>, t: nat, x: ClientTask)
    requires ClientTasksOk(h, tasks) && ClientTaskOk(h, x)
    ensures ClientTasksOk(h, tasks[t := x]) && ClientTasksOk(h, tasks - {t})
  {
  }

  lemma ServerTaskSet(h: History, tasks: map<nat, ServerTask>, t: nat, x: ServerTask)
    requires ServerTasksOk(h, tasks) && ServerTaskOk(h, x)
    ensures ServerTasksOk(h, tasks[t := x]) && ServerTasksOk(h, tasks - {t})
  {
  }

  lemma DecodedUp(h: History, m: Msg)
    requires UpOk(h, m)
    ensures var d := Decode(m.bytes);
            d.Packet? && PktUp(h, Pkt(d.id, d.seqNo, d.payload, m.origin))
  {
    var it := h.assignments[m.origin];
    DecodeEncode(h.owners[it.session].id, it.q, it.payload);
  }

  lemma DecodedDown(h: History, m: Msg)
    requires DownOk(h, m)
    ensures var d := Decode(m.bytes);
            d.Packet? && PktDown(h, Pkt(d.id, d.seqNo, d.payload, m.origin))
  {
    var it := h.answers[m.origin];
    DecodeEncode(it.id, it.n, it.payload);
  }
}
