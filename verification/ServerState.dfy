/** The server's shared state and, as functions, the regions its handlers execute under one
    lock.  `Servers` has the code that updates this state in place; `Relay` interleaves the
    regions; `ServerRuns` composes them handler by handler. */
module ServerState {
  import opened Bounded
  import opened Windows
  import opened Codec
  import opened Framing

  /** A socket address: only its identity matters. */
  type Addr = nat

  datatype Path =
    | Udp(listener: nat, addr: Addr)
    | Tcp(conn: nat)

  datatype TargetSession = TargetSession(id: U64, window: Window, responseSeq: U32, lastActivity: int)

  /** `heap` holds every session object ever created, so that handlers can keep a reference to
      one that has been removed; its index numbers the incarnations.  The maps are the
      `sessions`, `client_paths` and `tcp_conn_to_session` of the source. */
  datatype State = State(
    heap: seq<TargetSession>,
    sessions: map<U64, nat>,
    paths: map<U64, seq<Path>>,
    connSession: map<nat, U64>)

  const EMPTY: State := State([], map[], map[], map[])

  ghost predicate WellFormed(s: State) {
    && (forall k | 0 <= k < |s.heap| :: Sound(s.heap[k].window))
    && (forall id <- s.sessions :: s.sessions[id] < |s.heap| && s.heap[s.sessions[id]].id == id)
  }

  // -------------------------------------------------------- session regions

  function Find(s: State, id: U64): Option<nat> {
    if id in s.sessions then Some(s.sessions[id]) else None
  }

  datatype Found = Found(state: State, session: Option<nat>)

  /** Under the write lock: look again, and create only if the id is still absent.  Binding or
      connecting the target socket may fail. */
  function FindOrCreate(s: State, id: U64, connected: bool, size: nat, now: int): Found {
    if id in s.sessions then Found(s, Some(s.sessions[id]))
    else if !connected then Found(s, None)
    else
      Found(s.(heap := s.heap + [TargetSession(id, New(size), 0, now)],
               sessions := s.sessions[id := |s.heap|]),
            Some(|s.heap|))
  }

  function Touch(s: State, k: nat, now: int): State
    requires k < |s.heap|
  {
    s.(heap := s.heap[k := s.heap[k].(lastActivity := now)])
  }

  predicate IsDuplicate(s: State, k: nat, q: U32)
    requires k < |s.heap|
  {
    Step(s.heap[k].window, q).duplicate
  }

  function Mark(s: State, k: nat, q: U32): State
    requires k < |s.heap|
  {
    s.(heap := s.heap[k := s.heap[k].(window := Step(s.heap[k].window, q).window)])
  }

  // ----------------------------------------------------------- path regions

  function PathsOf(s: State, id: U64): seq<Path> {
    if id in s.paths then s.paths[id] else []
  }

  /** Put the address of a listener in its place, or add the listener at the end. */
  function WithUdp(ps: seq<Path>, listener: nat, addr: Addr): seq<Path> {
    if ps == [] then [Udp(listener, addr)]
    else if ps[0].Udp? && ps[0].listener == listener then [Udp(listener, addr)] + ps[1..]
    else [ps[0]] + WithUdp(ps[1..], listener, addr)
  }

  function WithTcp(ps: seq<Path>, conn: nat): seq<Path> {
    if Tcp(conn) in ps then ps else ps + [Tcp(conn)]
  }

  function WithoutTcp(ps: seq<Path>, conn: nat): seq<Path> {
    if ps == [] then []
    else
      var last := ps[|ps| - 1];
      WithoutTcp(ps[..|ps| - 1], conn) + (if last == Tcp(conn) then [] else [last])
  }

  function WithPath(ps: seq<Path>, via: Path): seq<Path> {
    match via
    case Udp(listener, addr) => WithUdp(ps, listener, addr)
    case Tcp(conn) => WithTcp(ps, conn)
  }

  function AddPath(s: State, id: U64, via: Path): State {
    s.(paths := s.paths[id := WithPath(PathsOf(s, id), via)])
  }

  function NoteConn(s: State, via: Path, id: U64): State {
    match via
    case Udp(_, _) => s
    case Tcp(conn) => s.(connSession := s.connSession[conn := id])
  }

  function ForgetConn(s: State, conn: nat): State {
    s.(connSession := s.connSession - {conn})
  }

  function Unlink(s: State, conn: nat, id: U64): State {
    if id in s.paths then s.(paths := s.paths[id := WithoutTcp(s.paths[id], conn)]) else s
  }

  // ------------------------------------------------------- whole handlers

  datatype Verdict = NoSession | Duplicate(session: nat) | Forward(session: nat)

  datatype Handled = Handled(state: State, verdict: Verdict)

  /** `handle_udp_packet` and `handle_tcp_packet` after decoding, run without interruption. */
  function OnPacket(s: State, id: U64, q: U32, via: Path, connected: bool, size: nat, now: int): Handled
    requires WellFormed(s)
  {
    var f := FindOrCreate(s, id, connected, size, now);
    match f.session
    case None => Handled(s, NoSession)
    case Some(k) =>
      var t := Touch(f.state, k, now);
      var u := Mark(t, k, q);
      if IsDuplicate(t, k, q) then Handled(u, Duplicate(k))
      else Handled(AddPath(NoteConn(u, via, id), id, via), Forward(k))
  }

  /** One copy of a response, as it leaves: a datagram, or a frame on a connection. */
  datatype Send = Send(path: Path, bytes: Bytes)

  function Copy(p: Path, packet: Bytes): Send {
    Send(p, if p.Udp? then packet else Frame(packet))
  }

  function Copies(ps: seq<Path>, packet: Bytes): (sends: seq<Send>)
    ensures |sends| == |ps| && forall i | 0 <= i < |ps| :: sends[i] == Copy(ps[i], packet)
  {
    seq(|ps|, i requires 0 <= i < |ps| => Copy(ps[i], packet))
  }

  function DrawSeq(s: State, k: nat): State
    requires k < |s.heap|
  {
    s.(heap := s.heap[k := s.heap[k].(responseSeq := WrappingAdd(s.heap[k].responseSeq, 1))])
  }

  datatype Answered = Answered(state: State, sends: seq<Send>)

  /** `send_response_to_all_paths`. */
  function OnTarget(s: State, id: U64, payload: Bytes, now: int): Answered
    requires WellFormed(s)
  {
    if id !in s.sessions then Answered(s, [])
    else
      var k := s.sessions[id];
      Answered(DrawSeq(Touch(s, k, now), k),
               Copies(PathsOf(s, id), Encode(id, s.heap[k].responseSeq, payload)))
  }

  /** `cleanup_tcp_conn`. */
  function OnClose(s: State, conn: nat): State {
    if conn in s.connSession then Unlink(ForgetConn(s, conn), conn, s.connSession[conn]) else s
  }

  function Expired(s: State, now: int, timeout: nat): set<U64>
    requires WellFormed(s)
  {
    set id | id in s.sessions && now - s.heap[s.sessions[id]].lastActivity > timeout
  }

  /** `cleanup_expired_sessions`: exactly the sessions idle for longer than the timeout go, with
      their paths.  The connection map is left as it is. */
  function OnSweep(s: State, now: int, timeout: nat): State
    requires WellFormed(s)
  {
    var gone := Expired(s, now, timeout);
    s.(sessions := s.sessions - gone, paths := s.paths - gone)
  }

  // ---------------------------------------------------------- path list laws

  /** No listener and no connection twice. */
  ghost predicate NoRepeats(ps: seq<Path>) {
    forall i, j | 0 <= i < j < |ps| :: !SamePlace(ps[i], ps[j])
  }

  predicate SamePlace(p: Path, q: Path) {
    match (p, q)
    case (Udp(l, _), Udp(m, _)) => l == m
    case (Tcp(c), Tcp(d)) => c == d
    case _ => false
  }

  lemma {:induction false} WithUdpLaws(ps: seq<Path>, listener: nat, addr: Addr)
    requires NoRepeats(ps)
    ensures NoRepeats(WithUdp(ps, listener, addr))
    ensures forall p :: p in WithUdp(ps, listener, addr) <==>
              p == Udp(listener, addr) || (p in ps && !SamePlace(p, Udp(listener, addr)))
  {
    if ps != [] {
      var rest := ps[1..];
      assert forall p :: p in ps <==> p == ps[0] || p in rest;
      forall p | p in rest ensures !SamePlace(ps[0], p) {
        var j :| 0 <= j < |rest| && rest[j] == p;
        assert ps[j + 1] == p;
      }
      assert NoRepeats(rest);
      if !SamePlace(ps[0], Udp(listener, addr)) {
        WithUdpLaws(rest, listener, addr);
        var out := WithUdp(ps, listener, addr);
        forall i, j | 0 <= i < j < |out| ensures !SamePlace(out[i], out[j]) {
          if i == 0 { assert out[j] in WithUdp(rest, listener, addr); }
        }
      }
    }
  }

  /** A listener keeps its place in the list, and a new one goes to the end. */
  lemma {:induction false} WithUdpInPlace(ps: seq<Path>, listener: nat, addr: Addr)
    ensures var out := WithUdp(ps, listener, addr);
            if exists i :: 0 <= i < |ps| && ps[i].Udp? && ps[i].listener == listener then
              && |out| == |ps|
              && forall i | 0 <= i < |ps| ::
                   out[i] == ps[i] || (out[i] == Udp(listener, addr) && ps[i].Udp? && ps[i].listener == listener)
            else out == ps + [Udp(listener, addr)]
  {
    if ps != [] && !(ps[0].Udp? && ps[0].listener == listener) {
      var rest := ps[1..];
      assert forall i | 0 <= i < |rest| :: rest[i] == ps[i + 1];
      WithUdpInPlace(rest, listener, addr);
      if exists i :: 0 <= i < |ps| && ps[i].Udp? && ps[i].listener == listener {
        var i :| 0 <= i < |ps| && ps[i].Udp? && ps[i].listener == listener;
        assert rest[i - 1] == ps[i];
      }
    }
  }

  lemma WithTcpLaws(ps: seq<Path>, conn: nat)
    requires NoRepeats(ps)
    ensures NoRepeats(WithTcp(ps, conn))
    ensures forall p :: p in WithTcp(ps, conn) <==> p in ps || p == Tcp(conn)
  {
  }

  lemma {:induction false} WithoutTcpLaws(ps: seq<Path>, conn: nat)
    ensures NoRepeats(ps) ==> NoRepeats(WithoutTcp(ps, conn))
    ensures forall p :: p in WithoutTcp(ps, conn) <==> p in ps && p != Tcp(conn)
  {
    if ps != [] {
      var n := |ps| - 1;
      var front := ps[..n];
      assert ps == front + [ps[n]];
      WithoutTcpLaws(front, conn);
      var out := WithoutTcp(ps, conn);
      if NoRepeats(ps) && ps[n] != Tcp(conn) {
        forall i, j | 0 <= i < j < |out| ensures !SamePlace(out[i], out[j]) {
          if j == |out| - 1 {
            assert out[i] in front;
          }
        }
      }
    }
  }

  /** Retaining keeps the order. */
  lemma {:induction false} WithoutTcpKeepsOrder(a: seq<Path>, b: seq<Path>, conn: nat)
    ensures WithoutTcp(a + b, conn) == WithoutTcp(a, conn) + WithoutTcp(b, conn)
  {
    if b == [] {
      assert a + b == a;
    } else {
      var n := |b| - 1;
      assert (a + b)[..|a| + n] == a + b[..n];
      WithoutTcpKeepsOrder(a, b[..n], conn);
    }
  }

  // ------------------------------------------------------- answers, one by one

  /** What one datagram of the target sets off, in words of the receivers: every listed path gets
      one copy, in the order of the list; on a listener it decodes to the id, the number that was
      next and the payload; on a connection the reader gets exactly that packet. */
  lemma AnswersCarry(s: State, id: U64, payload: Bytes, now: int, i: nat)
    requires WellFormed(s) && id in s.sessions && |payload| <= MAX_PAYLOAD
    requires i < |PathsOf(s, id)|
    ensures var a := OnTarget(s, id, payload, now);
            var packet := Encode(id, s.heap[s.sessions[id]].responseSeq, payload);
            && |a.sends| == |PathsOf(s, id)| && a.sends[i].path == PathsOf(s, id)[i]
            && Decode(packet) == Packet(id, s.heap[s.sessions[id]].responseSeq, payload)
            && match a.sends[i].path
               case Udp(_, _) => a.sends[i].bytes == packet
               case Tcp(_) => NextFrame(a.sends[i].bytes) == Got(packet, [])
  {
    var q := s.heap[s.sessions[id]].responseSeq;
    DecodeEncode(id, q, payload);
    var packet := Encode(id, q, payload);
    FrameHead(packet, []);
    assert Frame(packet) + [] == Frame(packet);
  }

  /** What it does to the server: the live incarnation has the next number up and is stamped now;
      nothing else changes.  For an id that is not live, nothing happens. */
  lemma AnswersStamp(s: State, id: U64, payload: Bytes, now: int)
    requires WellFormed(s)
    ensures var a := OnTarget(s, id, payload, now);
            && a.state.sessions == s.sessions && a.state.paths == s.paths && a.state.connSession == s.connSession
            && |a.state.heap| == |s.heap|
            && (id !in s.sessions ==> a.state == s && a.sends == [])
            && (forall k | 0 <= k < |s.heap| && !(id in s.sessions && s.sessions[id] == k) ::
                  a.state.heap[k] == s.heap[k])
            && (id in s.sessions ==>
                  var x, y := s.heap[s.sessions[id]], a.state.heap[s.sessions[id]];
                  && y.lastActivity == now && y.id == x.id && y.window == x.window
                  && (y.responseSeq == x.responseSeq + 1 || (x.responseSeq == TWO_32 - 1 && y.responseSeq == 0)))
  {
  }

  /** Adding a path, of either kind. */
  lemma WithPathLaws(ps: seq<Path>, via: Path)
    requires NoRepeats(ps)
    ensures NoRepeats(WithPath(ps, via))
    ensures forall p :: p in WithPath(ps, via) <==> p == via || (p in ps && !SamePlace(p, via))
  {
    match via
    case Udp(l, a) => WithUdpLaws(ps, l, a);
    case Tcp(c) =>
      WithTcpLaws(ps, c);
  }

  /** Without any assumption on the list: nothing appears but the new path. */
  lemma {:induction false} WithPathAddsOnly(ps: seq<Path>, via: Path, p: Path)
    requires p in WithPath(ps, via)
    ensures p == via || p in ps
  {
    if via.Udp? && ps != [] && !SamePlace(ps[0], via) && p != ps[0] {
      WithPathAddsOnly(ps[1..], via, p);
    }
  }

  /** The connection map remembers one id per connection, so closing a connection removes it
      from every path list exactly when no other session lists it. */
  lemma CloseRemovesEverywhereExactlyWhen(s: State, conn: nat)
    ensures (forall id: U64 :: Tcp(conn) !in PathsOf(OnClose(s, conn), id)) <==>
            (forall id: U64 :: Tcp(conn) in PathsOf(s, id) ==>
                                 conn in s.connSession && s.connSession[conn] == id)
  {
    var t := OnClose(s, conn);
    forall id: U64
      ensures Tcp(conn) in PathsOf(t, id) <==>
              Tcp(conn) in PathsOf(s, id) && !(conn in s.connSession && s.connSession[conn] == id)
    {
      if id in s.paths { WithoutTcpLaws(s.paths[id], conn); }
    }
  }
}
