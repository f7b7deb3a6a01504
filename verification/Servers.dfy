/** fproxy-rs/src/server.rs: the server object, whose handlers update their maps in place.
    Each method is proved against the corresponding function of `ServerState`. */
module Servers {
  import opened Bounded
  import opened Windows
  import opened Codec
  import SS = ServerState
  import opened ServerState

  class Server {
    const dedupWindow: nat
    const sessionTimeout: nat
    var heap: seq<TargetSession>
    var sessions: map<U64, nat>
    var clientPaths: map<U64, seq<Path>>
    var tcpConnToSession: map<nat, U64>

    ghost function View(): SS.State
      reads this
    {
      SS.State(heap, sessions, clientPaths, tcpConnToSession)
    }

    ghost predicate Valid()
      reads this
    {
      dedupWindow >= 1 && WellFormed(View())
    }

    /** Validation replaces a zero window size by the default. */
    constructor (configuredWindow: nat, sessionTimeout: nat)
      ensures Valid() && View() == EMPTY
      ensures dedupWindow == if configuredWindow == 0 then 10000 else configuredWindow
    {
      this.dedupWindow := if configuredWindow == 0 then 10000 else configuredWindow;
      this.sessionTimeout := sessionTimeout;
      heap, sessions, clientPaths, tcpConnToSession := [], map[], map[], map[];
    }

    method GetOrCreateSession(id: U64, connected: bool, now: int) returns (session: Option<nat>, created: bool)
      requires Valid()
      modifies this`heap, this`sessions
      ensures Valid()
      ensures var f := FindOrCreate(old(View()), id, connected, dedupWindow, now);
              View() == f.state && session == f.session
      ensures created <==> id !in old(sessions) && connected
    {
      if id in sessions {
        return Some(sessions[id]), false;
      }
      if !connected {
        return None, false;
      }
      session := Some(|heap|);
      sessions := sessions[id := |heap|];
      heap := heap + [TargetSession(id, New(dedupWindow), 0, now)];
      created := true;
    }

    /** What the two packet handlers share: session, activity, duplicate check. */
    method Admit(id: U64, q: U32, connected: bool, now: int) returns (verdict: Verdict)
      requires Valid()
      modifies this`heap, this`sessions
      ensures Valid()
      ensures var f := FindOrCreate(old(View()), id, connected, dedupWindow, now);
              match f.session
              case None => View() == old(View()) && verdict == NoSession
              case Some(k) =>
                && k < |f.state.heap|
                && View() == Mark(Touch(f.state, k, now), k, q)
                && verdict == if IsDuplicate(Touch(f.state, k, now), k, q) then Duplicate(k) else Forward(k)
    {
      var session, created := GetOrCreateSession(id, connected, now);
      if session.None? {
        return NoSession;
      }
      var k := session.value;
      StepKeepsSound(heap[k].window, q);
      heap := heap[k := heap[k].(lastActivity := now)];
      var outcome := Step(heap[k].window, q);
      heap := heap[k := heap[k].(window := outcome.window)];
      return if outcome.duplicate then Duplicate(k) else Forward(k);
    }

    method HandleUdpPacket(listener: nat, addr: Addr, data: Bytes, connected: bool, now: int)
      returns (verdict: Option<Verdict>, payload: Bytes)
      requires Valid()
      modifies this
      ensures Valid()
      ensures match Decode(data)
              case PacketTooShort => verdict == None && View() == old(View())
              case Packet(id, q, p) =>
                var h := OnPacket(old(View()), id, q, Udp(listener, addr), connected, dedupWindow, now);
                View() == h.state && verdict == Some(h.verdict) && payload == p
    {
      match Decode(data)
      case PacketTooShort => return None, [];
      case Packet(id, q, p) =>
        var v := Admit(id, q, connected, now);
        if v.Forward? {
          AddUdpPath(id, addr, listener);
        }
        return Some(v), p;
    }

    method HandleTcpPacket(conn: nat, data: Bytes, connected: bool, now: int)
      returns (verdict: Option<Verdict>, payload: Bytes)
      requires Valid()
      modifies this
      ensures Valid()
      ensures match Decode(data)
              case PacketTooShort => verdict == None && View() == old(View())
              case Packet(id, q, p) =>
                var h := OnPacket(old(View()), id, q, Tcp(conn), connected, dedupWindow, now);
                View() == h.state && verdict == Some(h.verdict) && payload == p
    {
      match Decode(data)
      case PacketTooShort => return None, [];
      case Packet(id, q, p) =>
        var v := Admit(id, q, connected, now);
        if v.Forward? {
          AddTcpPath(id, conn);
        }
        return Some(v), p;
    }

    method AddUdpPath(id: U64, addr: Addr, listener: nat)
      modifies this`clientPaths
      ensures View() == AddPath(old(View()), id, Udp(listener, addr))
    {
      var ps := PutUdp(if id in clientPaths then clientPaths[id] else [], addr, listener);
      clientPaths := clientPaths[id := ps];
    }

    /** Scan for the listener; replace its address where it stands, or add it at the end. */
    static method PutUdp(ps: seq<Path>, addr: Addr, listener: nat) returns (out: seq<Path>)
      ensures out == WithUdp(ps, listener, addr)
    {
      var i := 0;
      while i < |ps|
        invariant 0 <= i <= |ps|
        invariant WithUdp(ps, listener, addr) == ps[..i] + WithUdp(ps[i..], listener, addr)
      {
        var rest := ps[i..];
        assert rest[1..] == ps[i + 1..];
        if ps[i].Udp? && ps[i].listener == listener {
          assert WithUdp(rest, listener, addr) == [Udp(listener, addr)] + ps[i + 1..];
          return if ps[i].addr != addr then ps[i := Udp(listener, addr)] else ps;
        }
        assert WithUdp(rest, listener, addr) == [ps[i]] + WithUdp(ps[i + 1..], listener, addr);
        i := i + 1;
      }
      return ps + [Udp(listener, addr)];
    }

    method AddTcpPath(id: U64, conn: nat)
      modifies this`clientPaths, this`tcpConnToSession
      ensures View() == AddPath(NoteConn(old(View()), Tcp(conn), id), id, Tcp(conn))
    {
      tcpConnToSession := tcpConnToSession[conn := id];
      var ps := if id in clientPaths then clientPaths[id] else [];
      clientPaths := clientPaths[id := ps];
      var i := 0;
      while i < |ps|
        invariant 0 <= i <= |ps| && Tcp(conn) !in ps[..i]
      {
        if ps[i].Tcp? && ps[i].conn == conn {
          assert Tcp(conn) in ps;
          return;
        }
        i := i + 1;
      }
      clientPaths := clientPaths[id := ps + [Tcp(conn)]];
    }

    method CleanupTcpConn(conn: nat)
      modifies this`clientPaths, this`tcpConnToSession
      ensures View() == OnClose(old(View()), conn)
    {
      if conn !in tcpConnToSession {
        return;
      }
      var id := tcpConnToSession[conn];
      tcpConnToSession := tcpConnToSession - {conn};
      if id in clientPaths {
        var ps := DropConn(clientPaths[id], conn);
        clientPaths := clientPaths[id := ps];
      }
    }

    static method DropConn(ps: seq<Path>, conn: nat) returns (kept: seq<Path>)
      ensures kept == WithoutTcp(ps, conn)
    {
      kept := [];
      for i := 0 to |ps|
        invariant kept == WithoutTcp(ps[..i], conn)
      {
        assert ps[..i + 1][..i] == ps[..i];
        if ps[i] != Tcp(conn) {
          kept := kept + [ps[i]];
        }
      }
      assert ps[..|ps|] == ps;
    }

    /** One sequence number for the datagram, then one copy per registered path. */
    method SendResponseToAllPaths(id: U64, payload: Bytes, now: int) returns (sends: seq<Send>)
      requires Valid()
      modifies this`heap
      ensures Valid()
      ensures View() == OnTarget(old(View()), id, payload, now).state
      ensures sends == OnTarget(old(View()), id, payload, now).sends
    {
      if id !in sessions {
        return [];
      }
      var k := sessions[id];
      heap := heap[k := heap[k].(lastActivity := now)];
      var q := heap[k].responseSeq;
      heap := heap[k := heap[k].(responseSeq := WrappingAdd(q, 1))];
      var packet := EncodePacket(id, q, payload);
      sends := FanOut(if id in clientPaths then clientPaths[id] else [], packet);
    }

    static method FanOut(ps: seq<Path>, packet: Bytes) returns (sends: seq<Send>)
      ensures sends == Copies(ps, packet)
    {
      sends := [];
      for i := 0 to |ps|
        invariant |sends| == i && forall j | 0 <= j < i :: sends[j] == Copy(ps[j], packet)
      {
        if ps[i].Udp? {
          sends := sends + [Send(ps[i], packet)];
        } else {
          sends := sends + [Send(ps[i], ToBe(|packet| % TWO_16, 2) + packet)];
        }
      }
    }

    method CollectExpired(now: int) returns (expired: seq<U64>)
      requires Valid()
      ensures forall id :: id in expired <==> id in Expired(View(), now, sessionTimeout)
    {
      var todo := sessions.Keys;
      expired := [];
      while todo != {}
        invariant todo <= sessions.Keys
        invariant forall id :: id in expired <==> id in Expired(View(), now, sessionTimeout) && id !in todo
        decreases |todo|
      {
        var id :| id in todo;
        todo := todo - {id};
        if now - heap[sessions[id]].lastActivity > sessionTimeout {
          expired := expired + [id];
        }
      }
    }

    /** Collect the expired ids, then remove each with its paths. */
    method CleanupExpiredSessions(now: int)
      requires Valid()
      modifies this`sessions, this`clientPaths
      ensures Valid()
      ensures View() == OnSweep(old(View()), now, sessionTimeout)
    {
      var expired := CollectExpired(now);
      ghost var removed: set<U64> := {};
      for i := 0 to |expired|
        invariant forall id :: id in removed <==> id in expired[..i]
        invariant sessions == old(sessions) - removed
        invariant clientPaths == old(clientPaths) - removed
      {
        sessions := sessions - {expired[i]};
        clientPaths := clientPaths - {expired[i]};
        removed := removed + {expired[i]};
      }
      assert removed == Expired(old(View()), now, sessionTimeout);
    }
  }
}
