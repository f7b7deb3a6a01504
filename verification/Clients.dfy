/** fproxy-rs/src/client.rs, with the session lookup of client/client.go beside its own. */
module Clients {
  import opened Bounded
  import opened Windows
  import opened Codec
  import opened Framing
  import CS = ClientState
  import opened ClientState

  /** A response on its way to a source. */
  datatype Response = Response(to: Addr, payload: Bytes)

  /** One frame on its way out on a connection. */
  datatype Outgoing = Outgoing(conn: nat, bytes: Bytes)

  /** What dialling did to the table of connections: `dial[i]` is the connection that TCP server
      `i` gives when asked for one, if it accepts. */
  ghost predicate Dialled(before: map<Key, nat>, after: map<Key, nat>, source: Addr, dial: seq<Option<nat>>) {
    && (forall key: Key :: key in after <==>
          key in before || (key.source == source && key.server < |dial| && dial[key.server].Some?))
    && (forall key <- before :: key in after && after[key] == before[key])
    && (forall i: nat | i < |dial| && Key(source, i) !in before && dial[i].Some? ::
          Key(source, i) in after && after[Key(source, i)] == dial[i].value)
  }

  /** One frame for each server there is a connection to, if the packet fits into a frame. */
  ghost predicate Framed(tcp: map<Key, nat>, source: Addr, packet: Bytes, frames: seq<Option<Outgoing>>) {
    forall i: nat | i < |frames| ::
      frames[i] == if Key(source, i) in tcp && |packet| <= MAX_TCP_FRAME_SIZE
                   then Some(Outgoing(tcp[Key(source, i)], Frame(packet))) else None
  }

  class Client {
    const sessionTimeout: nat
    const udpServers: nat
    const tcpServers: nat
    var sessionIdCounter: U64
    var heap: seq<Session>
    var udpSessions: map<Addr, nat>
    var udpSessionAddrs: map<U64, Addr>
    var tcpSessions: map<Key, nat>

    ghost function View(): CS.State
      reads this
    {
      CS.State(sessionIdCounter, heap, udpSessions, udpSessionAddrs, tcpSessions)
    }

    ghost predicate Valid()
      reads this
    {
      WellFormed(View())
    }

    constructor (counter: U64, sessionTimeout: nat, udpServers: nat, tcpServers: nat)
      ensures Valid() && View() == Start(counter)
    {
      this.sessionTimeout, this.udpServers, this.tcpServers := sessionTimeout, udpServers, tcpServers;
      sessionIdCounter, heap, udpSessions, udpSessionAddrs, tcpSessions := counter, [], map[], map[], map[];
    }

    method GetOrCreateUdpSession(source: Addr, initial: U32, now: int) returns (session: nat)
      requires Valid()
      modifies this
      ensures Valid()
      ensures var f := GetOrCreate(old(View()), source, initial, now);
              View() == f.state && session == f.session && session < |heap|
    {
      if source in udpSessions {
        return udpSessions[source];
      }
      // fetch_add(1).wrapping_add(1), and once more if that gave 0
      var id: U64 := (sessionIdCounter + 1) % TWO_64;
      sessionIdCounter := (sessionIdCounter + 1) % TWO_64;
      if id == 0 {
        id := (sessionIdCounter + 1) % TWO_64;
        sessionIdCounter := (sessionIdCounter + 1) % TWO_64;
      }
      session := |heap|;
      heap := heap + [Session(id, initial, New(RESPONSE_WINDOW), now)];
      udpSessions := udpSessions[source := session];
      udpSessionAddrs := udpSessionAddrs[id := source];
    }

    /** `handle_packet`: one number for all the paths of a packet, then one copy to every UDP
        server and one frame to every TCP server that has, or now accepts, a connection. */
    method HandlePacket(source: Addr, payload: Bytes, initial: U32, now: int, dial: seq<Option<nat>>)
      returns (packet: Bytes, datagrams: seq<Bytes>, frames: seq<Option<Outgoing>>)
      requires Valid() && |dial| == tcpServers
      modifies this
      ensures Valid()
      ensures View() == CS.Apply(old(View()), Source(source, initial, now)).(tcpSessions := tcpSessions)
      ensures var t := Numbered(old(View()), source, initial, now);
              Decode(packet) == Packet(t.id, t.q, payload)
      ensures |datagrams| == udpServers && forall d <- datagrams :: d == packet
      ensures Dialled(old(tcpSessions), tcpSessions, source, dial)
      ensures |frames| == tcpServers && Framed(tcpSessions, source, packet, frames)
    {
      var k := GetOrCreateUdpSession(source, initial, now);
      var q := heap[k].nextSeq;
      heap := heap[k := heap[k].(nextSeq := WrappingAdd(q, 1))];
      heap := heap[k := heap[k].(lastActivity := now)];
      packet := EncodePacket(heap[k].id, q, payload);
      datagrams := [];
      for i := 0 to udpServers
        invariant |datagrams| == i && forall d <- datagrams :: d == packet
      {
        datagrams := datagrams + [packet];
      }
      frames := HandleTcpTransport(source, packet, dial);
    }

    /** `handle_tcp_transport`: a server that refuses the connection is passed over. */
    method HandleTcpTransport(source: Addr, packet: Bytes, dial: seq<Option<nat>>)
      returns (frames: seq<Option<Outgoing>>)
      requires |dial| == tcpServers
      modifies this`tcpSessions
      ensures Dialled(old(tcpSessions), tcpSessions, source, dial)
      ensures |frames| == tcpServers && Framed(tcpSessions, source, packet, frames)
    {
      frames := [];
      for server := 0 to tcpServers
        invariant |frames| == server
        invariant Dialled(old(tcpSessions), tcpSessions, source, dial[..server])
        invariant Framed(tcpSessions, source, packet, frames)
      {
        var conn := GetOrCreateTcpSession(Key(source, server), dial[server]);
        var frame := None;
        if conn.Some? && |packet| <= MAX_TCP_FRAME_SIZE {
          frame := Some(Outgoing(conn.value, Frame(packet)));
        }
        frames := frames + [frame];
      }
      assert dial[..tcpServers] == dial;
    }

    method GetOrCreateTcpSession(key: Key, dial: Option<nat>) returns (conn: Option<nat>)
      modifies this`tcpSessions
      ensures tcpSessions == if key !in old(tcpSessions) && dial.Some? then old(tcpSessions)[key := dial.value]
                             else old(tcpSessions)
      ensures conn == if key in tcpSessions then Some(tcpSessions[key]) else None
    {
      if key in tcpSessions {
        return Some(tcpSessions[key]);
      }
      if dial.Some? {
        tcpSessions := tcpSessions[key := dial.value];
      }
      return dial;
    }

    /** The two-step lookup of the Rust client.  While the tables are inverse it finds the one
        live session with the id, and `None` means that no live session has it. */
    method FindByIndex(id: U64) returns (session: Option<nat>)
      ensures session == Lookup(View(), id)
      ensures Inverse(View()) ==>
                && (forall a <- udpSessions :: heap[udpSessions[a]].id == id <==> session == Some(udpSessions[a]))
                && (session.Some? ==> exists a :: a in udpSessions && session == Some(udpSessions[a]))
    {
      if id !in udpSessionAddrs {
        return None;
      }
      var source := udpSessionAddrs[id];
      assert Inverse(View()) ==> source in udpSessions;
      return if source in udpSessions then Some(udpSessions[source]) else None;
    }

    /** The lookup of the Go client: a scan over all sessions, in the order of the map, which
        the language leaves open.  It finds what the Rust client finds. */
    method FindByScan(id: U64) returns (session: Option<nat>)
      requires Inverse(View())
      ensures session == Lookup(View(), id)
    {
      LookupFindsTheSession(View(), id);
      if id !in udpSessionAddrs {
        return None;
      }
      session := None;
      var todo := udpSessions.Keys;
      while todo != {}
        invariant todo <= udpSessions.Keys
        invariant forall a <- udpSessions.Keys - todo :: heap[udpSessions[a]].id != id
        decreases |todo|
      {
        var a :| a in todo;
        if heap[udpSessions[a]].id == id {
          return Some(udpSessions[a]);
        }
        todo := todo - {a};
      }
    }

    /** `process_udp_response`: look the source up by id, then its session; forward to that source
        what the window accepts. */
    method ProcessUdpResponse(data: Bytes, now: int) returns (forward: Option<Response>)
      requires Valid()
      modifies this`heap
      ensures Valid()
      ensures match Decode(data)
              case PacketTooShort => forward == None && View() == old(View())
              case Packet(id, q, payload) =>
                && View() == CS.Apply(old(View()), UdpResponse(id, q, now))
                && forward == (if Passes(old(View()), Lookup(old(View()), id), q)
                               then Some(Response(udpSessionAddrs[id], payload)) else None)
    {
      match Decode(data)
      case PacketTooShort => return None;
      case Packet(id, q, payload) =>
        var session := FindByIndex(id);
        if session.None? {
          return None;
        }
        forward := Deliver(session.value, udpSessionAddrs[id], q, payload, now);
    }

    /** Duplicate check on the window shared by all paths, then the payload. */
    method Deliver(k: nat, to: Addr, q: U32, payload: Bytes, now: int) returns (forward: Option<Response>)
      requires Valid() && k < |heap|
      modifies this`heap
      ensures Valid()
      ensures forward == if Rejects(old(heap)[k].window, q) then None else Some(Response(to, payload))
      ensures View() == if Rejects(old(heap)[k].window, q) then Mark(old(View()), k, q)
                        else CS.Touch(Mark(old(View()), k, q), k, now)
      ensures Rejects(old(heap)[k].window, q) <==> IsDuplicate(old(View()), k, q)
      ensures Rejects(heap[k].window, q)
    {
      var outcome := Windows.Step(heap[k].window, q);
      StepKeepsSound(heap[k].window, q);
      StepRejects(heap[k].window, q, q);
      heap := heap[k := heap[k].(window := outcome.window)];
      if outcome.duplicate {
        return None;
      }
      heap := heap[k := heap[k].(lastActivity := now)];
      return Some(Response(to, payload));
    }

    /** `process_tcp_response`: the connection, not the id in the packet, names the source. */
    method ProcessTcpResponse(source: Addr, data: Bytes, now: int) returns (forward: Option<Response>)
      requires Valid()
      modifies this`heap
      ensures Valid()
      ensures match Decode(data)
              case PacketTooShort => forward == None && View() == old(View())
              case Packet(_, q, payload) =>
                && View() == CS.Apply(old(View()), TcpResponse(source, q, now))
                && forward == (if Passes(old(View()), FindSession(old(View()), source), q)
                               then Some(Response(source, payload)) else None)
    {
      match Decode(data)
      case PacketTooShort => return None;
      case Packet(_, q, payload) =>
        if source !in udpSessions {
          return None;
        }
        forward := Deliver(udpSessions[source], source, q, payload, now);
    }

    /** Collect the expired sources with their ids, then remove both entries of each. */
    method CleanupExpiredSessions(now: int)
      requires Valid()
      modifies this`udpSessions, this`udpSessionAddrs
      ensures Valid()
      ensures View() == OnSweep(old(View()), now, sessionTimeout)
    {
      ghost var before := View();
      var expired := CollectExpired(now);
      ghost var sources: set<Addr> := {};
      ghost var ids: set<U64> := {};
      for i := 0 to |expired|
        invariant forall e <- expired[..i] :: e.0 in sources && e.1 in ids
        invariant sources <= Expired(before, now, sessionTimeout)
        invariant ids <= IdsOf(before, Expired(before, now, sessionTimeout))
        invariant udpSessions == old(udpSessions) - sources
        invariant udpSessionAddrs == old(udpSessionAddrs) - ids
      {
        assert expired[i] in expired;
        var (source, id) := expired[i];
        udpSessions := udpSessions - {source};
        udpSessionAddrs := udpSessionAddrs - {id};
        sources, ids := sources + {source}, ids + {id};
      }
      assert expired[..|expired|] == expired;
      assert sources == Expired(before, now, sessionTimeout);
      assert ids == IdsOf(before, Expired(before, now, sessionTimeout));
    }

    method CollectExpired(now: int) returns (expired: seq<(Addr, U64)>)
      requires Valid()
      ensures forall e <- expired :: e.0 in Expired(View(), now, sessionTimeout) && e.1 == heap[udpSessions[e.0]].id
      ensures forall a <- Expired(View(), now, sessionTimeout) :: (a, heap[udpSessions[a]].id) in expired
    {
      var todo := udpSessions.Keys;
      expired := [];
      while todo != {}
        invariant todo <= udpSessions.Keys
        invariant forall e <- expired :: e.0 in Expired(View(), now, sessionTimeout) && e.1 == heap[udpSessions[e.0]].id
        invariant forall a <- Expired(View(), now, sessionTimeout) | a !in todo ::
                    (a, heap[udpSessions[a]].id) in expired
        decreases |todo|
      {
        var a :| a in todo;
        todo := todo - {a};
        if now - heap[udpSessions[a]].lastActivity > sessionTimeout {
          expired := expired + [(a, heap[udpSessions[a]].id)];
        }
      }
    }
  }
}
