/** The client's shared state and the regions its handlers execute under one lock. */
module ClientState {
  import opened Bounded
  import opened Windows
  import opened SessionIds

  type Addr = nat

  const RESPONSE_WINDOW: nat := 1000

  /** `rand::random::<u32>() % (u32::MAX / 2)` draws below this bound. */
  const INITIAL_SEQ_BOUND: int := 0x7fff_ffff

  datatype Session = Session(id: U64, nextSeq: U32, window: Window, lastActivity: int)

  /** A TCP session belongs to a source and a server endpoint. */
  datatype Key = Key(source: Addr, server: nat)

  /** `heap` holds every session object ever created; its index numbers the incarnations.  The
      maps are `udp_sessions`, `udp_session_addrs` and `tcp_sessions`. */
  datatype State = State(
    counter: U64,
    heap: seq<Session>,
    udpSessions: map<Addr, nat>,
    udpAddrs: map<U64, Addr>,
    tcpSessions: map<Key, nat>)

  function Start(counter: U64): State {
    State(counter, [], map[], map[], map[])
  }

  ghost predicate WellFormed(s: State) {
    && (forall k | 0 <= k < |s.heap| :: Sound(s.heap[k].window))
    && (forall a <- s.udpSessions :: s.udpSessions[a] < |s.heap|)
  }

  // -------------------------------------------------------------- regions

  datatype Found = Found(state: State, session: nat, created: bool)

  /** Under the write lock: look again, and create only if the source is still absent. */
  function FindOrCreate(s: State, source: Addr, initial: U32, now: int): Found {
    if source in s.udpSessions then Found(s, s.udpSessions[source], false)
    else
      var issue := Draw(s.counter);
      Found(s.(counter := issue.counter,
               heap := s.heap + [Session(issue.id, initial, New(RESPONSE_WINDOW), now)],
               udpSessions := s.udpSessions[source := |s.heap|]),
            |s.heap|, true)
  }

  function Index(s: State, k: nat, source: Addr): State
    requires k < |s.heap|
  {
    s.(udpAddrs := s.udpAddrs[s.heap[k].id := source])
  }

  function Touch(s: State, k: nat, now: int): State
    requires k < |s.heap|
  {
    s.(heap := s.heap[k := s.heap[k].(lastActivity := now)])
  }

  /** `seq.fetch_add(1)`. */
  function TakeSeq(s: State, k: nat): State
    requires k < |s.heap|
  {
    s.(heap := s.heap[k := s.heap[k].(nextSeq := WrappingAdd(s.heap[k].nextSeq, 1))])
  }

  predicate IsDuplicate(s: State, k: nat, q: U32)
    requires k < |s.heap|
  {
    Windows.Step(s.heap[k].window, q).duplicate
  }

  function Mark(s: State, k: nat, q: U32): State
    requires k < |s.heap|
  {
    s.(heap := s.heap[k := s.heap[k].(window := Windows.Step(s.heap[k].window, q).window)])
  }

  function FindAddr(s: State, id: U64): Option<Addr> {
    if id in s.udpAddrs then Some(s.udpAddrs[id]) else None
  }

  function FindSession(s: State, source: Addr): Option<nat> {
    if source in s.udpSessions then Some(s.udpSessions[source]) else None
  }

  // -------------------------------------------------------- whole handlers

  function GetOrCreate(s: State, source: Addr, initial: U32, now: int): Found
    requires WellFormed(s)
  {
    var f := FindOrCreate(s, source, initial, now);
    if f.created then f.(state := Index(f.state, f.session, source)) else f
  }

  /** The two-step lookup of `process_udp_response`: id to source, source to session. */
  function Lookup(s: State, id: U64): Option<nat> {
    match FindAddr(s, id)
    case None => None
    case Some(source) => FindSession(s, source)
  }

  function Expired(s: State, now: int, timeout: nat): set<Addr>
    requires WellFormed(s)
  {
    set a | a in s.udpSessions && now - s.heap[s.udpSessions[a]].lastActivity > timeout
  }

  function IdsOf(s: State, sources: set<Addr>): set<U64>
    requires WellFormed(s) && sources <= s.udpSessions.Keys
  {
    set a | a in sources :: s.heap[s.udpSessions[a]].id
  }

  function OnSweep(s: State, now: int, timeout: nat): State
    requires WellFormed(s)
  {
    var gone := Expired(s, now, timeout);
    s.(udpSessions := s.udpSessions - gone, udpAddrs := s.udpAddrs - IdsOf(s, gone))
  }

  /** What a packet of `source` goes out under, if it comes now: the session object, its id, and
      its next number. */
  datatype Ticket = Ticket(session: nat, id: U64, q: U32)

  function Numbered(s: State, source: Addr, initial: U32, now: int): (t: Ticket)
    requires WellFormed(s)
    ensures t.session < |GetOrCreate(s, source, initial, now).state.heap|
  {
    var f := GetOrCreate(s, source, initial, now);
    var x := f.state.heap[f.session];
    Ticket(f.session, x.id, x.nextSeq)
  }

  /** A response with number `q` passes the window of the session that was found for it. */
  predicate Passes(s: State, session: Option<nat>, q: U32) {
    session.Some? && session.value < |s.heap| && !Rejects(s.heap[session.value].window, q)
  }

  // --------------------------------------------------------- inverse indexes

  /** Ids are those of the counter, in order of creation. */
  ghost predicate Issued(start: U64, s: State) {
    && s.counter == CounterAfter(start, |s.heap|)
    && forall k | 0 <= k < |s.heap| :: s.heap[k].id == IdAt(start, k)
  }

  /** The two maps are inverse to each other on ids. */
  ghost predicate Inverse(s: State) {
    && WellFormed(s)
    && (forall a <- s.udpSessions ::
          s.heap[s.udpSessions[a]].id in s.udpAddrs && s.udpAddrs[s.heap[s.udpSessions[a]].id] == a)
    && (forall id <- s.udpAddrs ::
          s.udpAddrs[id] in s.udpSessions && s.heap[s.udpSessions[s.udpAddrs[id]]].id == id)
  }

  /** An id that is still indexed was issued before, which freshness excludes. */
  lemma NextIdIsNotIndexed(start: U64, s: State)
    requires Inverse(s) && Issued(start, s) && |s.heap| < PERIOD
    ensures IdAt(start, |s.heap|) == Draw(s.counter).id
    ensures IdAt(start, |s.heap|) !in s.udpAddrs
  {
    var id := IdAt(start, |s.heap|);
    if id in s.udpAddrs {
      IdsAreFresh(start, s.udpSessions[s.udpAddrs[id]], |s.heap|);
    }
  }

  lemma AddingKeepsInverse(s: State, t: State, x: Session, source: Addr)
    requires Inverse(s) && source !in s.udpSessions && x.id !in s.udpAddrs && Sound(x.window)
    requires t.heap == s.heap + [x]
    requires t.udpSessions == s.udpSessions[source := |s.heap|] && t.udpAddrs == s.udpAddrs[x.id := source]
    ensures Inverse(t)
  {
    assert WellFormed(t);
    assert forall a <- s.udpSessions ::
        t.udpSessions[a] == s.udpSessions[a] && t.heap[s.udpSessions[a]] == s.heap[s.udpSessions[a]];
  }

  lemma GetOrCreateKeepsInverse(start: U64, s: State, source: Addr, initial: U32, now: int)
    requires Inverse(s) && Issued(start, s)
    requires |GetOrCreate(s, source, initial, now).state.heap| <= PERIOD
    ensures Inverse(GetOrCreate(s, source, initial, now).state)
    ensures Issued(start, GetOrCreate(s, source, initial, now).state)
  {
    if source !in s.udpSessions {
      NextIdIsNotIndexed(start, s);
      var t := GetOrCreate(s, source, initial, now).state;
      var x := Session(Draw(s.counter).id, initial, New(RESPONSE_WINDOW), now);
      AddingKeepsInverse(s, t, x, source);
    }
  }

  lemma SweepKeepsInverse(start: U64, s: State, now: int, timeout: nat)
    requires Inverse(s) && Issued(start, s)
    ensures Inverse(OnSweep(s, now, timeout)) && Issued(start, OnSweep(s, now, timeout))
  {
    var gone := Expired(s, now, timeout);
    var t := OnSweep(s, now, timeout);
    forall a | a in t.udpSessions ensures s.heap[s.udpSessions[a]].id !in IdsOf(s, gone) {
    }
    assert forall a <- gone :: s.heap[s.udpSessions[a]].id in IdsOf(s, gone);
  }

  /** Under the inverse indexes the two-step lookup finds the live session with that id, if
      there is one, and only that one. */
  lemma LookupFindsTheSession(s: State, id: U64)
    requires Inverse(s)
    ensures Lookup(s, id).None? <==> forall a <- s.udpSessions :: s.heap[s.udpSessions[a]].id != id
    ensures Lookup(s, id).Some? ==>
              && Lookup(s, id).value < |s.heap| && s.heap[Lookup(s, id).value].id == id
              && Lookup(s, id).value in s.udpSessions.Values
    ensures forall a <- s.udpSessions | s.heap[s.udpSessions[a]].id == id :: Lookup(s, id) == Some(s.udpSessions[a])
  {
  }

  // ------------------------------------------------------------------- runs

  datatype Event =
    | Source(addr: Addr, initial: U32, now: int)
    | UdpResponse(id: U64, q: U32, now: int)
    | TcpResponse(source: Addr, q: U32, now: int)
    | Sweep(now: int, timeout: nat)

  function OnResponse(s: State, session: Option<nat>, q: U32, now: int): State
    requires session.Some? ==> session.value < |s.heap|
  {
    match session
    case None => s
    case Some(k) => if IsDuplicate(s, k, q) then Mark(s, k, q) else Touch(Mark(s, k, q), k, now)
  }

  function Apply(s: State, event: Event): State
    requires WellFormed(s)
  {
    match event
    case Source(addr, initial, now) =>
      var f := GetOrCreate(s, addr, initial, now);
      Touch(TakeSeq(f.state, f.session), f.session, now)
    case UdpResponse(id, q, now) => OnResponse(s, Lookup(s, id), q, now)
    case TcpResponse(source, q, now) => OnResponse(s, FindSession(s, source), q, now)
    case Sweep(now, timeout) => OnSweep(s, now, timeout)
  }

  ghost function After(start: U64, steps: seq<Event>): State {
    if steps == [] then Start(start)
    else
      var s := After(start, steps[..|steps| - 1]);
      if WellFormed(s) then Apply(s, steps[|steps| - 1]) else s
  }

  lemma ObjectUpdateKeepsInverse(start: U64, s: State, k: nat, obj: Session)
    requires Inverse(s) && Issued(start, s) && k < |s.heap| && obj.id == s.heap[k].id && Sound(obj.window)
    ensures var t := s.(heap := s.heap[k := obj]);
            Inverse(t) && Issued(start, t)
  {
  }

  lemma ResponseKeepsInverse(start: U64, s: State, session: Option<nat>, q: U32, now: int)
    requires Inverse(s) && Issued(start, s) && (session.Some? ==> session.value < |s.heap|)
    ensures Inverse(OnResponse(s, session, q, now)) && Issued(start, OnResponse(s, session, q, now))
  {
    if session.Some? {
      var k := session.value;
      StepKeepsSound(s.heap[k].window, q);
      var obj := Mark(s, k, q).heap[k];
      ObjectUpdateKeepsInverse(start, s, k, obj);
      ObjectUpdateKeepsInverse(start, Mark(s, k, q), k, obj.(lastActivity := now));
    }
  }

  lemma StepKeepsInverse(start: U64, s: State, event: Event)
    requires Inverse(s) && Issued(start, s) && |Apply(s, event).heap| <= PERIOD
    ensures Inverse(Apply(s, event)) && Issued(start, Apply(s, event))
  {
    match event
    case Source(addr, initial, now) =>
      GetOrCreateKeepsInverse(start, s, addr, initial, now);
      var f := GetOrCreate(s, addr, initial, now);
      var obj := TakeSeq(f.state, f.session).heap[f.session];
      ObjectUpdateKeepsInverse(start, f.state, f.session, obj);
      ObjectUpdateKeepsInverse(start, TakeSeq(f.state, f.session), f.session, obj.(lastActivity := now));
    case UdpResponse(id, q, now) => ResponseKeepsInverse(start, s, Lookup(s, id), q, now);
    case TcpResponse(source, q, now) => ResponseKeepsInverse(start, s, FindSession(s, source), q, now);
    case Sweep(now, timeout) => SweepKeepsInverse(start, s, now, timeout);
  }

  /** In every run of source packets, responses and sweeps with at most 2^64 - 1 creations, the
      indexes stay mutual inverses, so the two-step lookup is exact. */
  lemma {:induction false} IndexesStayInverse(start: U64, steps: seq<Event>)
    requires |After(start, steps).heap| <= PERIOD
    ensures Inverse(After(start, steps)) && Issued(start, After(start, steps))
  {
    if steps != [] {
      var short := steps[..|steps| - 1];
      HeapGrows(start, steps);
      IndexesStayInverse(start, short);
      StepKeepsInverse(start, After(start, short), steps[|steps| - 1]);
    }
  }

  lemma {:induction false} HeapGrows(start: U64, steps: seq<Event>)
    requires steps != []
    ensures |After(start, steps[..|steps| - 1]).heap| <= |After(start, steps).heap|
  {
  }
}
