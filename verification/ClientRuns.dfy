/** The client under a clock, where every handler runs whole: how its packets are numbered, which
    responses reach which source, and how long a session lives. */
module ClientRuns {
  import opened Bounded
  import opened Windows
  import opened Counting
  import opened Clock
  import C = ClientState
  import Delivery

  type Addr = C.Addr

  /** A packet of `addr` left under the number `q`, at time `at`. */
  datatype Sent = Sent(session: nat, id: U64, addr: Addr, q: U32, at: nat)

  /** A response with number `q` was passed on to `addr`, at time `at`. */
  datatype Given = Given(session: nat, addr: Addr, q: U32, at: nat)

  /** `owners` and `initials` are the source and the first number of every session ever created. */
  datatype Run = Run(cli: C.State, now: nat, nextTick: nat,
                     owners: seq<Addr>, initials: seq<U32>, sent: seq<Sent>, given: seq<Given>)

  datatype Step =
    | Source(addr: Addr, initial: U32)
    | UdpResponse(id: U64, q: U32)
    | TcpResponse(source: Addr, q: U32)
    | Wait(time: nat)
    | Tick

  predicate Enabled(r: Run, step: Step) {
    match step
    case Wait(d) => r.now + d <= r.nextTick
    case Tick => r.now == r.nextTick
    case _ => true
  }

  function OnSource(r: Run, addr: Addr, initial: U32): Run
    requires C.WellFormed(r.cli)
  {
    var t := C.Numbered(r.cli, addr, initial, r.now);
    var known := addr in r.cli.udpSessions;
    r.(cli := C.Apply(r.cli, C.Source(addr, initial, r.now)),
       owners := if known then r.owners else r.owners + [addr],
       initials := if known then r.initials else r.initials + [initial],
       sent := r.sent + [Sent(t.session, t.id, addr, t.q, r.now)])
  }

  /** A response for the session that was found, if any, and the source it would go to. */
  function OnResponse(r: Run, cli: C.State, session: Option<nat>, addr: Addr, q: U32): Run {
    r.(cli := cli,
       given := if C.Passes(r.cli, session, q) then r.given + [Given(session.value, addr, q, r.now)] else r.given)
  }

  function Apply(timeout: nat, r: Run, step: Step): Run
    requires C.WellFormed(r.cli)
  {
    match step
    case Source(addr, initial) => OnSource(r, addr, initial)
    case UdpResponse(id, q) =>
      OnResponse(r, C.Apply(r.cli, C.UdpResponse(id, q, r.now)), C.Lookup(r.cli, id),
                 if id in r.cli.udpAddrs then r.cli.udpAddrs[id] else 0, q)
    case TcpResponse(source, q) =>
      OnResponse(r, C.Apply(r.cli, C.TcpResponse(source, q, r.now)), C.FindSession(r.cli, source), source, q)
    case Wait(d) => r.(now := r.now + d)
    case Tick =>
      r.(cli := C.OnSweep(r.cli, r.now, timeout), nextTick := r.nextTick + Interval(timeout))
  }

  ghost function After(timeout: nat, counter: U64, steps: seq<Step>): Option<Run> {
    if steps == [] then Some(Run(C.Start(counter), 0, 0, [], [], [], []))
    else
      match After(timeout, counter, steps[..|steps| - 1])
      case None => None
      case Some(r) =>
        var step := steps[|steps| - 1];
        if C.WellFormed(r.cli) && Enabled(r, step) then Some(Apply(timeout, r, step)) else None
  }

  // ------------------------------------------------------ what a handler does

  /** A packet is sent in the session that is listed for its source, which is created only if there
      is none; it takes the number that was next there, the next one goes up by one, the session
      is stamped now, and the other sessions stay as they are. */
  lemma SourceTakes(s: C.State, addr: Addr, initial: U32, now: int)
    requires C.WellFormed(s)
    ensures var t, s' := C.Numbered(s, addr, initial, now), C.Apply(s, C.Source(addr, initial, now));
            && C.WellFormed(s') && s'.udpSessions == s.udpSessions[addr := t.session]
            && (if addr in s.udpSessions then
                  && t.session == s.udpSessions[addr] && |s'.heap| == |s.heap|
                  && t.q == s.heap[t.session].nextSeq && t.id == s.heap[t.session].id
                  && s'.heap[t.session].window == s.heap[t.session].window && s'.udpAddrs == s.udpAddrs
                else
                  && t.session == |s.heap| && |s'.heap| == |s.heap| + 1
                  && t.q == initial && s'.heap[t.session].window == New(1000)
                  && s'.udpAddrs == s.udpAddrs[t.id := addr])
            && s'.heap[t.session].nextSeq == WrappingAdd(t.q, 1) && s'.heap[t.session].id == t.id
            && s'.heap[t.session].lastActivity == now
            && (forall k | 0 <= k < |s.heap| && k != t.session :: s'.heap[k] == s.heap[k])
  {
  }

  /** A response enters the window of the session found for it, whether it passes or not; it stamps
      the session exactly when it passes; and it changes nothing else. */
  lemma ResponseEnters(s: C.State, session: Option<nat>, q: U32, now: int)
    requires C.WellFormed(s) && (session.Some? ==> session.value < |s.heap|)
    ensures var s' := C.OnResponse(s, session, q, now);
            && C.WellFormed(s') && |s'.heap| == |s.heap|
            && s' == s.(heap := s'.heap) && (session.None? ==> s' == s)
            && (forall k | 0 <= k < |s.heap| && session != Some(k) :: s'.heap[k] == s.heap[k])
            && (session.Some? ==>
                  var x, y := s.heap[session.value], s'.heap[session.value];
                  && Rejects(y.window, q) && y.window == Windows.Step(x.window, q).window
                  && (Windows.Step(x.window, q).duplicate <==> !C.Passes(s, session, q))
                  && y.id == x.id && y.nextSeq == x.nextSeq
                  && y.lastActivity == if C.Passes(s, session, q) then now else x.lastActivity)
  {
    if session.Some? {
      StepKeepsSound(s.heap[session.value].window, q);
      StepRejects(s.heap[session.value].window, q, q);
    }
  }

  ghost predicate Punctual(timeout: nat, r: Run) {
    && C.WellFormed(r.cli)
    && r.now <= r.nextTick <= r.now + Interval(timeout)
    && (forall a <- r.cli.udpSessions ::
          var last := r.cli.heap[r.cli.udpSessions[a]].lastActivity;
          last <= r.now && r.nextTick - last <= timeout + Interval(timeout))
  }

  /** Objects keep their stamp or get the present one. */
  ghost predicate Stamps(a: C.State, b: C.State, now: int) {
    && C.WellFormed(b) && |a.heap| <= |b.heap|
    && (forall x <- b.udpSessions :: b.heap[b.udpSessions[x]].lastActivity == now ||
          (x in a.udpSessions && a.udpSessions[x] < |a.heap| &&
           b.heap[b.udpSessions[x]].lastActivity == a.heap[a.udpSessions[x]].lastActivity))
  }

  lemma ResponseStamps(s: C.State, session: Option<nat>, q: U32, now: int)
    requires C.WellFormed(s) && (session.Some? ==> session.value < |s.heap|)
    ensures Stamps(s, C.OnResponse(s, session, q, now), now)
  {
    if session.Some? {
      StepKeepsSound(s.heap[session.value].window, q);
    }
  }

  lemma SourceStamps(s: C.State, addr: Addr, initial: U32, now: int)
    requires C.WellFormed(s)
    ensures Stamps(s, C.Apply(s, C.Source(addr, initial, now)), now)
  {
  }

  lemma StepIsPunctual(timeout: nat, r: Run, step: Step)
    requires Punctual(timeout, r) && Enabled(r, step)
    ensures Punctual(timeout, Apply(timeout, r, step))
  {
    match step
    case Source(addr, initial) => SourceStamps(r.cli, addr, initial, r.now);
    case UdpResponse(id, q) => ResponseStamps(r.cli, C.Lookup(r.cli, id), q, r.now);
    case TcpResponse(source, q) => ResponseStamps(r.cli, C.FindSession(r.cli, source), q, r.now);
    case _ =>
  }

  /** Idle bound: in every run no live client session has been idle for longer than the timeout
      plus one sweep interval. */
  lemma {:induction false} IdleBound(timeout: nat, counter: U64, steps: seq<Step>)
    requires After(timeout, counter, steps).Some?
    ensures var r := After(timeout, counter, steps).value;
            && Punctual(timeout, r)
            && forall a <- r.cli.udpSessions ::
                 r.now - r.cli.heap[r.cli.udpSessions[a]].lastActivity <= timeout + Interval(timeout)
  {
    if steps != [] {
      var n := |steps| - 1;
      IdleBound(timeout, counter, steps[..n]);
      StepIsPunctual(timeout, After(timeout, counter, steps[..n]).value, steps[n]);
    }
  }

  // ------------------------------------------------------------ the histories

  function SessionOf(e: Sent): nat {
    e.session
  }

  /** How many packets session `k` has sent. */
  function SentBy(sent: seq<Sent>, k: nat): nat {
    Count(sent, SessionOf, k)
  }

  /** The numbers of the responses passed on in session `k`. */
  function GivenIn(given: seq<Given>, k: nat): set<U32> {
    set g | g in given && g.session == k :: g.q
  }

  predicate InSequence(initials: seq<U32>, sent: seq<Sent>, i: nat)
    requires i < |sent|
  {
    var e := sent[i];
    e.session < |initials| && e.q == Delivery.SeqOf(initials[e.session], SentBy(sent[..i], e.session))
  }

  ghost predicate CountsOk(heap: seq<C.Session>, initials: seq<U32>, sent: seq<Sent>) {
    && |initials| == |heap|
    && (forall k: nat | k < |heap| :: heap[k].nextSeq == Delivery.SeqOf(initials[k], SentBy(sent, k)))
    && (forall k: nat | k >= |heap| :: SentBy(sent, k) == 0)
    && (forall i: nat | i < |sent| :: InSequence(initials, sent, i))
  }

  ghost predicate OwnersOk(cli: C.State, owners: seq<Addr>, sent: seq<Sent>, given: seq<Given>) {
    && |owners| == |cli.heap|
    && (forall a <- cli.udpSessions :: cli.udpSessions[a] < |owners| && owners[cli.udpSessions[a]] == a)
    && (forall e <- sent :: e.session < |owners| && owners[e.session] == e.addr && cli.heap[e.session].id == e.id)
    && (forall g <- given :: g.session < |owners| && owners[g.session] == g.addr)
  }

  ghost predicate WindowsOk(heap: seq<C.Session>, given: seq<Given>) {
    && (forall k | 0 <= k < |heap| ::
          heap[k].window.size == 1000 && Faithful(heap[k].window, GivenIn(given, k)))
    && (forall g <- given :: g.session < |heap|)
    && (forall i, j | 0 <= i < j < |given| && given[i].session == given[j].session :: given[i].q != given[j].q)
  }

  /** Session `k` is listed for `addr`, with a stamp no older than `at`. */
  predicate ListedSince(cli: C.State, addr: Addr, k: nat, at: nat) {
    addr in cli.udpSessions && cli.udpSessions[addr] == k && k < |cli.heap| && cli.heap[k].lastActivity >= at
  }

  ghost predicate AliveOk(timeout: nat, r: Run) {
    && (forall e <- r.sent ::
          e.at <= r.now && (r.now - e.at <= timeout ==> ListedSince(r.cli, e.addr, e.session, e.at)))
    && (forall g <- r.given ::
          g.at <= r.now && (r.now - g.at <= timeout ==> ListedSince(r.cli, g.addr, g.session, g.at)))
  }

  ghost predicate Holds(timeout: nat, r: Run) {
    && C.WellFormed(r.cli) && CountsOk(r.cli.heap, r.initials, r.sent)
    && OwnersOk(r.cli, r.owners, r.sent, r.given) && WindowsOk(r.cli.heap, r.given) && AliveOk(timeout, r)
    && (forall k | 0 <= k < |r.cli.heap| :: r.cli.heap[k].lastActivity <= r.now)
  }

  // ------------------------------------------------------------ a source packet

  lemma SendCounts(heap: seq<C.Session>, initials: seq<U32>, sent: seq<Sent>, e: Sent)
    requires CountsOk(heap, initials, sent) && e.session < |heap| && e.q == heap[e.session].nextSeq
    ensures var x := heap[e.session];
            CountsOk(heap[e.session := x.(nextSeq := WrappingAdd(x.nextSeq, 1))], initials, sent + [e])
  {
    var x := heap[e.session];
    var more := sent + [e];
    forall k: nat ensures SentBy(more, k) == SentBy(sent, k) + (if e.session == k then 1 else 0) {
      CountStep(sent, e, SessionOf, k);
    }
    NextSeq(initials[e.session], SentBy(sent, e.session));
    forall i: nat | i < |more| ensures InSequence(initials, more, i) {
      if i < |sent| {
        assert InSequence(initials, sent, i) && more[..i] == sent[..i];
      } else {
        assert more[..i] == sent;
      }
    }
  }

  lemma NextSeq(initial: U32, n: nat)
    ensures WrappingAdd(Delivery.SeqOf(initial, n), 1) == Delivery.SeqOf(initial, n + 1)
  {
  }

  lemma NewCounts(heap: seq<C.Session>, initials: seq<U32>, sent: seq<Sent>, x: C.Session)
    requires CountsOk(heap, initials, sent)
    ensures CountsOk(heap + [x], initials + [x.nextSeq], sent)
  {
    forall i: nat | i < |sent| ensures InSequence(initials + [x.nextSeq], sent, i) {
      assert InSequence(initials, sent, i);
    }
  }

  ghost predicate SameSeqs(a: seq<C.Session>, b: seq<C.Session>) {
    |a| == |b| && forall k | 0 <= k < |a| :: b[k].nextSeq == a[k].nextSeq
  }

  lemma OtherCounts(a: seq<C.Session>, b: seq<C.Session>, initials: seq<U32>, sent: seq<Sent>)
    requires CountsOk(a, initials, sent) && SameSeqs(a, b)
    ensures CountsOk(b, initials, sent)
  {
  }

  lemma SourceCounts(r: Run, addr: Addr, initial: U32)
    requires C.WellFormed(r.cli) && CountsOk(r.cli.heap, r.initials, r.sent)
    ensures var r' := OnSource(r, addr, initial); CountsOk(r'.cli.heap, r'.initials, r'.sent)
  {
    SourceTakes(r.cli, addr, initial, r.now);
    var r' := OnSource(r, addr, initial);
    var t := C.Numbered(r.cli, addr, initial, r.now);
    var e := Sent(t.session, t.id, addr, t.q, r.now);
    var heap, initials := r.cli.heap, r.initials;
    if addr !in r.cli.udpSessions {
      var x := r'.cli.heap[t.session].(nextSeq := t.q);
      NewCounts(heap, initials, r.sent, x);
      heap, initials := heap + [x], initials + [initial];
    }
    SendCounts(heap, initials, r.sent, e);
    OtherCounts(heap[t.session := heap[t.session].(nextSeq := WrappingAdd(t.q, 1))], r'.cli.heap, initials, r'.sent);
  }

  lemma SourceWindows(r: Run, addr: Addr, initial: U32)
    requires C.WellFormed(r.cli) && WindowsOk(r.cli.heap, r.given)
    ensures var r' := OnSource(r, addr, initial); WindowsOk(r'.cli.heap, r'.given)
  {
    SourceTakes(r.cli, addr, initial, r.now);
    var r' := OnSource(r, addr, initial);
    var n := |r.cli.heap|;
    assert GivenIn(r.given, n) == {};
    forall k | 0 <= k < |r'.cli.heap|
      ensures r'.cli.heap[k].window.size == 1000 && Faithful(r'.cli.heap[k].window, GivenIn(r.given, k))
    {
      if k < n { assert Faithful(r.cli.heap[k].window, GivenIn(r.given, k)); }
    }
  }

  lemma SourceOwners(r: Run, addr: Addr, initial: U32)
    requires C.WellFormed(r.cli) && OwnersOk(r.cli, r.owners, r.sent, r.given)
    ensures var r' := OnSource(r, addr, initial); OwnersOk(r'.cli, r'.owners, r'.sent, r'.given)
  {
    SourceTakes(r.cli, addr, initial, r.now);
  }

  lemma SourceAlive(timeout: nat, r: Run, addr: Addr, initial: U32)
    requires C.WellFormed(r.cli) && OwnersOk(r.cli, r.owners, r.sent, r.given) && AliveOk(timeout, r)
    requires forall k | 0 <= k < |r.cli.heap| :: r.cli.heap[k].lastActivity <= r.now
    ensures AliveOk(timeout, OnSource(r, addr, initial))
  {
    SourceTakes(r.cli, addr, initial, r.now);
    var r' := OnSource(r, addr, initial);
    forall a: Addr, k: nat, at: nat | ListedSince(r.cli, a, k, at) && at <= r.now
      ensures ListedSince(r'.cli, a, k, at)
    {
    }
  }

  lemma SourceHolds(timeout: nat, r: Run, addr: Addr, initial: U32)
    requires Holds(timeout, r)
    ensures Holds(timeout, OnSource(r, addr, initial))
  {
    SourceCounts(r, addr, initial);
    SourceWindows(r, addr, initial);
    SourceOwners(r, addr, initial);
    SourceAlive(timeout, r, addr, initial);
    SourceTakes(r.cli, addr, initial, r.now);
  }

  // ---------------------------------------------------------------- a response

  lemma GivenGrows(given: seq<Given>, g: Given, k: nat)
    ensures GivenIn(given + [g], k) == GivenIn(given, k) + (if g.session == k then {g.q} else {})
  {
  }

  lemma ResponseWindows(r: Run, session: Option<nat>, addr: Addr, q: U32)
    requires C.WellFormed(r.cli) && WindowsOk(r.cli.heap, r.given)
    requires session.Some? ==> session.value < |r.cli.heap|
    ensures var r' := OnResponse(r, C.OnResponse(r.cli, session, q, r.now), session, addr, q);
            WindowsOk(r'.cli.heap, r'.given)
  {
    ResponseEnters(r.cli, session, q, r.now);
    var r' := OnResponse(r, C.OnResponse(r.cli, session, q, r.now), session, addr, q);
    if session.Some? {
      var j := session.value;
      var w := r.cli.heap[j].window;
      var g := Given(j, addr, q, r.now);
      FaithfulStep(w, GivenIn(r.given, j), q);
      StepKeepsSound(w, q);
      forall k | 0 <= k < |r.cli.heap|
        ensures r'.cli.heap[k].window.size == 1000 && Faithful(r'.cli.heap[k].window, GivenIn(r'.given, k))
      {
        GivenGrows(r.given, g, k);
        if k == j {
          assert GivenIn(r'.given, k) ==
                 if Windows.Step(w, q).duplicate then GivenIn(r.given, k) else GivenIn(r.given, k) + {q};
        } else {
          assert GivenIn(r'.given, k) == GivenIn(r.given, k);
          assert Faithful(r.cli.heap[k].window, GivenIn(r.given, k));
        }
      }
      if C.Passes(r.cli, session, q) {
        NotGivenYet(r.cli.heap[j].window, r.given, j, q);
      }
    }
  }

  /** What passes has not been passed on before. */
  lemma NotGivenYet(w: Window, given: seq<Given>, k: nat, q: U32)
    requires Faithful(w, GivenIn(given, k)) && !Rejects(w, q)
    ensures forall g <- given | g.session == k :: g.q != q
  {
    forall g | g in given && g.session == k ensures g.q != q {
      assert g.q in GivenIn(given, k);
    }
  }

  lemma ResponseHolds(timeout: nat, r: Run, session: Option<nat>, addr: Addr, q: U32)
    requires Holds(timeout, r)
    requires session.Some? ==> addr in r.cli.udpSessions && r.cli.udpSessions[addr] == session.value
    ensures Holds(timeout, OnResponse(r, C.OnResponse(r.cli, session, q, r.now), session, addr, q))
  {
    ResponseEnters(r.cli, session, q, r.now);
    ResponseWindows(r, session, addr, q);
    var r' := OnResponse(r, C.OnResponse(r.cli, session, q, r.now), session, addr, q);
    OtherCounts(r.cli.heap, r'.cli.heap, r.initials, r.sent);
    assert OwnersOk(r'.cli, r'.owners, r'.sent, r'.given);
    forall a: Addr, k: nat, at: nat | ListedSince(r.cli, a, k, at) && at <= r.now
      ensures ListedSince(r'.cli, a, k, at)
    {
    }
  }

  // --------------------------------------------------------------- time passes

  lemma TickHolds(timeout: nat, r: Run)
    requires Holds(timeout, r)
    ensures Holds(timeout, Apply(timeout, r, Tick))
  {
    var r' := Apply(timeout, r, Tick);
    forall a: Addr, k: nat, at: nat | ListedSince(r.cli, a, k, at) && r.now - at <= timeout
      ensures ListedSince(r'.cli, a, k, at)
    {
    }
  }

  lemma WaitHolds(timeout: nat, r: Run, d: nat)
    requires Holds(timeout, r)
    ensures Holds(timeout, Apply(timeout, r, Wait(d)))
  {
  }

  lemma StepHolds(timeout: nat, r: Run, step: Step)
    requires Holds(timeout, r)
    ensures Holds(timeout, Apply(timeout, r, step))
  {
    match step
    case Source(addr, initial) => SourceHolds(timeout, r, addr, initial);
    case UdpResponse(id, q) =>
      ResponseHolds(timeout, r, C.Lookup(r.cli, id), if id in r.cli.udpAddrs then r.cli.udpAddrs[id] else 0, q);
    case TcpResponse(source, q) => ResponseHolds(timeout, r, C.FindSession(r.cli, source), source, q);
    case Wait(d) => WaitHolds(timeout, r, d);
    case Tick => TickHolds(timeout, r);
  }

  lemma {:induction false} RunsHold(timeout: nat, counter: U64, steps: seq<Step>)
    requires After(timeout, counter, steps).Some?
    ensures Holds(timeout, After(timeout, counter, steps).value)
  {
    if steps != [] {
      var n := |steps| - 1;
      RunsHold(timeout, counter, steps[..n]);
      StepHolds(timeout, After(timeout, counter, steps[..n]).value, steps[n]);
    }
  }

  // ------------------------------------------------------------- the theorems

  /** Numbering: in every run packet `i` goes out in a session of its source, under the id of that
      session, and numbered with the session's first number plus how many packets the session
      sent before. */
  lemma {:induction false} PacketsAreNumbered(timeout: nat, counter: U64, steps: seq<Step>, i: nat)
    requires After(timeout, counter, steps).Some? && i < |After(timeout, counter, steps).value.sent|
    ensures var r := After(timeout, counter, steps).value;
            var e := r.sent[i];
            && e.session < |r.owners| == |r.initials| == |r.cli.heap|
            && r.owners[e.session] == e.addr && r.cli.heap[e.session].id == e.id
            && e.q == Delivery.SeqOf(r.initials[e.session], SentBy(r.sent[..i], e.session))
  {
    RunsHold(timeout, counter, steps);
    var r := After(timeout, counter, steps).value;
    assert InSequence(r.initials, r.sent, i) && r.sent[i] in r.sent;
  }

  /** Responses: in every run a response is passed on to the source its session was created for,
      and no number twice in a session, over UDP and TCP together. */
  lemma {:induction false} ResponsesArePassedOnce(timeout: nat, counter: U64, steps: seq<Step>, i: nat, j: nat)
    requires After(timeout, counter, steps).Some? && i < j < |After(timeout, counter, steps).value.given|
    ensures var r := After(timeout, counter, steps).value;
            && r.given[i].session < |r.owners| && r.owners[r.given[i].session] == r.given[i].addr
            && (r.given[i].session == r.given[j].session ==> r.given[i].q != r.given[j].q)
  {
    RunsHold(timeout, counter, steps);
    assert After(timeout, counter, steps).value.given[i] in After(timeout, counter, steps).value.given;
  }

  /** Active sessions survive: a session that sent a packet or passed a response on at some time is
      listed for its source, and no other, until more than the timeout after. */
  lemma {:induction false} ActiveSessionsSurvive(timeout: nat, counter: U64, steps: seq<Step>)
    requires After(timeout, counter, steps).Some?
    ensures var r := After(timeout, counter, steps).value;
            && (forall e <- r.sent | r.now - e.at <= timeout ::
                  e.addr in r.cli.udpSessions && r.cli.udpSessions[e.addr] == e.session)
            && (forall g <- r.given | r.now - g.at <= timeout ::
                  g.addr in r.cli.udpSessions && r.cli.udpSessions[g.addr] == g.session)
  {
    RunsHold(timeout, counter, steps);
  }

  /** No response is lost to the window that is less than 1000 below the greatest one passed on, not
      below the first, and was not passed on before. */
  lemma {:induction false} FreshResponsesPass(timeout: nat, counter: U64, steps: seq<Step>, k: nat, q: U32)
    requires After(timeout, counter, steps).Some? && k < |After(timeout, counter, steps).value.cli.heap|
    requires var h := GivenIn(After(timeout, counter, steps).value.given, k);
             && q !in h && (forall x <- h :: x < q + 1000)
             && (h != {} ==> exists x :: x in h && x <= q)
    ensures C.Passes(After(timeout, counter, steps).value.cli, Some(k), q)
  {
    RunsHold(timeout, counter, steps);
    var r := After(timeout, counter, steps).value;
    var w, h := r.cli.heap[k].window, GivenIn(r.given, k);
    assert Faithful(w, h) && w.size == 1000;
    if w.started {
      var first :| Refines(w, h, first);
      InWindowIsAccepted(w, h, first, q);
    }
  }
}
