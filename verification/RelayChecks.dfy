/** What windows admit, on both sides of the relay: the windows are those of `Windows.Run`, and
    what a window admits is not forgotten, but passed on, in hand, or given up. */
module RelayChecks {
  import opened Bounded
  import opened Windows
  import C = ClientState
  import S = ServerState
  import opened Relay
  import opened RelayClaims
  import opened Counting

  function SessionOfCheck(c: Check): nat {
    c.k
  }

  /** The checks of session object `k`, in order. */
  function ChecksOf(checks: seq<Check>, k: nat): seq<Check> {
    Select(checks, SessionOfCheck, k)
  }

  function Numbers(checks: seq<Check>): (calls: seq<U32>)
    ensures |calls| == |checks| && forall i | 0 <= i < |calls| :: calls[i] == checks[i].p.q
  {
    seq(|checks|, i requires 0 <= i < |checks| => checks[i].p.q)
  }

  /** The numbers put to the window of session object `k`. */
  function CallsOf(checks: seq<Check>, k: nat): seq<U32> {
    Numbers(ChecksOf(checks, k))
  }

  lemma CallsStep(checks: seq<Check>, c: Check, k: nat)
    ensures CallsOf(checks + [c], k) == if c.k == k then CallsOf(checks, k) + [c.p.q] else CallsOf(checks, k)
  {
    SelectStep(checks, c, SessionOfCheck, k);
  }

  // --------------------------------------------------------- the windows

  /** The answer to check `i` is that of the window after the checks before it. */
  ghost predicate Answered(size: nat, checks: seq<Check>, i: nat)
    requires i < |checks|
  {
    checks[i].accepted <==>
      !Windows.Step(Windows.Run(size, CallsOf(checks[..i], checks[i].k)), checks[i].p.q).duplicate
  }

  ghost predicate WindowsRun(size: nat, ws: seq<Window>, checks: seq<Check>) {
    && (forall k: nat | k < |ws| :: ws[k] == Windows.Run(size, CallsOf(checks, k)))
    && (forall k: nat | k >= |ws| :: CallsOf(checks, k) == [])
    && (forall i: nat | i < |checks| :: Answered(size, checks, i))
  }

  lemma WindowStep(size: nat, calls: seq<U32>, q: U32)
    ensures Windows.Run(size, calls + [q]) == Windows.Step(Windows.Run(size, calls), q).window
  {
    assert (calls + [q])[..|calls|] == calls;
  }

  lemma CheckKeepsRun(size: nat, ws: seq<Window>, checks: seq<Check>, c: Check)
    requires WindowsRun(size, ws, checks) && c.k < |ws|
    requires c.accepted <==> !Windows.Step(ws[c.k], c.p.q).duplicate
    ensures WindowsRun(size, ws[c.k := Windows.Step(ws[c.k], c.p.q).window], checks + [c])
  {
    var more := checks + [c];
    WindowStep(size, CallsOf(checks, c.k), c.p.q);
    forall k: nat ensures CallsOf(more, k) == if c.k == k then CallsOf(checks, k) + [c.p.q] else CallsOf(checks, k) {
      CallsStep(checks, c, k);
    }
    forall i: nat | i < |more| ensures Answered(size, more, i) {
      if i < |checks| {
        assert Answered(size, checks, i) && more[..i] == checks[..i];
      } else {
        assert more[..i] == checks;
      }
    }
  }

  /** Windows stay as they are, and new ones are empty. */
  ghost predicate FreshWindows(size: nat, a: seq<Window>, b: seq<Window>) {
    && |a| <= |b|
    && (forall k | 0 <= k < |a| :: b[k] == a[k])
    && (forall k | |a| <= k < |b| :: b[k] == Windows.New(size))
  }

  lemma OthersKeepRun(size: nat, a: seq<Window>, b: seq<Window>, checks: seq<Check>)
    requires WindowsRun(size, a, checks) && FreshWindows(size, a, b)
    ensures WindowsRun(size, b, checks)
  {
  }

  // ------------------------------------------------- nothing admitted is forgotten

  /** A packet that the window of session object `k` admitted. */
  datatype Item = Item(k: nat, p: Pkt)

  /** An admitted packet was passed on or given up, or a handler has it in hand. */
  predicate Kept(c: Check, hands: map<nat, Item>, out: set<Item>, lost: set<Item>) {
    var it := Item(c.k, c.p);
    it in out || it in lost || it in hands.Values
  }

  ghost predicate AllKept(checks: seq<Check>, hands: map<nat, Item>, out: set<Item>, lost: set<Item>) {
    forall c <- checks | c.accepted :: Kept(c, hands, out, lost)
  }

  /** Hands may let go of an item only when it is `gone`. */
  ghost predicate HandsOn(a: map<nat, Item>, b: map<nat, Item>, gone: set<Item>) {
    forall t <- a :: (t in b && b[t] == a[t]) || a[t] in gone
  }

  lemma HandingOnKeeps(checks: seq<Check>, a: map<nat, Item>, b: map<nat, Item>,
                       out: set<Item>, lost: set<Item>, out': set<Item>, lost': set<Item>)
    requires AllKept(checks, a, out, lost)
    requires out <= out' && lost <= lost' && HandsOn(a, b, out' + lost')
    ensures AllKept(checks, b, out', lost')
  {
    forall c <- checks | c.accepted ensures Kept(c, b, out', lost') {
      assert Kept(c, a, out, lost);
      if Item(c.k, c.p) in a.Values {
        var t :| t in a && a[t] == Item(c.k, c.p);
        assert t in b && b[t] == a[t] ==> a[t] in b.Values;
      }
    }
  }

  // --------------------------------------------------------- at the server

  function ServerHands(tasks: map<nat, ServerTask>): (hands: map<nat, Item>) {
    map t: nat | t in tasks && Admitted(tasks[t]) :: Item(tasks[t].k, tasks[t].p)
  }

  function Items(forwarded: seq<Forwarded>): set<Item> {
    set f | f in forwarded :: Item(f.k, f.p)
  }

  ghost predicate ServerChecked(size: nat, s: State) {
    && WindowsRun(size, ServerWindows(s.srv.heap), s.checks)
    && AllKept(s.checks, ServerHands(s.serverTasks), Items(s.forwarded), Items(s.lost))
  }

  lemma CheckPacketKeepsRun(size: nat, s: State, t: nat)
    requires WindowsRun(size, ServerWindows(s.srv.heap), s.checks) && PacketEnabled(s, t, CheckPacket)
    ensures var s' := PacketApply(size, s, t, CheckPacket); WindowsRun(size, ServerWindows(s'.srv.heap), s'.checks)
  {
    var x := s.serverTasks[t];
    var ws := ServerWindows(s.srv.heap);
    CheckKeepsRun(size, ws, s.checks, Check(x.k, x.p, !S.IsDuplicate(s.srv, x.k, x.p.q)));
    assert ServerWindows(PacketApply(size, s, t, CheckPacket).srv.heap) ==
           ws[x.k := Windows.Step(ws[x.k], x.p.q).window];
  }

  lemma OtherPacketsAreFresh(size: nat, s: State, t: nat, step: PacketStep)
    requires PacketEnabled(s, t, step) && !step.CheckPacket?
    ensures var s' := PacketApply(size, s, t, step);
            s'.checks == s.checks && FreshWindows(size, ServerWindows(s.srv.heap), ServerWindows(s'.srv.heap))
  {
    if step.WriteSessions? {
      var x := s.serverTasks[t];
      var f := S.FindOrCreate(s.srv, x.p.id, step.connected, size, step.now);
      assert |f.state.heap| > |s.srv.heap| ==> f.state.heap[|s.srv.heap|].window == Windows.New(size);
    }
  }

  lemma PacketKeepsRun(size: nat, s: State, t: nat, step: PacketStep)
    requires WindowsRun(size, ServerWindows(s.srv.heap), s.checks) && PacketEnabled(s, t, step)
    ensures var s' := PacketApply(size, s, t, step); WindowsRun(size, ServerWindows(s'.srv.heap), s'.checks)
  {
    if step.CheckPacket? {
      CheckPacketKeepsRun(size, s, t);
    } else {
      var s' := PacketApply(size, s, t, step);
      OtherPacketsAreFresh(size, s, t, step);
      OthersKeepRun(size, ServerWindows(s.srv.heap), ServerWindows(s'.srv.heap), s.checks);
    }
  }

  lemma AnswerKeepsWindows(s: State, t: nat, step: AnswerStep)
    requires AnswerEnabled(s, t, step)
    ensures ServerWindows(AnswerApply(s, t, step).srv.heap) == ServerWindows(s.srv.heap)
  {
  }

  lemma SweepKeepsWindows(s: State, step: SweepStep)
    requires SweepEnabled(s, step)
    ensures var s' := SweepApply(s, step);
            ServerWindows(s'.srv.heap) == ServerWindows(s.srv.heap) && s'.checks == s.checks
  {
  }

  /** Under every interleaving the window of an incarnation is that of the calls it got. */
  lemma ServerKeepsRun(size: nat, s: State, step: Step)
    requires WindowsRun(size, ServerWindows(s.srv.heap), s.checks) && Enabled(s, step)
    ensures var s' := Apply(size, s, step); WindowsRun(size, ServerWindows(s'.srv.heap), s'.checks)
  {
    match step
    case OnSource(t, x) => SourceFrame(s, t, x);
    case OnResponse(t, x) => ResponseFrame(s, t, x);
    case OnPacket(t, x) => PacketKeepsRun(size, s, t, x);
    case OnAnswer(t, x) =>
      AnswerFrame(s, t, x);
      AnswerKeepsWindows(s, t, x);
    case OnSweep(x) => SweepKeepsWindows(s, x);
  }

  lemma CheckPacketKeepsAll(size: nat, s: State, t: nat)
    requires AllKept(s.checks, ServerHands(s.serverTasks), Items(s.forwarded), Items(s.lost))
    requires PacketEnabled(s, t, CheckPacket)
    ensures var s' := PacketApply(size, s, t, CheckPacket);
            AllKept(s'.checks, ServerHands(s'.serverTasks), Items(s'.forwarded), Items(s'.lost))
  {
    var x := s.serverTasks[t];
    var s' := PacketApply(size, s, t, CheckPacket);
    var a, b := ServerHands(s.serverTasks), ServerHands(s'.serverTasks);
    HandingOnKeeps(s.checks, a, b, Items(s.forwarded), Items(s.lost), Items(s'.forwarded), Items(s'.lost));
    if !S.IsDuplicate(s.srv, x.k, x.p.q) {
      assert t in b && b[t] == Item(x.k, x.p);
    }
  }

  /** A step of task `t` leaves the other tasks alone. */
  lemma ServerHandsOf(tasks: map<nat, ServerTask>, t: nat, x: ServerTask)
    ensures HandsOn(ServerHands(tasks), ServerHands(tasks[t := x]),
                    if t in tasks && Admitted(tasks[t]) then {Item(tasks[t].k, tasks[t].p)} else {})
    ensures t in tasks && Admitted(tasks[t]) && Admitted(x) && x.k == tasks[t].k && x.p == tasks[t].p ==>
              HandsOn(ServerHands(tasks), ServerHands(tasks[t := x]), {})
    ensures HandsOn(ServerHands(tasks), ServerHands(tasks - {t}),
                    if t in tasks && Admitted(tasks[t]) then {Item(tasks[t].k, tasks[t].p)} else {})
  {
  }

  lemma OtherPacketTasks(size: nat, s: State, t: nat, step: PacketStep)
    requires PacketEnabled(s, t, step) && !step.CheckPacket?
    ensures var s' := PacketApply(size, s, t, step);
            var x := TaskAt(s'.serverTasks, t);
            && s.forwarded <= s'.forwarded && s'.lost == s.lost
            && (if t in s'.serverTasks then s'.serverTasks in {s.serverTasks, s.serverTasks[t := x]}
                else s'.serverTasks in {s.serverTasks, s.serverTasks - {t}})
            && (t in s.serverTasks && Admitted(s.serverTasks[t]) && !step.ForwardPacket? ==>
                  t in s'.serverTasks && Admitted(x) && x.k == s.serverTasks[t].k && x.p == s.serverTasks[t].p)
  {
    match step
    case ServerHearsUdp(_, _, _) =>
    case ServerHearsTcp(_) =>
    case ReadSessions =>
    case WriteSessions(_, _) =>
    case NoteConn =>
    case AddPath =>
    case ForwardPacket =>
  }

  lemma OtherPacketsHandOn(size: nat, s: State, t: nat, step: PacketStep)
    requires PacketEnabled(s, t, step) && !step.CheckPacket?
    ensures var s' := PacketApply(size, s, t, step);
            && Items(s.forwarded) <= Items(s'.forwarded) && s'.lost == s.lost
            && HandsOn(ServerHands(s.serverTasks), ServerHands(s'.serverTasks), Items(s'.forwarded))
  {
    var s' := PacketApply(size, s, t, step);
    OtherPacketTasks(size, s, t, step);
    ServerHandsOf(s.serverTasks, t, TaskAt(s'.serverTasks, t));
    if step.ForwardPacket? {
      assert Forwarded(s.serverTasks[t].k, s.serverTasks[t].p) in s'.forwarded;
    }
  }

  lemma AnswersHandOn(s: State, t: nat, step: AnswerStep)
    requires AnswerEnabled(s, t, step)
    ensures var s' := AnswerApply(s, t, step);
            && s'.forwarded == s.forwarded && Items(s.lost) <= Items(s'.lost)
            && HandsOn(ServerHands(s.serverTasks), ServerHands(s'.serverTasks), Items(s'.lost))
  {
    var s' := AnswerApply(s, t, step);
    AnswerFrame(s, t, step);
    AnswerTasks(s, t, step);
    ServerHandsOf(s.serverTasks, t, TaskAt(s'.serverTasks, t));
    if step.ServerDrops? && Admitted(s.serverTasks[t]) {
      assert Forwarded(s.serverTasks[t].k, s.serverTasks[t].p) in s'.lost;
    }
  }

  lemma PacketKeepsAll(size: nat, s: State, t: nat, step: PacketStep)
    requires AllKept(s.checks, ServerHands(s.serverTasks), Items(s.forwarded), Items(s.lost))
    requires PacketEnabled(s, t, step)
    ensures var s' := PacketApply(size, s, t, step);
            AllKept(s'.checks, ServerHands(s'.serverTasks), Items(s'.forwarded), Items(s'.lost))
  {
    if step.CheckPacket? {
      CheckPacketKeepsAll(size, s, t);
    } else {
      var s' := PacketApply(size, s, t, step);
      OtherPacketsHandOn(size, s, t, step);
      OtherPacketsAreFresh(size, s, t, step);
      HandingOnKeeps(s.checks, ServerHands(s.serverTasks), ServerHands(s'.serverTasks),
                     Items(s.forwarded), Items(s.lost), Items(s'.forwarded), Items(s'.lost));
    }
  }

  /** Conservation at the server: an admitted packet is forwarded, in hand, or given up. */
  lemma ServerKeepsAll(size: nat, s: State, step: Step)
    requires AllKept(s.checks, ServerHands(s.serverTasks), Items(s.forwarded), Items(s.lost)) && Enabled(s, step)
    ensures var s' := Apply(size, s, step);
            AllKept(s'.checks, ServerHands(s'.serverTasks), Items(s'.forwarded), Items(s'.lost))
  {
    match step
    case OnSource(t, x) => SourceFrame(s, t, x);
    case OnResponse(t, x) => ResponseFrame(s, t, x);
    case OnPacket(t, x) => PacketKeepsAll(size, s, t, x);
    case OnAnswer(t, x) =>
      var s' := AnswerApply(s, t, x);
      AnswerFrame(s, t, x);
      AnswersHandOn(s, t, x);
      HandingOnKeeps(s.checks, ServerHands(s.serverTasks), ServerHands(s'.serverTasks),
                     Items(s.forwarded), Items(s.lost), Items(s'.forwarded), Items(s'.lost));
    case OnSweep(x) =>
      var s' := SweepApply(s, x);
      assert s'.serverTasks == s.serverTasks && s'.checks == s.checks;
      assert s'.forwarded == s.forwarded && s'.lost == s.lost;
  }

  // --------------------------------------------------------- at the client

  function ClientHands(tasks: map<nat, ClientTask>): (hands: map<nat, Item>) {
    map t: nat | t in tasks && tasks[t].Passed? :: Item(tasks[t].k, tasks[t].p)
  }

  function Emissions(emitted: seq<Emitted>): set<Item> {
    set e | e in emitted :: Item(e.k, e.p)
  }

  ghost predicate ClientChecked(s: State) {
    && WindowsRun(C.RESPONSE_WINDOW, ClientWindows(s.cli.heap), s.heard)
    && AllKept(s.heard, ClientHands(s.clientTasks), Emissions(s.emitted), Emissions(s.dropped))
  }

  lemma CheckResponseKeepsRun(s: State, t: nat)
    requires WindowsRun(C.RESPONSE_WINDOW, ClientWindows(s.cli.heap), s.heard) && ResponseEnabled(s, t, CheckResponse)
    ensures var s' := ResponseApply(s, t, CheckResponse);
            WindowsRun(C.RESPONSE_WINDOW, ClientWindows(s'.cli.heap), s'.heard)
  {
    var x := s.clientTasks[t];
    var ws := ClientWindows(s.cli.heap);
    CheckKeepsRun(C.RESPONSE_WINDOW, ws, s.heard, Check(x.k, x.p, !C.IsDuplicate(s.cli, x.k, x.p.q)));
    assert ClientWindows(ResponseApply(s, t, CheckResponse).cli.heap) ==
           ws[x.k := Windows.Step(ws[x.k], x.p.q).window];
  }

  lemma SourceIsFresh(s: State, t: nat, step: SourceStep)
    requires SourceEnabled(s, t, step)
    ensures FreshWindows(C.RESPONSE_WINDOW, ClientWindows(s.cli.heap), ClientWindows(SourceApply(s, t, step).cli.heap))
  {
    if step.WriteTable? {
      var f := C.FindOrCreate(s.cli, s.clientTasks[t].addr, step.initial, step.now);
      assert f.created ==> f.state.heap[|s.cli.heap|].window == Windows.New(C.RESPONSE_WINDOW);
    }
  }

  lemma ResponseKeepsRun(s: State, t: nat, step: ResponseStep)
    requires WindowsRun(C.RESPONSE_WINDOW, ClientWindows(s.cli.heap), s.heard) && ResponseEnabled(s, t, step)
    ensures var s' := ResponseApply(s, t, step);
            WindowsRun(C.RESPONSE_WINDOW, ClientWindows(s'.cli.heap), s'.heard)
  {
    if step.CheckResponse? {
      CheckResponseKeepsRun(s, t);
    } else {
      var s' := ResponseApply(s, t, step);
      assert s'.cli == s.cli && s'.heard == s.heard;
    }
  }

  /** The same at the client, over UDP and TCP together. */
  lemma ClientKeepsRun(size: nat, s: State, step: Step)
    requires WindowsRun(C.RESPONSE_WINDOW, ClientWindows(s.cli.heap), s.heard) && Enabled(s, step)
    ensures var s' := Apply(size, s, step); WindowsRun(C.RESPONSE_WINDOW, ClientWindows(s'.cli.heap), s'.heard)
  {
    match step
    case OnSource(t, x) =>
      SourceFrame(s, t, x);
      SourceIsFresh(s, t, x);
      OthersKeepRun(C.RESPONSE_WINDOW, ClientWindows(s.cli.heap), ClientWindows(SourceApply(s, t, x).cli.heap),
                    s.heard);
    case OnResponse(t, x) => ResponseKeepsRun(s, t, x);
    case OnPacket(t, x) => PacketFrame(size, s, t, x);
    case OnAnswer(t, x) => AnswerFrame(s, t, x);
    case OnSweep(x) => assert ClientWindows(SweepApply(s, x).cli.heap) == ClientWindows(s.cli.heap);
  }

  lemma ClientHandsOf(tasks: map<nat, ClientTask>, t: nat, x: ClientTask)
    ensures var gone := if t in tasks && tasks[t].Passed? then {Item(tasks[t].k, tasks[t].p)} else {};
            && HandsOn(ClientHands(tasks), ClientHands(tasks[t := x]), gone)
            && HandsOn(ClientHands(tasks), ClientHands(tasks - {t}), gone)
  {
  }

  lemma SourceHandsOn(s: State, t: nat, step: SourceStep)
    requires SourceEnabled(s, t, step)
    ensures HandsOn(ClientHands(s.clientTasks), ClientHands(SourceApply(s, t, step).clientTasks), {})
  {
    var s' := SourceApply(s, t, step);
    ClientHandsOf(s.clientTasks, t, s'.clientTasks[t]);
    assert s'.clientTasks in {s.clientTasks, s.clientTasks[t := s'.clientTasks[t]]};
  }

  lemma ResponseHandsOn(s: State, t: nat, step: ResponseStep)
    requires ResponseEnabled(s, t, step)
    ensures var s' := ResponseApply(s, t, step);
            && Emissions(s.emitted) <= Emissions(s'.emitted) && Emissions(s.dropped) <= Emissions(s'.dropped)
            && HandsOn(ClientHands(s.clientTasks), ClientHands(s'.clientTasks),
                       Emissions(s'.emitted) + Emissions(s'.dropped))
  {
    var s' := ResponseApply(s, t, step);
    var x := if t in s'.clientTasks then s'.clientTasks[t] else Source(0, []);
    ClientHandsOf(s.clientTasks, t, x);
    assert s'.clientTasks in {s.clientTasks, s.clientTasks[t := x], s.clientTasks - {t}};
    if t in s.clientTasks && s.clientTasks[t].Passed? {
      var y := s.clientTasks[t];
      assert Emitted(y.k, y.addr, y.p) in s'.emitted + s'.dropped;
    }
  }

  lemma ResponseKeepsAll(s: State, t: nat, step: ResponseStep)
    requires AllKept(s.heard, ClientHands(s.clientTasks), Emissions(s.emitted), Emissions(s.dropped))
    requires ResponseEnabled(s, t, step)
    ensures var s' := ResponseApply(s, t, step);
            AllKept(s'.heard, ClientHands(s'.clientTasks), Emissions(s'.emitted), Emissions(s'.dropped))
  {
    var s' := ResponseApply(s, t, step);
    ResponseHandsOn(s, t, step);
    HandingOnKeeps(s.heard, ClientHands(s.clientTasks), ClientHands(s'.clientTasks),
                   Emissions(s.emitted), Emissions(s.dropped), Emissions(s'.emitted), Emissions(s'.dropped));
    if step.CheckResponse? {
      var x := s.clientTasks[t];
      if !C.IsDuplicate(s.cli, x.k, x.p.q) {
        var b := ClientHands(s'.clientTasks);
        assert t in b && b[t] == Item(x.k, x.p);
      }
    }
  }

  /** Conservation at the client: an admitted response is emitted, in hand, or given up. */
  lemma ClientKeepsAll(size: nat, s: State, step: Step)
    requires AllKept(s.heard, ClientHands(s.clientTasks), Emissions(s.emitted), Emissions(s.dropped))
    requires Enabled(s, step)
    ensures var s' := Apply(size, s, step);
            AllKept(s'.heard, ClientHands(s'.clientTasks), Emissions(s'.emitted), Emissions(s'.dropped))
  {
    match step
    case OnSource(t, x) =>
      SourceFrame(s, t, x);
      SourceHandsOn(s, t, x);
      HandingOnKeeps(s.heard, ClientHands(s.clientTasks), ClientHands(SourceApply(s, t, x).clientTasks),
                     Emissions(s.emitted), Emissions(s.dropped), Emissions(s.emitted), Emissions(s.dropped));
    case OnResponse(t, x) => ResponseKeepsAll(s, t, x);
    case OnPacket(t, x) => PacketFrame(size, s, t, x);
    case OnAnswer(t, x) => AnswerFrame(s, t, x);
    case OnSweep(x) =>
      var s' := SweepApply(s, x);
      assert s'.clientTasks == s.clientTasks && s'.heard == s.heard;
      assert s'.emitted == s.emitted && s'.dropped == s.dropped;
  }
}
