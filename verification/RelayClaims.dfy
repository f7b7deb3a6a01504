/** At most once: what a window admits is passed on once, in every interleaving, on both
    sides of the relay. */
module RelayClaims {
  import opened Bounded
  import opened Windows
  import C = ClientState
  import S = ServerState
  import opened Relay
  import opened RelayOrigins

  /** The right to pass on number `q` in session object `k`. */
  datatype Claim = Claim(k: nat, q: U32)

  ghost predicate Known(ws: seq<Window>, c: Claim) {
    c.k < |ws| && Rejects(ws[c.k], c.q)
  }

  /** Every claim, held by a task or used, is rejected by its window from then on; and no claim
      exists twice: not at two tasks, not at a task after its use, not twice used. */
  ghost predicate Claims(ws: seq<Window>, pending: map<nat, Claim>, used: seq<Claim>) {
    && (forall t, u | t in pending && u in pending && t != u :: pending[t] != pending[u])
    && (forall t <- pending :: pending[t] !in used && Known(ws, pending[t]))
    && (forall i, j | 0 <= i < j < |used| :: used[i] != used[j])
    && (forall c <- used :: Known(ws, c))
  }

  /** Windows only learn, and new ones may appear. */
  ghost predicate Learns(ws: seq<Window>, vs: seq<Window>) {
    && |ws| <= |vs|
    && forall k, q: U32 | 0 <= k < |ws| && Rejects(ws[k], q) :: Rejects(vs[k], q)
  }

  lemma CheckLearns(ws: seq<Window>, k: nat, q: U32)
    requires k < |ws| && Sound(ws[k])
    ensures Learns(ws, ws[k := Windows.Step(ws[k], q).window])
  {
    forall e: U32 | Rejects(ws[k], e) ensures Rejects(Windows.Step(ws[k], q).window, e) {
      StepRejects(ws[k], q, e);
    }
  }

  /** The check of one task: a claim is created only for a number no claim exists for. */
  lemma CheckKeeps(ws: seq<Window>, pending: map<nat, Claim>, used: seq<Claim>, t: nat, k: nat, q: U32)
    requires Claims(ws, pending, used) && k < |ws| && Sound(ws[k]) && t !in pending
    ensures var o := Windows.Step(ws[k], q);
            Claims(ws[k := o.window], if o.duplicate then pending else pending[t := Claim(k, q)], used)
  {
    CheckLearns(ws, k, q);
    StepRejects(ws[k], q, q);
  }

  lemma UseKeeps(ws: seq<Window>, pending: map<nat, Claim>, used: seq<Claim>, t: nat)
    requires Claims(ws, pending, used) && t in pending
    ensures Claims(ws, pending - {t}, used + [pending[t]])
  {
  }

  lemma OthersKeep(ws: seq<Window>, vs: seq<Window>, pending: map<nat, Claim>, left: map<nat, Claim>, used: seq<Claim>)
    requires Claims(ws, pending, used) && Learns(ws, vs)
    requires forall t <- left :: t in pending && left[t] == pending[t]
    ensures Claims(vs, left, used)
  {
  }

  // --------------------------------------------------- requests, at the server

  function ServerWindows(heap: seq<S.TargetSession>): (ws: seq<Window>)
    ensures |ws| == |heap| && forall k | 0 <= k < |heap| :: ws[k] == heap[k].window
  {
    seq(|heap|, k requires 0 <= k < |heap| => heap[k].window)
  }

  function RequestClaims(tasks: map<nat, ServerTask>): (cs: map<nat, Claim>) {
    map t: nat | t in tasks && Admitted(tasks[t]) :: Claim(tasks[t].k, tasks[t].p.q)
  }

  function ForwardClaims(forwarded: seq<Forwarded>): (cs: seq<Claim>)
    ensures |cs| == |forwarded|
    ensures forall i | 0 <= i < |cs| :: cs[i] == Claim(forwarded[i].k, forwarded[i].p.q)
  {
    seq(|forwarded|, i requires 0 <= i < |forwarded| => Claim(forwarded[i].k, forwarded[i].p.q))
  }

  ghost predicate RequestsOk(heap: seq<S.TargetSession>, tasks: map<nat, ServerTask>, forwarded: seq<Forwarded>) {
    Claims(ServerWindows(heap), RequestClaims(tasks), ForwardClaims(forwarded))
  }

  /** What a change of one task does to the claims. */
  lemma RequestClaimsOf(tasks: map<nat, ServerTask>, t: nat, x: ServerTask)
    ensures RequestClaims(tasks[t := x]) ==
            if Admitted(x) then RequestClaims(tasks)[t := Claim(x.k, x.p.q)] else RequestClaims(tasks) - {t}
    ensures RequestClaims(tasks - {t}) == RequestClaims(tasks) - {t}
  {
  }

  lemma CheckedTask(heap: seq<S.TargetSession>, tasks: map<nat, ServerTask>, forwarded: seq<Forwarded>, t: nat)
    requires RequestsOk(heap, tasks, forwarded) && t in tasks && tasks[t].Held?
    requires tasks[t].k < |heap| && Sound(heap[tasks[t].k].window)
    ensures var x := tasks[t];
            var o := Windows.Step(heap[x.k].window, x.p.q);
            RequestsOk(heap[x.k := heap[x.k].(window := o.window)],
                       if o.duplicate then tasks - {t} else tasks[t := Accepted(x.p, x.via, x.k)], forwarded)
  {
    var x := tasks[t];
    var ws := ServerWindows(heap);
    var o := Windows.Step(ws[x.k], x.p.q);
    var pending: map<nat, Claim> := RequestClaims(tasks);
    CheckKeeps(ws, pending, ForwardClaims(forwarded), t, x.k, x.p.q);
    assert ServerWindows(heap[x.k := heap[x.k].(window := o.window)]) == ws[x.k := o.window];
    RequestClaimsOf(tasks, t, Accepted(x.p, x.via, x.k));
    assert pending - {t} == pending;
  }

  lemma CheckPacketClaims(s: State, t: nat)
    requires ServerShape(s) && RequestsOk(s.srv.heap, s.serverTasks, s.forwarded)
    requires PacketEnabled(s, t, CheckPacket)
    ensures var s' := PacketApply(1, s, t, CheckPacket);
            RequestsOk(s'.srv.heap, s'.serverTasks, s'.forwarded)
  {
    CheckedTask(s.srv.heap, s.serverTasks, s.forwarded, t);
  }

  lemma ForwardPacketClaims(s: State, t: nat)
    requires RequestsOk(s.srv.heap, s.serverTasks, s.forwarded) && PacketEnabled(s, t, ForwardPacket)
    ensures var s' := PacketApply(1, s, t, ForwardPacket);
            RequestsOk(s'.srv.heap, s'.serverTasks, s'.forwarded)
  {
    var s' := PacketApply(1, s, t, ForwardPacket);
    var pending: map<nat, Claim> := RequestClaims(s.serverTasks);
    UseKeeps(ServerWindows(s.srv.heap), pending, ForwardClaims(s.forwarded), t);
    RequestClaimsOf(s.serverTasks, t, s.serverTasks[t]);
    assert ForwardClaims(s'.forwarded) == ForwardClaims(s.forwarded) + [pending[t]];
  }

  ghost predicate SameWindows(a: seq<S.TargetSession>, b: seq<S.TargetSession>) {
    |a| <= |b| && forall k | 0 <= k < |a| :: b[k].window == a[k].window
  }

  ghost predicate NoNewClaims(a: map<nat, ServerTask>, b: map<nat, ServerTask>) {
    forall t <- b | Admitted(b[t]) :: t in a && Admitted(a[t]) && a[t].k == b[t].k && a[t].p == b[t].p
  }

  /** A step that admits and forwards nothing. */
  lemma OtherRequestSteps(s: State, s': State)
    requires RequestsOk(s.srv.heap, s.serverTasks, s.forwarded) && s'.forwarded == s.forwarded
    requires SameWindows(s.srv.heap, s'.srv.heap)
    requires NoNewClaims(s.serverTasks, s'.serverTasks)
    ensures RequestsOk(s'.srv.heap, s'.serverTasks, s'.forwarded)
  {
    OthersKeep(ServerWindows(s.srv.heap), ServerWindows(s'.srv.heap),
               RequestClaims(s.serverTasks), RequestClaims(s'.serverTasks), ForwardClaims(s.forwarded));
  }

  /** A task that changes admits nothing by that, unless it held the same packet admitted. */
  lemma TaskMoves(tasks: map<nat, ServerTask>, t: nat, x: ServerTask)
    requires Admitted(x) ==> t in tasks && Admitted(tasks[t]) && tasks[t].k == x.k && tasks[t].p == x.p
    ensures NoNewClaims(tasks, tasks[t := x]) && NoNewClaims(tasks, tasks - {t})
  {
  }

  lemma OtherPacketSteps(window: nat, s: State, t: nat, step: PacketStep)
    requires PacketEnabled(s, t, step) && !step.CheckPacket? && !step.ForwardPacket?
    ensures var s' := PacketApply(window, s, t, step);
            && s'.forwarded == s.forwarded && SameWindows(s.srv.heap, s'.srv.heap)
            && NoNewClaims(s.serverTasks, s'.serverTasks)
  {
    var s' := PacketApply(window, s, t, step);
    if t in s'.serverTasks {
      TaskMoves(s.serverTasks, t, s'.serverTasks[t]);
      assert s'.serverTasks in {s.serverTasks, s.serverTasks[t := s'.serverTasks[t]]};
    } else {
      TaskMoves(s.serverTasks, t, Unlinking(0, 0));
      assert s'.serverTasks in {s.serverTasks, s.serverTasks - {t}};
    }
  }

  lemma AnswerTasks(s: State, t: nat, step: AnswerStep)
    requires AnswerEnabled(s, t, step)
    ensures var s' := AnswerApply(s, t, step);
            if t in s'.serverTasks then
              && s'.serverTasks in {s.serverTasks, s.serverTasks[t := s'.serverTasks[t]]}
              && (Admitted(s'.serverTasks[t]) ==> s'.serverTasks == s.serverTasks)
            else
              s'.serverTasks in {s.serverTasks, s.serverTasks - {t}}
  {
    match step
    case TargetDatagram(_, _) =>
    case DrawNumber =>
    case Snapshot =>
    case SendCopy(_) =>
    case CloseConn(_) =>
    case UnlinkConn =>
    case ServerDrops =>
  }

  lemma AnswerSteps(s: State, t: nat, step: AnswerStep)
    requires AnswerEnabled(s, t, step)
    ensures var s' := AnswerApply(s, t, step);
            && s'.forwarded == s.forwarded && SameWindows(s.srv.heap, s'.srv.heap)
            && NoNewClaims(s.serverTasks, s'.serverTasks)
  {
    var s' := AnswerApply(s, t, step);
    AnswerFrame(s, t, step);
    AnswerTasks(s, t, step);
    TaskMoves(s.serverTasks, t, TaskAt(s'.serverTasks, t));
  }

  lemma PacketKeepsRequests(window: nat, s: State, t: nat, step: PacketStep)
    requires ServerShape(s) && RequestsOk(s.srv.heap, s.serverTasks, s.forwarded) && PacketEnabled(s, t, step)
    ensures var s' := PacketApply(window, s, t, step);
            RequestsOk(s'.srv.heap, s'.serverTasks, s'.forwarded)
  {
    match step
    case CheckPacket => CheckPacketClaims(s, t);
    case ForwardPacket => ForwardPacketClaims(s, t);
    case _ =>
      OtherPacketSteps(window, s, t, step);
      OtherRequestSteps(s, PacketApply(window, s, t, step));
  }

  lemma AnswerKeepsRequests(s: State, t: nat, step: AnswerStep)
    requires RequestsOk(s.srv.heap, s.serverTasks, s.forwarded) && AnswerEnabled(s, t, step)
    ensures var s' := AnswerApply(s, t, step);
            RequestsOk(s'.srv.heap, s'.serverTasks, s'.forwarded)
  {
    AnswerSteps(s, t, step);
    OtherRequestSteps(s, AnswerApply(s, t, step));
  }

  lemma SweepKeepsClaims(s: State, step: SweepStep)
    requires SweepEnabled(s, step)
    ensures var s' := SweepApply(s, step);
            && (RequestsOk(s.srv.heap, s.serverTasks, s.forwarded) ==>
                  RequestsOk(s'.srv.heap, s'.serverTasks, s'.forwarded))
            && (ResponsesOk(s.cli.heap, s.clientTasks, s.emitted) ==>
                  ResponsesOk(s'.cli.heap, s'.clientTasks, s'.emitted))
  {
    var s' := SweepApply(s, step);
    if RequestsOk(s.srv.heap, s.serverTasks, s.forwarded) { OtherRequestSteps(s, s'); }
    if ResponsesOk(s.cli.heap, s.clientTasks, s.emitted) { OtherResponseSteps(s, s'); }
  }

  lemma SourceKeepsResponses(s: State, t: nat, step: SourceStep)
    requires ResponsesOk(s.cli.heap, s.clientTasks, s.emitted) && SourceEnabled(s, t, step)
    ensures var s' := SourceApply(s, t, step);
            ResponsesOk(s'.cli.heap, s'.clientTasks, s'.emitted)
  {
    SourceFrame(s, t, step);
    SourcePassesNothing(s, t, step);
    OtherResponseSteps(s, SourceApply(s, t, step));
  }

  lemma SourcePassesNothing(s: State, t: nat, step: SourceStep)
    requires SourceEnabled(s, t, step)
    ensures var s' := SourceApply(s, t, step);
            && |s.cli.heap| <= |s'.cli.heap|
            && (forall k | 0 <= k < |s.cli.heap| :: s'.cli.heap[k].window == s.cli.heap[k].window)
            && (forall u <- s'.clientTasks | s'.clientTasks[u].Passed? ::
                  u in s.clientTasks && s.clientTasks[u] == s'.clientTasks[u])
  {
    match step
    case SourcePacket(_, _) =>
    case ReadTable =>
    case WriteTable(_, _) =>
    case WriteIndex =>
    case TakeNumber =>
    case SendUdp =>
    case FindConn(_) =>
    case Dial(_) =>
    case SendTcp(_) =>
  }

  lemma StepKeepsRequests(window: nat, s: State, step: Step)
    requires ServerShape(s) && RequestsOk(s.srv.heap, s.serverTasks, s.forwarded) && Enabled(s, step)
    ensures var s' := Apply(window, s, step);
            RequestsOk(s'.srv.heap, s'.serverTasks, s'.forwarded)
  {
    match step
    case OnSource(t, x) => SourceFrame(s, t, x);
    case OnResponse(t, x) => ResponseFrame(s, t, x);
    case OnPacket(t, x) => PacketKeepsRequests(window, s, t, x);
    case OnAnswer(t, x) => AnswerKeepsRequests(s, t, x);
    case OnSweep(x) => SweepKeepsClaims(s, x);
  }

  // --------------------------------------------------- responses, at the client

  function ClientWindows(heap: seq<C.Session>): (ws: seq<Window>)
    ensures |ws| == |heap| && forall k | 0 <= k < |heap| :: ws[k] == heap[k].window
  {
    seq(|heap|, k requires 0 <= k < |heap| => heap[k].window)
  }

  function ResponseClaims(tasks: map<nat, ClientTask>): (cs: map<nat, Claim>) {
    map t: nat | t in tasks && tasks[t].Passed? :: Claim(tasks[t].k, tasks[t].p.q)
  }

  function EmitClaims(emitted: seq<Emitted>): (cs: seq<Claim>)
    ensures |cs| == |emitted|
    ensures forall i | 0 <= i < |cs| :: cs[i] == Claim(emitted[i].k, emitted[i].p.q)
  {
    seq(|emitted|, i requires 0 <= i < |emitted| => Claim(emitted[i].k, emitted[i].p.q))
  }

  ghost predicate ResponsesOk(heap: seq<C.Session>, tasks: map<nat, ClientTask>, emitted: seq<Emitted>) {
    Claims(ClientWindows(heap), ResponseClaims(tasks), EmitClaims(emitted))
  }

  lemma ResponseClaimsOf(tasks: map<nat, ClientTask>, t: nat, x: ClientTask)
    ensures ResponseClaims(tasks[t := x]) ==
            if x.Passed? then ResponseClaims(tasks)[t := Claim(x.k, x.p.q)] else ResponseClaims(tasks) - {t}
    ensures ResponseClaims(tasks - {t}) == ResponseClaims(tasks) - {t}
  {
  }

  lemma PassedTask(heap: seq<C.Session>, tasks: map<nat, ClientTask>, emitted: seq<Emitted>, t: nat)
    requires ResponsesOk(heap, tasks, emitted) && t in tasks && tasks[t].Ready?
    requires tasks[t].k < |heap| && Sound(heap[tasks[t].k].window)
    ensures var x := tasks[t];
            var o := Windows.Step(heap[x.k].window, x.p.q);
            ResponsesOk(heap[x.k := heap[x.k].(window := o.window)],
                        if o.duplicate then tasks - {t} else tasks[t := Passed(x.addr, x.p, x.k)], emitted)
  {
    var x := tasks[t];
    var ws := ClientWindows(heap);
    var o := Windows.Step(ws[x.k], x.p.q);
    var pending: map<nat, Claim> := ResponseClaims(tasks);
    CheckKeeps(ws, pending, EmitClaims(emitted), t, x.k, x.p.q);
    assert ClientWindows(heap[x.k := heap[x.k].(window := o.window)]) == ws[x.k := o.window];
    ResponseClaimsOf(tasks, t, Passed(x.addr, x.p, x.k));
    assert pending - {t} == pending;
  }

  lemma CheckResponseClaims(s: State, t: nat)
    requires ClientShape(s) && ResponsesOk(s.cli.heap, s.clientTasks, s.emitted)
    requires ResponseEnabled(s, t, CheckResponse)
    ensures var s' := ResponseApply(s, t, CheckResponse);
            ResponsesOk(s'.cli.heap, s'.clientTasks, s'.emitted)
  {
    PassedTask(s.cli.heap, s.clientTasks, s.emitted, t);
  }

  lemma EmitClaimsMove(s: State, t: nat)
    requires ResponsesOk(s.cli.heap, s.clientTasks, s.emitted) && ResponseEnabled(s, t, Emit)
    ensures var s' := ResponseApply(s, t, Emit);
            ResponsesOk(s'.cli.heap, s'.clientTasks, s'.emitted)
  {
    var s' := ResponseApply(s, t, Emit);
    var pending: map<nat, Claim> := ResponseClaims(s.clientTasks);
    UseKeeps(ClientWindows(s.cli.heap), pending, EmitClaims(s.emitted), t);
    ResponseClaimsOf(s.clientTasks, t, s.clientTasks[t]);
    assert EmitClaims(s'.emitted) == EmitClaims(s.emitted) + [pending[t]];
  }

  /** A step that passes and emits nothing. */
  lemma OtherResponseSteps(s: State, s': State)
    requires ResponsesOk(s.cli.heap, s.clientTasks, s.emitted) && s'.emitted == s.emitted
    requires |s.cli.heap| <= |s'.cli.heap|
    requires forall k | 0 <= k < |s.cli.heap| :: s'.cli.heap[k].window == s.cli.heap[k].window
    requires forall t <- s'.clientTasks | s'.clientTasks[t].Passed? ::
               t in s.clientTasks && s.clientTasks[t] == s'.clientTasks[t]
    ensures ResponsesOk(s'.cli.heap, s'.clientTasks, s'.emitted)
  {
    OthersKeep(ClientWindows(s.cli.heap), ClientWindows(s'.cli.heap),
               ResponseClaims(s.clientTasks), ResponseClaims(s'.clientTasks), EmitClaims(s.emitted));
  }

  lemma ResponseKeepsResponses(s: State, t: nat, step: ResponseStep)
    requires ClientShape(s) && ResponsesOk(s.cli.heap, s.clientTasks, s.emitted) && ResponseEnabled(s, t, step)
    ensures var s' := ResponseApply(s, t, step);
            ResponsesOk(s'.cli.heap, s'.clientTasks, s'.emitted)
  {
    match step
    case CheckResponse => CheckResponseClaims(s, t);
    case Emit => EmitClaimsMove(s, t);
    case _ => OtherResponseSteps(s, ResponseApply(s, t, step));
  }

  lemma StepKeepsResponses(window: nat, s: State, step: Step)
    requires ClientShape(s) && ResponsesOk(s.cli.heap, s.clientTasks, s.emitted) && Enabled(s, step)
    ensures var s' := Apply(window, s, step);
            ResponsesOk(s'.cli.heap, s'.clientTasks, s'.emitted)
  {
    match step
    case OnSource(t, x) => SourceKeepsResponses(s, t, x);
    case OnResponse(t, x) => ResponseKeepsResponses(s, t, x);
    case OnPacket(t, x) => PacketFrame(window, s, t, x);
    case OnAnswer(t, x) => AnswerFrame(s, t, x);
    case OnSweep(x) => SweepKeepsClaims(s, x);
  }
}
