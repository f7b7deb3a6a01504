/** How the server numbers the datagrams of the target, in runs where handlers run whole. */
module ServerAnswers {
  import opened Bounded
  import opened Codec
  import opened Framing
  import opened Counting
  import SS = ServerState
  import opened ServerState
  import opened ServerRuns

  function Itself(k: nat): nat {
    k
  }

  /** How many datagrams incarnation `k` has numbered. */
  function NumberedBy(answers: seq<nat>, k: nat): nat {
    Count(answers, Itself, k)
  }

  ghost predicate CountsOk(heap: seq<TargetSession>, answers: seq<nat>) {
    && (forall k: nat | k < |heap| :: heap[k].responseSeq == NumberedBy(answers, k) % TWO_32)
    && (forall k: nat | k >= |heap| :: NumberedBy(answers, k) == 0)
  }

  /** Numbers stay, and new incarnations start at 0. */
  ghost predicate SameNumbers(a: seq<TargetSession>, b: seq<TargetSession>) {
    && |a| <= |b|
    && (forall k | 0 <= k < |a| :: b[k].responseSeq == a[k].responseSeq)
    && (forall k | |a| <= k < |b| :: b[k].responseSeq == 0)
  }

  lemma PacketNumbersNothing(s: SS.State, id: U64, q: U32, via: Path, connected: bool, size: nat, now: int)
    requires WellFormed(s)
    ensures SameNumbers(s.heap, OnPacket(s, id, q, via, connected, size, now).state.heap)
  {
  }

  lemma TargetKeepsCounts(r: Run, cfg: Config, id: U64, payload: Bytes)
    requires WellFormed(r.srv) && CountsOk(r.srv.heap, r.answers)
    ensures var r' := Apply(cfg, r, Target(id, payload)); CountsOk(r'.srv.heap, r'.answers)
  {
    AnswersStamp(r.srv, id, payload, r.now);
    if id in r.srv.sessions {
      DrawCounts(r.srv.heap, OnTarget(r.srv, id, payload, r.now).state.heap, r.answers, r.srv.sessions[id]);
    }
  }

  lemma DrawCounts(heap: seq<TargetSession>, heap': seq<TargetSession>, answers: seq<nat>, j: nat)
    requires CountsOk(heap, answers) && j < |heap| == |heap'|
    requires forall k | 0 <= k < |heap| && k != j :: heap'[k].responseSeq == heap[k].responseSeq
    requires heap'[j].responseSeq == WrappingAdd(heap[j].responseSeq, 1)
    ensures CountsOk(heap', answers + [j])
  {
    forall k: nat
      ensures NumberedBy(answers + [j], k) == NumberedBy(answers, k) + (if j == k then 1 else 0)
    {
      CountStep(answers, j, Itself, k);
    }
  }

  lemma StepKeepsCounts(cfg: Config, r: Run, step: Step)
    requires WellFormed(r.srv) && Enabled(r, step) && CountsOk(r.srv.heap, r.answers)
    ensures var r' := Apply(cfg, r, step); CountsOk(r'.srv.heap, r'.answers)
  {
    match step
    case Packet(id, q, via, connected) =>
      PacketNumbersNothing(r.srv, id, q, via, connected, cfg.window, r.now);
    case Target(id, payload) => TargetKeepsCounts(r, cfg, id, payload);
    case _ =>
  }

  lemma {:induction false} RunsCount(cfg: Config, steps: seq<Step>)
    requires After(cfg, steps).Some?
    ensures CountsOk(After(cfg, steps).value.srv.heap, After(cfg, steps).value.answers)
  {
    if steps != [] {
      var n := |steps| - 1;
      RunsCount(cfg, steps[..n]);
      StepKeepsCounts(cfg, After(cfg, steps[..n]).value, steps[n]);
    }
  }

  /** In every run, when a datagram of the target comes for a live session, every listed path gets
      one copy of it, numbered with how many datagrams this incarnation numbered before: on a
      listener it decodes to id, number and payload, on a connection the reader gets the packet
      that does. */
  lemma {:induction false} AnswersAreNumbered(cfg: Config, steps: seq<Step>, id: U64, payload: Bytes, i: nat)
    requires ValidConfig(cfg) && After(cfg, steps).Some? && |payload| <= MAX_PAYLOAD
    requires var srv := After(cfg, steps).value.srv; id in srv.sessions && i < |PathsOf(srv, id)|
    ensures var r := After(cfg, steps).value;
            && WellFormed(r.srv)
            && var sends := OnTarget(r.srv, id, payload, r.now).sends;
               var q := NumberedBy(r.answers, r.srv.sessions[id]) % TWO_32;
               && |sends| == |PathsOf(r.srv, id)| && sends[i].path == PathsOf(r.srv, id)[i]
               && Received(sends[i]) == Decoded.Packet(id, q, payload)
  {
    RunsHold(cfg, steps);
    RunsCount(cfg, steps);
    AnswersCarry(After(cfg, steps).value.srv, id, payload, After(cfg, steps).value.now, i);
  }

  /** What the receiver of one copy makes of it. */
  function Received(s: Send): Decoded {
    match s.path
    case Udp(_, _) => Decode(s.bytes)
    case Tcp(_) =>
      match NextFrame(s.bytes)
      case Got(data, rest) => if rest == [] then Decode(data) else PacketTooShort
      case _ => PacketTooShort
  }
}
