/** Concurrent senders on one TCP connection.  The writer mutex is held across the whole
    write of a frame, so frames never interleave, however the writes are cut. */
module FrameLock {
  import opened Bounded
  import opened Framing

  /** A frame on its way out: `written` of its bytes are in the stream. */
  datatype Holder = Holder(sender: nat, data: Bytes, written: nat)

  datatype Entry = Entry(sender: nat, data: Bytes)

  /** `queues[s]` is what sender `s` has still to send; `order` lists the frames in the order
      the lock was acquired for them. */
  datatype State = State(queues: seq<seq<Bytes>>, lock: Option<Holder>, sent: Bytes, order: seq<Entry>)

  datatype Step =
    | Acquire(sender: nat)
    | Write(count: nat)
    | Release

  predicate Enabled(s: State, step: Step) {
    match step
    case Acquire(k) => s.lock.None? && k < |s.queues| && s.queues[k] != []
    case Write(n) => s.lock.Some? && n <= |Frame(s.lock.value.data)| - s.lock.value.written
    case Release => s.lock.Some? && s.lock.value.written == |Frame(s.lock.value.data)|
  }

  function Apply(s: State, step: Step): State
    requires Enabled(s, step)
  {
    match step
    case Acquire(k) =>
      var data := s.queues[k][0];
      s.(queues := s.queues[k := s.queues[k][1..]],
         lock := Some(Holder(k, data, 0)),
         order := s.order + [Entry(k, data)])
    case Write(n) =>
      var h := s.lock.value;
      s.(lock := Some(h.(written := h.written + n)),
         sent := s.sent + Frame(h.data)[h.written..h.written + n])
    case Release => s.(lock := None)
  }

  function Init(queues: seq<seq<Bytes>>): State {
    State(queues, None, [], [])
  }

  /** The state after a run, if every step of it was possible. */
  function Run(queues: seq<seq<Bytes>>, steps: seq<Step>): Option<State> {
    if steps == [] then Some(Init(queues))
    else
      match Run(queues, steps[..|steps| - 1])
      case None => None
      case Some(s) =>
        var step := steps[|steps| - 1];
        if Enabled(s, step) then Some(Apply(s, step)) else None
  }

  function Datas(order: seq<Entry>): (r: seq<Bytes>)
    ensures |r| == |order| && forall i | 0 <= i < |r| :: r[i] == order[i].data
  {
    seq(|order|, i requires 0 <= i < |order| => order[i].data)
  }

  /** The frames of one sender, in lock order. */
  function Of(order: seq<Entry>, sender: nat): seq<Bytes> {
    if order == [] then []
    else
      var last := order[|order| - 1];
      Of(order[..|order| - 1], sender) + (if last.sender == sender then [last.data] else [])
  }

  ghost predicate Whole(s: State) {
    match s.lock
    case None => s.sent == Stream(Datas(s.order))
    case Some(h) =>
      && s.order != [] && s.order[|s.order| - 1] == Entry(h.sender, h.data)
      && h.written <= |Frame(h.data)|
      && s.sent == Stream(Datas(s.order[..|s.order| - 1])) + Frame(h.data)[..h.written]
  }

  ghost predicate Merged(s: State, queues: seq<seq<Bytes>>) {
    && |s.queues| == |queues|
    && (forall e <- s.order :: e.sender < |queues|)
    && forall k | 0 <= k < |queues| :: Of(s.order, k) + s.queues[k] == queues[k]
  }

  lemma StepKeepsWhole(s: State, step: Step)
    requires Whole(s) && Enabled(s, step)
    ensures Whole(Apply(s, step))
  {
    match step
    case Acquire(k) =>
      var data := s.queues[k][0];
      assert (s.order + [Entry(k, data)])[..|s.order|] == s.order;
      assert Frame(data)[..0] == [];
    case Write(n) =>
      var h := s.lock.value;
      var f := Frame(h.data);
      assert f[..h.written] + f[h.written..h.written + n] == f[..h.written + n];
    case Release =>
      var h := s.lock.value;
      var n := |s.order| - 1;
      assert Datas(s.order) == Datas(s.order[..n]) + [h.data];
      StreamAppend(Datas(s.order[..n]), h.data);
      assert Frame(h.data)[..h.written] == Frame(h.data);
  }

  lemma StepKeepsMerged(s: State, step: Step, queues: seq<seq<Bytes>>)
    requires Merged(s, queues) && Enabled(s, step)
    ensures Merged(Apply(s, step), queues)
  {
    if step.Acquire? {
      var k := step.sender;
      var t := Apply(s, step);
      assert t.order[..|t.order| - 1] == s.order;
      forall j | 0 <= j < |queues| ensures Of(t.order, j) + t.queues[j] == queues[j] {
        if j == k {
          assert s.queues[k] == [s.queues[k][0]] + s.queues[k][1..];
        }
      }
    }
  }

  /** In every run the byte stream is the whole frames in lock order, followed by the part
      already written of the frame whose sender holds the lock; and the lock order is a merge
      of what the senders sent, each in its own order. */
  lemma {:induction false} StreamIsWholeFrames(queues: seq<seq<Bytes>>, steps: seq<Step>)
    requires Run(queues, steps).Some?
    ensures Whole(Run(queues, steps).value)
    ensures Merged(Run(queues, steps).value, queues)
  {
    if steps == [] {
      assert Datas([]) == [];
      forall k | 0 <= k < |queues| ensures Of([], k) + queues[k] == queues[k] { }
    } else {
      StreamIsWholeFrames(queues, steps[..|steps| - 1]);
      var s := Run(queues, steps[..|steps| - 1]).value;
      StepKeepsWhole(s, steps[|steps| - 1]);
      StepKeepsMerged(s, steps[|steps| - 1], queues);
    }
  }

  lemma {:induction false} OrderIsFromQueues(order: seq<Entry>, e: Entry)
    requires e in order
    ensures e.data in Of(order, e.sender)
  {
    if e in order[..|order| - 1] {
      OrderIsFromQueues(order[..|order| - 1], e);
    }
  }

  lemma FramesOfWhole(s: State)
    requires Whole(s)
    requires forall p <- Datas(s.order) :: Sendable(p)
    ensures var all := Datas(s.order);
            && Frames(s.sent) <= all
            && |all| - 1 <= |Frames(s.sent)|
            && (s.lock.None? ==> Frames(s.sent) == all)
  {
    var all := Datas(s.order);
    match s.lock
    case None =>
      FramesOfStream(all, []);
      assert s.sent + [] == s.sent;
    case Some(h) =>
      var n := |all| - 1;
      var f := Frame(h.data);
      assert all[..n] == Datas(s.order[..n]) && all[n] == h.data;
      FramesOfStream(all[..n], f[..h.written]);
      if h.written < |f| {
        PartialFrame(h.data, h.written);
      } else {
        assert f[..h.written] == f;
        FramingIsFaithfulExactlyWhen(h.data);
      }
  }

  /** The reader recovers the merge: at every moment of every run it has been given every frame
      but possibly the last one acquired, in lock order. */
  lemma {:induction false} ReaderRecoversMerge(queues: seq<seq<Bytes>>, steps: seq<Step>)
    requires Run(queues, steps).Some?
    requires forall k, i | 0 <= k < |queues| && 0 <= i < |queues[k]| :: Sendable(queues[k][i])
    ensures var s := Run(queues, steps).value;
            var all := Datas(s.order);
            && Frames(s.sent) <= all
            && |all| - 1 <= |Frames(s.sent)|
            && (s.lock.None? ==> Frames(s.sent) == all)
  {
    var s := Run(queues, steps).value;
    StreamIsWholeFrames(queues, steps);
    forall p | p in Datas(s.order) ensures Sendable(p) {
      var i :| 0 <= i < |s.order| && Datas(s.order)[i] == p;
      SentIsQueued(queues, s, i);
    }
    FramesOfWhole(s);
  }

  lemma SentIsQueued(queues: seq<seq<Bytes>>, s: State, i: nat)
    requires Merged(s, queues) && i < |s.order|
    requires forall k, i | 0 <= k < |queues| && 0 <= i < |queues[k]| :: Sendable(queues[k][i])
    ensures Sendable(s.order[i].data)
  {
    var e := s.order[i];
    OrderIsFromQueues(s.order, e);
    assert e.data in Of(s.order, e.sender) + s.queues[e.sender];
  }
}
