/** Exactly-once delivery of one client session to one server session while the network stays
    within the window. */
module Delivery {
  import opened Bounded
  import opened Windows
  import opened ClientState

  /** The sequence number of the k-th packet: `seq.fetch_add(1)` from the initial value. */
  function SeqOf(initial: U32, k: nat): U32 {
    (initial + k) % TWO_32
  }

  /** The first 2^31 packets of a session never wrap. */
  lemma SeqDoesNotWrap(initial: U32, k: nat)
    requires initial < INITIAL_SEQ_BOUND && k < TWO_31
    ensures SeqOf(initial, k) == initial + k
  {
  }

  /** What the window sees when packets arrive in the order of `arrivals` (packet indices,
      with repetitions). */
  function Calls(initial: U32, arrivals: seq<nat>): seq<U32> {
    seq(|arrivals|, i requires 0 <= i < |arrivals| => SeqOf(initial, arrivals[i]))
  }

  predicate FirstCopy(arrivals: seq<nat>, i: nat)
    requires i < |arrivals|
  {
    arrivals[i] !in arrivals[..i]
  }

  /** The lowest packet comes first, and the first copy of a packet comes while everything
      that overtook it is less than `size` ahead. */
  ghost predicate WithinDisorder(size: nat, arrivals: seq<nat>) {
    && (forall i | 0 <= i < |arrivals| :: arrivals[0] <= arrivals[i])
    && (forall i, j | 0 <= j < i < |arrivals| && FirstCopy(arrivals, i) ::
          arrivals[j] < arrivals[i] + size)
  }

  lemma MaxIsAccepted(size: nat, calls: seq<U32>) returns (j: nat)
    requires size >= 1 && calls != []
    ensures j < |calls| && calls[j] == Run(size, calls).max
  {
    RunRefinesHistory(size, calls);
    j := AcceptedIsSound(size, calls, Run(size, calls).max);
  }

  /** A number not seen before, not below the first and less than `size` behind every
      earlier one, is accepted. */
  lemma NewNumberIsAccepted(size: nat, calls: seq<U32>, i: nat)
    requires size >= 1 && i < |calls|
    requires calls[i] !in calls[..i] && calls[0] <= calls[i]
    requires forall j | 0 <= j < i :: calls[j] < calls[i] + size
    ensures !Duplicate(size, calls, i)
  {
    if i > 0 {
      var before := calls[..i];
      if calls[i] in Accepted(size, before) {
        var j := AcceptedIsSound(size, before, calls[i]);
        assert false;
      }
      var m := MaxIsAccepted(size, before);
      assert calls[m] == before[m];
      NoFalseDrop(size, calls, i);
    }
  }

  /** Every arrival is accepted exactly when it is the first copy of its packet. */
  lemma {:induction false} AcceptsFirstCopies(size: nat, initial: U32, arrivals: seq<nat>, i: nat)
    requires size >= 1 && initial < INITIAL_SEQ_BOUND
    requires forall k <- arrivals :: k < TWO_31
    requires WithinDisorder(size, arrivals)
    requires i < |arrivals|
    ensures Duplicate(size, Calls(initial, arrivals), i) <==> !FirstCopy(arrivals, i)
    decreases i
  {
    var calls := Calls(initial, arrivals);
    forall j | 0 <= j < |arrivals| ensures calls[j] == initial + arrivals[j] {
      assert arrivals[j] in arrivals;
      SeqDoesNotWrap(initial, arrivals[j]);
    }
    if FirstCopy(arrivals, i) {
      forall j | 0 <= j < i ensures calls[j] != calls[i] && calls[j] < calls[i] + size {
        assert arrivals[j] in arrivals[..i];
      }
      NewNumberIsAccepted(size, calls, i);
    } else {
      var j := FirstIndex(arrivals, arrivals[i]);
      assert j < i by {
        var m :| 0 <= m < i && arrivals[m] == arrivals[i];
        assert j <= m;
      }
      AcceptsFirstCopies(size, initial, arrivals, j);
      AtMostOnce(size, calls, j, i);
    }
  }

  lemma FirstIndex(arrivals: seq<nat>, k: nat) returns (j: nat)
    requires k in arrivals
    ensures j < |arrivals| && arrivals[j] == k && FirstCopy(arrivals, j)
    ensures forall i | 0 <= i < |arrivals| && arrivals[i] == k :: j <= i
  {
    j := 0;
    while arrivals[j] != k
      invariant j < |arrivals| && k !in arrivals[..j]
      decreases |arrivals| - j
    {
      j := j + 1;
    }
  }

  /** Exactly once: of all the copies of a packet that arrive, one is accepted and the others
      are not, however they are interleaved. */
  lemma ExactlyOnce(size: nat, initial: U32, arrivals: seq<nat>, k: nat) returns (j: nat)
    requires size >= 1 && initial < INITIAL_SEQ_BOUND
    requires forall n <- arrivals :: n < TWO_31
    requires WithinDisorder(size, arrivals)
    requires k in arrivals
    ensures j < |arrivals| && arrivals[j] == k
    ensures forall i: nat | i < |arrivals| && arrivals[i] == k ::
              Duplicate(size, Calls(initial, arrivals), i) <==> i != j
  {
    j := FirstIndex(arrivals, k);
    forall i: nat | i < |arrivals| && arrivals[i] == k
      ensures Duplicate(size, Calls(initial, arrivals), i) <==> i != j
    {
      AcceptsFirstCopies(size, initial, arrivals, i);
    }
  }
}
