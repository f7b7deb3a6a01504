/** The two implementations of the window, updating their fields in place.  Both carry the
    history of accepted numbers as ghost state and are proved against `Windows`. */
module DedupWindows {
  import opened Bounded
  import opened Windows

  lemma StepSummary(w: Window, q: U32, h: set<U32>, first: U32)
    requires Sound(w)
    requires if w.started then Refines(w, h, first) else h == {}
    ensures var v := Step(w, q).window;
            && (w.started ==> (v.min != w.min <==> !Step(w, q).duplicate && q > w.max && |w.seen| >= w.size))
            && Sound(v) && v.started
            && Refines(v, if Step(w, q).duplicate then h else h + {q}, if w.started then first else q)
            && (Step(w, q).duplicate <==> w.started && (q in h || q < w.min))
            && (w.started ==> v.min >= w.min)
            && (w.started && v.max > w.max ==> |v.seen| <= v.size)
  {
    StepKeepsSound(w, q);
    StepRejects(w, q, q);
    StepSizeBound(w, q);
    if w.started {
      StepMovesMinExactlyWhen(w, q);
      StepRefines(w, q, h, first);
    }
  }

  /** fproxy-rs: `DedupWindow`, and `ResponseDedupWindow` on the client. */
  class RustDedupWindow {
    var seen: set<U32>
    var minSeq: U32
    var maxSeq: U32
    var size: nat
    var started: bool
    ghost var accepted: set<U32>
    ghost var first: U32

    ghost function Value(): Window
      reads this
    {
      Window(seen, minSeq, maxSeq, size, started)
    }

    ghost predicate Valid()
      reads this
    {
      && Sound(Value())
      && (started ==> Refines(Value(), accepted, first))
      && (!started ==> accepted == {})
    }

    constructor (size: nat)
      requires size >= 1
      ensures Valid() && Value() == New(size) && accepted == {}
    {
      this.seen, this.minSeq, this.maxSeq, this.size, this.started := {}, 0, 0, size, false;
      this.accepted, this.first := {}, 0;
    }

    method IsDuplicate(q: U32) returns (duplicate: bool)
      requires Valid()
      modifies this
      ensures Valid()
      ensures Value() == Step(old(Value()), q).window && duplicate == Step(old(Value()), q).duplicate
      ensures duplicate <==> old(started) && (q in old(accepted) || q < old(minSeq))
      ensures accepted == old(accepted) + (if duplicate then {} else {q})
      ensures old(started) ==> first == old(first) && minSeq >= old(minSeq)
      ensures old(started) && maxSeq > old(maxSeq) ==> |seen| <= size
      ensures old(started) ==> (minSeq != old(minSeq) <==> !duplicate && q > old(maxSeq) && |old(seen)| >= size)
    {
      ghost var before := Value();
      ghost var outcome := Step(before, q);
      StepSummary(before, q, accepted, first);
      accepted := accepted + (if outcome.duplicate then {} else {q});
      first := if started then first else q;
      duplicate := Update(q);
      assert Value() == outcome.window;
    }

    /** The code itself, without its history. */
    method Update(q: U32) returns (duplicate: bool)
      requires Sound(Value())
      modifies this`seen, this`minSeq, this`maxSeq, this`started
      ensures Value() == Step(old(Value()), q).window && duplicate == Step(old(Value()), q).duplicate
    {
      ghost var before := Value();
      if !started {
        started := true;
        minSeq := q;
        maxSeq := q;
        seen := seen + {q};
        return false;
      }
      if q in seen {
        return true;
      }
      if q < minSeq {
        return true;
      }
      seen := seen + {q};
      if q > maxSeq {
        maxSeq := q;
        if |seen| > size {
          SlideIsExact(before, q);
          // Neither the subtraction in the subtrahend nor the outer one leaves its range.
          assert 1 <= CastU32(size) && CastU32(size) - 1 <= maxSeq;
          var newMin := SaturatingSub(maxSeq, WrappingSub(CastU32(size), 1));
          seen := set s | s in seen && s >= newMin;
          minSeq := newMin;
        }
      }
      return false;
    }
  }

  /** server/server.go and client/client.go: the same window, deleting entries one by one and
      computing the new minimum with wrapping operators. */
  class GoDedupWindow {
    var seen: set<U32>
    var minSeq: U32
    var maxSeq: U32
    var size: nat
    var started: bool

    ghost function Value(): Window
      reads this
    {
      Window(seen, minSeq, maxSeq, size, started)
    }

    constructor (size: nat)
      ensures Value() == New(size)
    {
      this.seen, this.minSeq, this.maxSeq, this.size, this.started := {}, 0, 0, size, false;
    }

    method IsDuplicate(q: U32) returns (duplicate: bool)
      requires Sound(Value())
      modifies this
      ensures Value() == Step(old(Value()), q).window && duplicate == Step(old(Value()), q).duplicate
    {
      GoStepAgrees(Value(), q);
      if !started {
        started := true;
        minSeq := q;
        maxSeq := q;
        seen := seen + {q};
        return false;
      }
      if q in seen || q < minSeq {
        return true;
      }
      seen := seen + {q};
      if q > maxSeq {
        maxSeq := q;
        if |seen| > size {
          var newMin := WrappingAdd(WrappingSub(maxSeq, CastU32(size)), 1);
          EvictBelow(newMin);
          minSeq := newMin;
        }
      }
      return false;
    }

    /** Delete every entry below the new minimum while walking the map, in an order the language
        leaves open. */
    method EvictBelow(newMin: U32)
      modifies this`seen
      ensures seen == Retain(old(seen), newMin)
    {
      var todo := seen;
      while todo != {}
        invariant todo <= old(seen)
        invariant forall x: U32 :: x in seen <==> x in old(seen) && (x in todo || x >= newMin)
        decreases |todo|
      {
        var s :| s in todo;
        todo := todo - {s};
        if s < newMin {
          seen := seen - {s};
        }
      }
    }
  }
}
