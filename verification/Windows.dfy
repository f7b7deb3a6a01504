/** The sliding deduplication window as a value: one step of the Rust code, one step of the
    Go code, and what every run of calls guarantees.

    `DedupWindow` (server) and `ResponseDedupWindow` (client) are the same algorithm, so one
    model serves both. */
module Windows {
  import opened Bounded

  datatype Window = Window(seen: set<U32>, min: U32, max: U32, size: nat, started: bool)

  datatype Outcome = Outcome(window: Window, duplicate: bool)

  function New(size: nat): Window {
    Window({}, 0, 0, size, false)
  }

  /** `max_seq.saturating_sub(size as u32 - 1)`. */
  function RustNewMin(max: U32, size: nat): U32 {
    SaturatingSub(max, WrappingSub(CastU32(size), 1))
  }

  /** `maxSeq - uint32(size) + 1`. */
  function GoNewMin(max: U32, size: nat): U32 {
    WrappingAdd(WrappingSub(max, CastU32(size)), 1)
  }

  function Retain(seen: set<U32>, newMin: U32): set<U32> {
    set s | s in seen && s >= newMin
  }

  /** The branches both implementations share; they differ only in `newMin`. */
  function StepWith(w: Window, q: U32, newMin: (U32, nat) -> U32): Outcome {
    if !w.started then
      Outcome(Window(w.seen + {q}, q, q, w.size, true), false)
    else if q in w.seen || q < w.min then
      Outcome(w, true)
    else
      var seen := w.seen + {q};
      if q <= w.max then
        Outcome(w.(seen := seen), false)
      else if |seen| > w.size then
        var m := newMin(q, w.size);
        Outcome(w.(seen := Retain(seen, m), min := m, max := q), false)
      else
        Outcome(w.(seen := seen, max := q), false)
  }

  function Step(w: Window, q: U32): Outcome {
    StepWith(w, q, RustNewMin)
  }

  function GoStep(w: Window, q: U32): Outcome {
    StepWith(w, q, GoNewMin)
  }

  // ---------------------------------------------------------------- one step

  /** What every reachable window satisfies. */
  ghost predicate Sound(w: Window) {
    && w.size >= 1
    && (!w.started ==> w.seen == {})
    && (w.started ==>
          && w.max in w.seen
          && forall s <- w.seen :: w.min <= s <= w.max)
  }

  /** The window would call `q` a duplicate. */
  predicate Rejects(w: Window, q: U32) {
    w.started && (q in w.seen || q < w.min)
  }

  /** Pigeonhole: distinct numbers inside [lo, hi] number at most hi - lo + 1. */
  lemma {:induction false} Pigeonhole(s: set<U32>, lo: int, hi: int)
    requires forall x <- s :: lo <= x <= hi
    requires lo <= hi + 1
    ensures |s| <= hi - lo + 1
    decreases hi - lo + 1
  {
    if lo <= hi {
      var t := s - {hi};
      Pigeonhole(t, lo, hi - 1);
      assert s <= t + {hi};
      if hi in s { assert s == t + {hi}; } else { assert s == t; }
    } else {
      assert s == {};
    }
  }

  lemma MinimaAreExact(q: U32, size: nat)
    requires 1 <= size <= q
    ensures CastU32(size) == size
    ensures RustNewMin(q, size) == GoNewMin(q, size) == q - size + 1
  {
    assert WrappingSub(CastU32(size), 1) == size - 1;
    assert WrappingSub(q, CastU32(size)) == q - size;
  }

  /** A slide happens only when there is room for it: both minima are exact, and they move
      strictly up.  This is where the cast, the `- 1`, the saturation and Go's wrap-around
      are all shown not to bite. */
  lemma SlideIsExact(w: Window, q: U32)
    requires Sound(w) && w.started && !Rejects(w, q) && q > w.max
    requires |w.seen + {q}| > w.size
    ensures w.size < TWO_32 && CastU32(w.size) == w.size
    ensures w.size - 1 <= q
    ensures RustNewMin(q, w.size) == GoNewMin(q, w.size) == q - w.size + 1
    ensures w.min < q - w.size + 1
  {
    Pigeonhole(w.seen + {q}, w.min, q);
    MinimaAreExact(q, w.size);
  }

  lemma StepKeepsSound(w: Window, q: U32)
    requires Sound(w)
    ensures Sound(Step(w, q).window)
    ensures Step(w, q).window.size == w.size && Step(w, q).window.started
    ensures w.started ==> w.min <= Step(w, q).window.min && w.max <= Step(w, q).window.max
  {
    if w.started && !Rejects(w, q) && q > w.max && |w.seen + {q}| > w.size {
      SlideIsExact(w, q);
    }
  }

  /** Exactly the rejected numbers are duplicates, an accepted number is rejected from then
      on, and so is everything rejected before. */
  lemma StepRejects(w: Window, q: U32, earlier: U32)
    requires Sound(w)
    ensures Step(w, q).duplicate <==> Rejects(w, q)
    ensures Rejects(Step(w, q).window, q)
    ensures Rejects(w, earlier) ==> Rejects(Step(w, q).window, earlier)
  {
    StepKeepsSound(w, q);
    if w.started && !Rejects(w, q) && q > w.max && |w.seen + {q}| > w.size {
      SlideIsExact(w, q);
    }
  }

  lemma GoStepAgrees(w: Window, q: U32)
    requires Sound(w)
    ensures GoStep(w, q) == Step(w, q)
  {
    if w.started && !Rejects(w, q) && q > w.max && |w.seen + {q}| > w.size {
      SlideIsExact(w, q);
    }
  }

  /** The number of retained entries: never more than the span, and at most `size` after
      every call that raises the maximum. */
  lemma StepSizeBound(w: Window, q: U32)
    requires Sound(w)
    ensures var v := Step(w, q).window;
            && |v.seen| <= v.max - v.min + 1
            && (w.started && v.max > w.max ==> |v.seen| <= v.size)
  {
    StepKeepsSound(w, q);
    var v := Step(w, q).window;
    Pigeonhole(v.seen, v.min, v.max);
    if w.started && !Rejects(w, q) && q > w.max && |w.seen + {q}| > w.size {
      SlideIsExact(w, q);
    }
  }

  /** The minimum moves exactly when a new number above the maximum finds `size` entries already
      there; then it moves to `size - 1` below that number, and what is below it is forgotten.
      In every other call it stays, and nothing is forgotten. */
  lemma StepMovesMinExactlyWhen(w: Window, q: U32)
    requires Sound(w) && w.started
    ensures var v := Step(w, q).window;
            var slides := !Rejects(w, q) && q > w.max && |w.seen| >= w.size;
            && (v.min != w.min <==> slides)
            && (slides ==> v.min == q - w.size + 1)
            && v.max == (if q > w.max && !Rejects(w, q) then q else w.max)
            && (forall x: U32 :: x in v.seen <==> x >= v.min && (x in w.seen || (x == q && !Rejects(w, q))))
  {
    if !Rejects(w, q) {
      assert |w.seen + {q}| == |w.seen| + 1;
      if q > w.max && |w.seen| >= w.size {
        SlideIsExact(w, q);
      }
    }
  }

  /** `|seen| <= size` is not an invariant: one call keeps it exactly when it does not insert
      below the maximum into a full window. */
  lemma SizeKeptExactlyWhen(w: Window, q: U32)
    requires Sound(w) && |w.seen| <= w.size
    ensures |Step(w, q).window.seen| <= w.size <==>
            !(|w.seen| == w.size && w.started && w.min <= q < w.max && q !in w.seen)
  {
    StepSizeBound(w, q);
    if !w.started {
      assert w.seen + {q} == {q};
    } else if !Rejects(w, q) {
      assert |w.seen + {q}| == |w.seen| + 1;
    }
  }

  // ------------------------------------------------------------ runs of calls

  function Run(size: nat, calls: seq<U32>): Window {
    if calls == [] then New(size)
    else Step(Run(size, calls[..|calls| - 1]), calls[|calls| - 1]).window
  }

  function GoRun(size: nat, calls: seq<U32>): Window {
    if calls == [] then New(size)
    else GoStep(GoRun(size, calls[..|calls| - 1]), calls[|calls| - 1]).window
  }

  /** A window of size 2 that holds three numbers. */
  lemma SizeIsExceeded()
    ensures |Run(2, [0, 2, 1]).seen| == 3
  {
    var one: seq<U32>, two: seq<U32>, three: seq<U32> := [0], [0, 2], [0, 2, 1];
    assert one[..0] == [] && two[..1] == one && three[..2] == two;
    assert Run(2, one) == Window({0}, 0, 0, 2, true);
    assert Run(2, two) == Window({0, 2}, 0, 2, 2, true);
    assert Run(2, three) == Window({0, 2, 1}, 0, 2, 2, true);
  }

  /** The answer of call `i`. */
  predicate Duplicate(size: nat, calls: seq<U32>, i: nat)
    requires i < |calls|
  {
    Step(Run(size, calls[..i]), calls[i]).duplicate
  }

  predicate GoDuplicate(size: nat, calls: seq<U32>, i: nat)
    requires i < |calls|
  {
    GoStep(GoRun(size, calls[..i]), calls[i]).duplicate
  }

  /** Every number some call answered `false` for: the unbounded history. */
  function Accepted(size: nat, calls: seq<U32>): set<U32> {
    if calls == [] then {}
    else
      var n := |calls| - 1;
      Accepted(size, calls[..n]) + (if Duplicate(size, calls, n) then {} else {calls[n]})
  }

  lemma {:induction false} RunIsSound(size: nat, calls: seq<U32>)
    requires size >= 1
    ensures Sound(Run(size, calls))
    ensures Run(size, calls).size == size
    ensures Run(size, calls).started <==> calls != []
  {
    if calls != [] {
      RunIsSound(size, calls[..|calls| - 1]);
      StepKeepsSound(Run(size, calls[..|calls| - 1]), calls[|calls| - 1]);
    }
  }

  lemma DuplicateOfPrefix(size: nat, calls: seq<U32>, n: nat, i: nat)
    requires i < n <= |calls|
    ensures Duplicate(size, calls[..n], i) == Duplicate(size, calls, i)
  {
    assert calls[..n][..i] == calls[..i];
  }

  lemma {:induction false} AcceptedGrows(size: nat, calls: seq<U32>, n: nat)
    requires n <= |calls|
    ensures Accepted(size, calls[..n]) <= Accepted(size, calls)
  {
    if n == |calls| {
      assert calls[..n] == calls;
    } else {
      var short := calls[..|calls| - 1];
      assert short[..n] == calls[..n];
      AcceptedGrows(size, short, n);
    }
  }

  /** `Accepted` holds every accepted number ... */
  lemma {:induction false} AcceptedIsComplete(size: nat, calls: seq<U32>, i: nat)
    requires i < |calls| && !Duplicate(size, calls, i)
    ensures calls[i] in Accepted(size, calls)
  {
    DuplicateOfPrefix(size, calls, i + 1, i);
    assert calls[..i + 1][i] in Accepted(size, calls[..i + 1]);
    AcceptedGrows(size, calls, i + 1);
  }

  /** ... and nothing else. */
  lemma {:induction false} AcceptedIsSound(size: nat, calls: seq<U32>, x: U32) returns (i: nat)
    requires x in Accepted(size, calls)
    ensures i < |calls| && calls[i] == x && !Duplicate(size, calls, i)
  {
    var n := |calls| - 1;
    if x in Accepted(size, calls[..n]) {
      i := AcceptedIsSound(size, calls[..n], x);
      DuplicateOfPrefix(size, calls, n, i);
    } else {
      i := n;
    }
  }

  /** The window against the unbounded history `h` whose first member is `first`. */
  ghost predicate Refines(w: Window, h: set<U32>, first: U32) {
    && w.started
    && first in h && w.max in h
    && (forall x <- h :: first <= x <= w.max)
    && w.seen == (set x | x in h && x >= w.min)
    && (w.min == first || (first < w.min && w.min + w.size <= w.max + 1))
  }

  lemma StepRefines(w: Window, q: U32, h: set<U32>, first: U32)
    requires Sound(w) && Refines(w, h, first)
    ensures Refines(Step(w, q).window, if Step(w, q).duplicate then h else h + {q}, first)
  {
    if !Rejects(w, q) && q > w.max && |w.seen + {q}| > w.size {
      SlideIsExact(w, q);
    }
  }

  /** The window, started or not, is what was accepted, cut at the minimum. */
  ghost predicate Faithful(w: Window, accepted: set<U32>) {
    if w.started then exists first :: Refines(w, accepted, first) else accepted == {}
  }

  lemma FaithfulStep(w: Window, accepted: set<U32>, q: U32)
    requires Sound(w) && Faithful(w, accepted)
    ensures var o := Step(w, q);
            Faithful(o.window, if o.duplicate then accepted else accepted + {q})
  {
    var o := Step(w, q);
    if w.started {
      var first :| Refines(w, accepted, first);
      StepRefines(w, q, accepted, first);
    } else {
      assert accepted + {q} == {q} && o.window.seen == {q};
      assert Refines(o.window, {q}, q);
    }
  }

  /** Main theorem on windows: in every non-empty run the bounded window is the unbounded
      history cut at `min`, `max` is the greatest accepted number, and `min` is the first
      accepted number or lies at least `size - 1` below `max`. */
  lemma {:induction false} RunRefinesHistory(size: nat, calls: seq<U32>)
    requires size >= 1 && calls != []
    ensures Refines(Run(size, calls), Accepted(size, calls), calls[0])
  {
    var n := |calls| - 1;
    var short := calls[..n];
    RunIsSound(size, short);
    if n != 0 {
      RunRefinesHistory(size, short);
      StepRefines(Run(size, short), calls[n], Accepted(size, short), short[0]);
    }
  }

  /** The verdict is "ever accepted, or below `min`": eviction never changes an answer. */
  lemma {:induction false} VerdictByHistory(size: nat, calls: seq<U32>, i: nat)
    requires size >= 1 && i < |calls|
    ensures Duplicate(size, calls, i) <==>
            i > 0 && (calls[i] in Accepted(size, calls[..i]) || calls[i] < Run(size, calls[..i]).min)
  {
    RunIsSound(size, calls[..i]);
    if i > 0 {
      RunRefinesHistory(size, calls[..i]);
    }
  }

  /** At most once: no number is answered `false` twice in a run. */
  lemma {:induction false} AtMostOnce(size: nat, calls: seq<U32>, i: nat, j: nat)
    requires size >= 1 && i < j < |calls| && calls[i] == calls[j]
    ensures !Duplicate(size, calls, i) ==> Duplicate(size, calls, j)
  {
    if !Duplicate(size, calls, i) {
      DuplicateOfPrefix(size, calls, j, i);
      AcceptedIsComplete(size, calls[..j], i);
      VerdictByHistory(size, calls, j);
    }
  }

  /** As long as no more than `size` numbers were accepted, the window has not moved. */
  lemma {:induction false} MinStaysFirst(size: nat, calls: seq<U32>)
    requires size >= 1 && calls != [] && |Accepted(size, calls)| <= size
    ensures Run(size, calls).min == calls[0]
  {
    var n := |calls| - 1;
    var short := calls[..n];
    RunIsSound(size, short);
    if n > 0 {
      var w, h := Run(size, short), Accepted(size, short);
      AcceptedGrows(size, calls, n);
      Smaller(h, Accepted(size, calls));
      MinStaysFirst(size, short);
      RunRefinesHistory(size, short);
      StepMovesMinExactlyWhen(w, calls[n]);
      if !Rejects(w, calls[n]) {
        StepRejects(w, calls[n], calls[n]);
        assert Accepted(size, calls) == h + {calls[n]};
        Smaller(w.seen, h);
        if calls[n] > w.max {
          assert calls[n] !in h;
          assert |h + {calls[n]}| == |h| + 1;
        }
      }
    }
  }

  lemma {:induction false} Smaller(a: set<U32>, b: set<U32>)
    requires a <= b
    ensures |a| <= |b|
    decreases a
  {
    if a != {} {
      var x :| x in a;
      Smaller(a - {x}, b - {x});
    }
  }

  /** Gaps cost nothing: as long as no more than `size` numbers were accepted, a number is called a
      duplicate exactly when it was accepted before or is below the first, however far ahead the
      greatest one is. */
  lemma {:induction false} NothingIsForgottenEarly(size: nat, calls: seq<U32>, i: nat)
    requires size >= 1 && i < |calls|
    ensures |Accepted(size, calls[..i])| <= size ==>
              (Duplicate(size, calls, i) <==>
                 i > 0 && (calls[i] in Accepted(size, calls[..i]) || calls[i] < calls[0]))
  {
    VerdictByHistory(size, calls, i);
    if i > 0 && |Accepted(size, calls[..i])| <= size {
      MinStaysFirst(size, calls[..i]);
    }
  }

  lemma InWindowIsAccepted(w: Window, h: set<U32>, first: U32, q: U32)
    requires Refines(w, h, first) && q !in h && first <= q && w.max < q + w.size
    ensures !Rejects(w, q)
  {
  }

  /** No false drop: a number not accepted so far, not below the first one and less than
      `size` below the greatest one, is accepted. */
  lemma {:induction false} NoFalseDrop(size: nat, calls: seq<U32>, i: nat)
    requires size >= 1 && 0 < i < |calls|
    requires calls[i] !in Accepted(size, calls[..i])
    requires calls[0] <= calls[i]
    requires Run(size, calls[..i]).max < calls[i] + size
    ensures !Duplicate(size, calls, i)
  {
    var w, h := Run(size, calls[..i]), Accepted(size, calls[..i]);
    RunRefinesHistory(size, calls[..i]);
    RunIsSound(size, calls[..i]);
    assert Refines(w, h, calls[0]) && calls[i] !in h;
    InWindowIsAccepted(w, h, calls[0], calls[i]);
    StepRejects(w, calls[i], calls[i]);
  }

  /** A number below the first one is never accepted: the window cannot start late. */
  lemma {:induction false} BelowFirstIsDropped(size: nat, calls: seq<U32>, i: nat)
    requires size >= 1 && 0 < i < |calls| && calls[i] < calls[0]
    ensures Duplicate(size, calls, i)
  {
    RunRefinesHistory(size, calls[..i]);
    VerdictByHistory(size, calls, i);
  }

  /** Go and Rust agree step by step on every run exactly when the size is at least 1, which
      is what configuration validation supplies. */
  lemma GoAgreesExactlyWhen(size: nat)
    ensures size >= 1 <==>
            forall calls: seq<U32> :: GoRun(size, calls) == Run(size, calls)
    ensures size >= 1 ==>
            forall calls: seq<U32>, i: nat | i < |calls| ::
              GoDuplicate(size, calls, i) == Duplicate(size, calls, i)
  {
    if size >= 1 {
      forall calls: seq<U32> ensures GoRun(size, calls) == Run(size, calls) {
        GoRunAgrees(size, calls);
      }
      forall calls: seq<U32>, i: nat | i < |calls|
        ensures GoDuplicate(size, calls, i) == Duplicate(size, calls, i)
      {
        RunIsSound(size, calls[..i]);
        GoStepAgrees(Run(size, calls[..i]), calls[i]);
      }
    } else {
      ZeroSizeDisagrees();
    }
  }

  lemma ZeroSizeDisagrees()
    ensures Run(0, [0, 1]) != GoRun(0, [0, 1])
  {
    var one: seq<U32> := [0];
    var two: seq<U32> := [0, 1];
    var w := Window({0}, 0, 0, 0, true);
    assert two[..1] == one && one[..0] == [];
    assert Run(0, one) == w == GoRun(0, one);
    assert Run(0, two) == Step(w, 1).window && GoRun(0, two) == GoStep(w, 1).window;
    assert 1 in w.seen + {1};
    assert RustNewMin(1, 0) == 0 && GoNewMin(1, 0) == 2;
  }

  lemma {:induction false} GoRunAgrees(size: nat, calls: seq<U32>)
    requires size >= 1
    ensures GoRun(size, calls) == Run(size, calls)
  {
    if calls != [] {
      var short := calls[..|calls| - 1];
      GoRunAgrees(size, short);
      RunIsSound(size, short);
      GoStepAgrees(Run(size, short), calls[|calls| - 1]);
    }
  }
}
