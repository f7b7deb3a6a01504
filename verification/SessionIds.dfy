/** Session ids: a 64-bit counter from an arbitrary start, skipping 0. */
module SessionIds {
  import opened Bounded

  datatype Issue = Issue(id: U64, counter: U64)

  /** `fetch_add(1).wrapping_add(1)`, drawn again when the result is 0. */
  function Draw(counter: U64): Issue {
    var id := (counter + 1) % TWO_64;
    if id == 0 then
      var again := (id + 1) % TWO_64;
      Issue(again, again)
    else
      Issue(id, id)
  }

  /** The counter after `n` creations from `start`. */
  function CounterAfter(start: U64, n: nat): U64 {
    if n == 0 then start else Draw(CounterAfter(start, n - 1)).counter
  }

  /** The id issued by creation number `n`. */
  function IdAt(start: U64, n: nat): U64 {
    Draw(CounterAfter(start, n)).id
  }

  const PERIOD: int := TWO_64 - 1

  lemma NextResidue(a: nat)
    ensures (a + 1) % PERIOD == if a % PERIOD == PERIOD - 1 then 0 else a % PERIOD + 1
  {
  }

  /** Id and counter agree, and 0 is passed over. */
  lemma DrawSkipsZero(counter: U64)
    ensures Draw(counter).id == Draw(counter).counter == if counter == PERIOD then 1 else counter + 1
  {
  }

  lemma {:induction false} IdClosedForm(start: U64, n: nat)
    ensures IdAt(start, n) == (start + n) % PERIOD + 1
  {
    DrawSkipsZero(CounterAfter(start, n));
    if n > 0 {
      IdClosedForm(start, n - 1);
      DrawSkipsZero(CounterAfter(start, n - 1));
      NextResidue(start + n - 1);
    }
  }

  lemma SameResidue(a: nat, b: nat)
    ensures a % PERIOD == b % PERIOD <==> (a - b) % PERIOD == 0
  {
    var k := a / PERIOD - b / PERIOD;
    assert a - b == PERIOD * k + (a % PERIOD - b % PERIOD);
  }

  /** Freshness, with its exact limit: ids are never 0, and two creations share an id exactly
      when their distance is a multiple of 2^64 - 1. */
  lemma IdsRepeatExactlyWhen(start: U64, i: nat, j: nat)
    ensures IdAt(start, i) != 0
    ensures IdAt(start, i) == IdAt(start, j) <==> (i - j) % PERIOD == 0
  {
    IdClosedForm(start, i);
    IdClosedForm(start, j);
    SameResidue(start + i, start + j);
    assert start + i - (start + j) == i - j;
  }

  /** So the first 2^64 - 1 ids are pairwise distinct, across wrap-around and the skip. */
  lemma IdsAreFresh(start: U64, i: nat, j: nat)
    requires i < j < PERIOD
    ensures IdAt(start, i) != IdAt(start, j)
  {
    IdsRepeatExactlyWhen(start, j, i);
    assert 0 < j - i < PERIOD;
  }
}
