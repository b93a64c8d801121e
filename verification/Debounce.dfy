/** Debouncing as a property of the sample history. */
module Debounce {

  datatype Tick = Tick(touched: bool, at: int)

  predicate Monotone(h: seq<Tick>) {
    forall i, j :: 0 <= i < j < |h| ==> h[i].at <= h[j].at
  }

  /** `i..j` is a constant run of samples that starts at `i`. */
  ghost predicate RunFrom(h: seq<Tick>, i: nat, j: nat) {
    && i <= j < |h|
    && (forall k :: i <= k <= j ==> h[k].touched == h[j].touched)
    && (i > 0 ==> h[i - 1].touched != h[j].touched)
  }

  /** The constant run that sample `j` belongs to spans at least the delay. */
  ghost predicate LongEnough(delay: nat, h: seq<Tick>, j: nat) {
    exists i: nat :: RunFrom(h, i, j) && h[j].at - h[i].at >= delay
  }

  /** The debounced value a history of samples stands for: the value of the
      latest long-enough run, or the first sample when there is none. */
  ghost predicate Debounced(delay: nat, h: seq<Tick>, value: bool) {
    || (exists j: nat :: LongEnough(delay, h, j) && h[j].touched == value && NoneAfter(delay, h, j + 1))
    || (h != [] && h[0].touched == value && NoneAfter(delay, h, 0))
  }

  ghost predicate NoneAfter(delay: nat, h: seq<Tick>, from: nat) {
    forall k: nat :: from <= k < |h| ==> !LongEnough(delay, h, k)
  }

  /** A history has only one debounced value. */
  lemma DebouncedUnique(delay: nat, h: seq<Tick>, a: bool, b: bool)
    requires Debounced(delay, h, a) && Debounced(delay, h, b)
    ensures a == b
  {
    if j: nat :| LongEnough(delay, h, j) && h[j].touched == a && NoneAfter(delay, h, j + 1) {
      if k: nat :| LongEnough(delay, h, k) && h[k].touched == b && NoneAfter(delay, h, k + 1) {
        assert j <= k && k <= j;
      }
    }
  }

  /** Debouncer memory: the debounced value, the latest sample's value, and the
      time of the first sample of the latest constant run. */
  ghost predicate Remembers(delay: nat, h: seq<Tick>, stable: bool, candidate: bool, since: int) {
    && h != [] && Debounced(delay, h, stable)
    && candidate == h[|h| - 1].touched
    && exists i: nat :: RunFrom(h, i, |h| - 1) && since == h[i].at
  }

  lemma RunFromUnique(h: seq<Tick>, i: nat, k: nat, j: nat)
    requires RunFrom(h, i, j) && RunFrom(h, k, j)
    ensures i == k
  {
  }

  lemma LongEnoughPrefix(delay: nat, h: seq<Tick>, x: Tick, j: nat)
    requires j < |h|
    ensures LongEnough(delay, h + [x], j) <==> LongEnough(delay, h, j)
  {
    forall i: nat ensures RunFrom(h + [x], i, j) <==> RunFrom(h, i, j) {
      if i <= j && RunFrom(h + [x], i, j) {
        forall k | i <= k <= j ensures h[k].touched == h[j].touched {
          assert (h + [x])[k] == h[k];
        }
      }
    }
    if LongEnough(delay, h, j) {
      var i: nat :| RunFrom(h, i, j) && h[j].at - h[i].at >= delay;
      assert RunFrom(h + [x], i, j);
    }
    if LongEnough(delay, h + [x], j) {
      var i: nat :| RunFrom(h + [x], i, j) && (h + [x])[j].at - (h + [x])[i].at >= delay;
      assert RunFrom(h, i, j);
    }
  }

  lemma RememberFirst(delay: nat, x: Tick)
    ensures Remembers(delay, [x], x.touched, x.touched, x.at)
  {
    assert RunFrom([x], 0, 0);
    if LongEnough(delay, [x], 0) {
      assert NoneAfter(delay, [x], 1);
    } else {
      assert NoneAfter(delay, [x], 0);
    }
  }

  /** One debouncing step: a change restarts the clock, a long enough run is accepted. */
  lemma RememberStep(delay: nat, h: seq<Tick>, stable: bool, candidate: bool, since: int, x: Tick)
    requires Remembers(delay, h, stable, candidate, since)
    ensures var since' := if x.touched == candidate then since else x.at;
            Remembers(delay, h + [x], if x.at - since' >= delay then x.touched else stable, x.touched, since')
  {
    var h' := h + [x];
    var last := |h|;
    var start: nat := last;
    if x.touched == candidate {
      start :| RunFrom(h, start, |h| - 1) && since == h[start].at;
    }
    var since' := if x.touched == candidate then since else x.at;
    assert RunFrom(h', start, last);
    assert since' == h'[start].at;
    if LongEnough(delay, h', last) {
      var i: nat :| RunFrom(h', i, last) && h'[last].at - h'[i].at >= delay;
      RunFromUnique(h', i, start, last);
    }
    DebouncedStep(delay, h, x, stable);
  }

  lemma DebouncedStep(delay: nat, h: seq<Tick>, x: Tick, stable: bool)
    requires Debounced(delay, h, stable)
    ensures Debounced(delay, h + [x], if LongEnough(delay, h + [x], |h|) then x.touched else stable)
  {
    var h' := h + [x];
    forall k: nat | k < |h| ensures LongEnough(delay, h', k) <==> LongEnough(delay, h, k) {
      LongEnoughPrefix(delay, h, x, k);
    }
    if LongEnough(delay, h', |h|) {
      assert h'[|h|].touched == x.touched && NoneAfter(delay, h', |h| + 1);
    } else if j: nat :| LongEnough(delay, h, j) && h[j].touched == stable && NoneAfter(delay, h, j + 1) {
      assert LongEnough(delay, h', j) && h'[j].touched == stable && NoneAfter(delay, h', j + 1);
    } else {
      assert NoneAfter(delay, h', 0) && h'[0] == h[0];
    }
  }
}
