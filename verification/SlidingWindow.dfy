/**
 * Counting over sliding windows. A window of `width` ending at `t` is the half-open interval
 * `(t - width, t]`: the limiters count hits strictly after `now - width`, and refuse a hit when the
 * window that ends with it is full already. That check at admission is all there is; the bound on
 * every window, wherever it ends, and on every span of windows follows from it.
 */
module SlidingWindow {

  /** How many of `times` lie in `(lo, hi]` */
  function CountIn(times: seq<int>, lo: int, hi: int): nat {
    if times == [] then 0
    else
      var last := times[|times| - 1];
      CountIn(times[..|times| - 1], lo, hi) + if lo < last <= hi then 1 else 0
  }

  lemma CountAppend(times: seq<int>, at: int, lo: int, hi: int)
    ensures CountIn(times + [at], lo, hi) == CountIn(times, lo, hi) + if lo < at <= hi then 1 else 0
  {
    assert (times + [at])[..|times|] == times;
  }

  ghost predicate Chronological(times: seq<int>) {
    forall i, j :: 0 <= i < j < |times| ==> times[i] <= times[j]
  }

  /** Every entry was let in while its own window held fewer than `max` earlier ones */
  ghost predicate Admitted(times: seq<int>, width: nat, max: nat) {
    forall i :: 0 <= i < |times| ==> AdmittedAt(times, i, width, max)
  }

  ghost predicate AdmittedAt(times: seq<int>, i: nat, width: nat, max: nat)
    requires i < |times|
  {
    CountIn(times[..i], times[i] - width, times[i]) < max
  }

  /** Checking only at admission bounds every window, wherever it ends. */
  lemma {:induction false} WindowBound(times: seq<int>, width: nat, max: nat, t: int)
    requires Chronological(times) && Admitted(times, width, max)
    ensures CountIn(times, t - width, t) <= max
  {
    if times != [] {
      var n := |times| - 1;
      var last := times[n];
      PrefixKeeps(times, width, max, n);
      WindowBound(times[..n], width, max, t);
      if t - width < last <= t {
        CountMonotone(times[..n], t - width, t, last - width, last);
        assert AdmittedAt(times, n, width, max);
      }
    }
  }

  /** A span of `k` windows holds at most `k * max` entries. */
  lemma {:induction false} SpanBound(times: seq<int>, width: nat, max: nat, lo: int, k: nat)
    requires Chronological(times) && Admitted(times, width, max)
    ensures CountIn(times, lo, lo + k * width) <= k * max
  {
    if k == 0 {
      CountEmptyInterval(times, lo, lo);
    } else {
      TimesStep(k, width);
      TimesStep(k, max);
      var mid := lo + (k - 1) * width;
      SpanBound(times, width, max, lo, k - 1);
      WindowBound(times, width, max, mid + width);
      SpanIsForward(k - 1, width);
      CountSplits(times, lo, mid, mid + width);
    }
  }

  lemma TimesStep(k: nat, n: nat)
    requires k > 0
    ensures k * n == (k - 1) * n + n
  {
  }

  lemma SpanIsForward(k: nat, n: nat)
    ensures 0 <= k * n
  {
  }

  lemma PrefixKeeps(times: seq<int>, width: nat, max: nat, n: nat)
    requires n <= |times| && Chronological(times) && Admitted(times, width, max)
    ensures Chronological(times[..n]) && Admitted(times[..n], width, max)
  {
    forall i | 0 <= i < n ensures AdmittedAt(times[..n], i, width, max) {
      assert AdmittedAt(times, i, width, max);
      assert times[..n][..i] == times[..i];
    }
  }

  /** Appending an admitted, latest entry keeps both properties. */
  lemma ExtendAdmitted(times: seq<int>, width: nat, max: nat, t: int)
    requires Chronological(times) && Admitted(times, width, max)
    requires forall i :: 0 <= i < |times| ==> times[i] <= t
    requires CountIn(times, t - width, t) < max
    ensures Chronological(times + [t]) && Admitted(times + [t], width, max)
  {
    var longer := times + [t];
    forall i | 0 <= i < |longer| ensures AdmittedAt(longer, i, width, max) {
      if i < |times| {
        assert AdmittedAt(times, i, width, max);
        assert longer[..i] == times[..i];
      } else {
        assert longer[..i] == times;
      }
    }
  }

  lemma {:induction false} CountMonotone(times: seq<int>, lo: int, hi: int, lo': int, hi': int)
    requires lo' <= lo
    requires forall i :: 0 <= i < |times| && times[i] <= hi ==> times[i] <= hi'
    ensures CountIn(times, lo, hi) <= CountIn(times, lo', hi')
  {
    if times != [] {
      CountMonotone(times[..|times| - 1], lo, hi, lo', hi');
    }
  }

  lemma {:induction false} CountSplits(times: seq<int>, lo: int, mid: int, hi: int)
    requires lo <= mid <= hi
    ensures CountIn(times, lo, hi) == CountIn(times, lo, mid) + CountIn(times, mid, hi)
  {
    if times != [] {
      CountSplits(times[..|times| - 1], lo, mid, hi);
    }
  }

  lemma {:induction false} CountEmptyInterval(times: seq<int>, lo: int, hi: int)
    requires hi <= lo
    ensures CountIn(times, lo, hi) == 0
  {
    if times != [] {
      CountEmptyInterval(times[..|times| - 1], lo, hi);
    }
  }
}
