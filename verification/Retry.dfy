/** Retrying with exponential back-off: how long to wait, and which errors are kept. */
module Retry {
  import opened Bytes
  import opened Outcomes

  // ---- the wait ----

  const MAX_INT64 := 0x7FFF_FFFF_FFFF_FFFF

  /** What a 64-bit signed result wraps round to. */
  function Wrap64(x: int): int {
    (x + 0x8000_0000_0000_0000) % 0x1_0000_0000_0000_0000 - 0x8000_0000_0000_0000
  }

  lemma NoWrap(x: int)
    requires 0 <= x <= MAX_INT64
    ensures Wrap64(x) == x
  {}

  /** Go's `time.Duration`, in nanoseconds. */
  type Duration = x: int | -0x8000_0000_0000_0000 <= x <= MAX_INT64

  datatype ExpBackOff = ExpBackOff(backOff: Duration, max: Duration, keepErrs: int, jitter: bool)

  /** `nextWait`; `draw` is what the random generator gives, below `2^attempts`. */
  function NextWait(b: ExpBackOff, attempts: int, draw: nat): int {
    if attempts <= 0 || b.max == 0 then 0
    else if b.backOff == 0 || attempts >= 63 then b.max
    else if b.jitter then
      if draw > 0 && b.backOff > b.max / draw then b.max else Wrap64(b.backOff * draw)
    else
      var multiple := Wrap64(Pow2(attempts - 1));
      if multiple != 0 && b.backOff <= b.max / multiple then Wrap64(b.backOff * multiple) else b.max
  }

  function Min(a: int, b: int): int {
    if a < b then a else b
  }

  lemma {:induction false} Pow2Of62(n: nat)
    requires n <= 62
    ensures Pow2(n) <= 0x4000_0000_0000_0000
  {
    Pow2Grows(n, 62);
    Power62();
  }

  lemma Power30()
    ensures Pow2(30) == 0x4000_0000
  {
    Doubled(15);
    Doubled(7);
    assert Pow2(7) == 128 && Pow2(15) == 2 * Pow2(14);
  }

  lemma Power62()
    ensures Pow2(62) == 0x4000_0000_0000_0000
  {
    Power30();
    Doubled(31);
    assert Pow2(31) == 2 * Pow2(30);
  }

  lemma {:induction false} Doubled(n: nat)
    ensures Pow2(2 * n) == Pow2(n) * Pow2(n)
  {
    if n > 0 {
      Doubled(n - 1);
      assert Pow2(2 * n) == 4 * Pow2(2 * (n - 1));
      FourTimes(Pow2(n - 1));
    }
  }

  lemma FourTimes(x: nat)
    ensures (2 * x) * (2 * x) == 4 * (x * x)
  {}

  /** The guard before a product is exactly that the product does not exceed the maximum. */
  lemma QuotientGuards(a: int, s: int, max: int)
    requires a >= 0 && s > 0 && max >= 0
    ensures a <= max / s <==> a * s <= max
  {
    var q := max / s;
    Quotient(max, s);
    if a <= q {
      MoreTimes(s, a, q);
    } else {
      MoreTimes(s, q + 1, a);
    }
  }

  lemma Quotient(max: int, s: int)
    requires s > 0 && max >= 0
    ensures s * (max / s) <= max < s * (max / s + 1)
  {
    assert max == s * (max / s) + max % s;
  }

  /** Without overflow: never negative, never above the maximum, and until the 63rd attempt
      the lesser of the maximum and the back-off times a power of two, or times the draw. */
  lemma WaitIsCapped(b: ExpBackOff, n: int, draw: nat)
    requires 1 <= b.backOff && 1 <= b.max
    ensures 0 <= NextWait(b, n, draw) <= b.max
    ensures 1 <= n <= 62 && !b.jitter ==> NextWait(b, n, draw) == Min(b.max, b.backOff * Pow2(n - 1))
    ensures 1 <= n <= 62 && b.jitter ==> NextWait(b, n, draw) == Min(b.max, b.backOff * draw)
    ensures n >= 63 ==> NextWait(b, n, draw) == b.max
  {
    hide Pow2, Wrap64;
    if 1 <= n <= 62 {
      if b.jitter {
        if draw > 0 {
          QuotientGuards(b.backOff, draw, b.max);
        }
        if b.backOff * draw <= b.max {
          NonNegative(b.backOff, draw);
          NoWrap(b.backOff * draw);
        }
      } else {
        var m := Pow2(n - 1);
        Pow2Of62(n - 1);
        NoWrap(m);
        QuotientGuards(b.backOff, m, b.max);
        if b.backOff * m <= b.max {
          NonNegative(b.backOff, m);
          NoWrap(b.backOff * m);
        }
      }
    }
  }

  lemma NonNegative(a: int, b: int)
    requires a >= 0 && b >= 0
    ensures a * b >= 0
  {}

  /** Waits do not get shorter. */
  lemma WaitGrows(b: ExpBackOff, m: int, n: int)
    requires 1 <= b.backOff && 1 <= b.max && !b.jitter && m <= n
    ensures NextWait(b, m, 0) <= NextWait(b, n, 0)
  {
    hide NextWait, Pow2;
    WaitIsCapped(b, m, 0);
    WaitIsCapped(b, n, 0);
    NoWaitBefore(b, m, 0);
    if 1 <= m && n <= 62 {
      Pow2Grows(m - 1, n - 1);
      MoreTimes(b.backOff, Pow2(m - 1), Pow2(n - 1));
    }
  }

  lemma MoreTimes(a: int, b: int, c: int)
    requires a >= 0 && b <= c
    ensures a * b <= a * c
  {}

  /** Where `WaitIsCapped` says nothing: there is no wait before the first failure or with a
      maximum of zero, and without a back-off it is the maximum. */
  lemma NoWaitBefore(b: ExpBackOff, n: int, draw: nat)
    ensures n <= 0 || b.max == 0 ==> NextWait(b, n, draw) == 0
    ensures n >= 1 && b.backOff == 0 ==> NextWait(b, n, draw) == b.max
  {}

  // ---- the errors ----

  datatype Error = RetriesExceeded | WaitExceedsDeadline | Fault(code: int)

  /** The last `n` of some errors. */
  function Latest(errs: seq<Error>, n: nat): seq<Error> {
    if |errs| <= n then errs else errs[|errs| - n..]
  }

  /** The errors from `last` on, cyclically. */
  function InOrder(others: seq<Error>, last: nat): seq<Error> {
    if last <= |others| then others[last..] + others[..last] else others
  }

  /** In order, they are the latest of all `added`. With a limit of zero only the first is
      kept, with a negative one only the latest. */
  predicate RingOk(max: int, others: seq<Error>, last: nat, added: seq<Error>) {
    && added != [] && others != [] && last < |others|
    && (max > 0 ==> InOrder(others, last) == Latest(added, max) && (|added| < max ==> last == 0))
    && (max == 0 ==> others == [added[0]])
    && (max < 0 ==> others == Latest(added, 1))
  }

  lemma RingKept(others: seq<Error>, last: nat, added: seq<Error>, err: Error)
    requires RingOk(0, others, last, added)
    ensures RingOk(0, others, last, added + [err])
  {}

  lemma RingGrows(max: int, others: seq<Error>, last: nat, added: seq<Error>, err: Error)
    requires RingOk(max, others, last, added) && |others| < max
    ensures RingOk(max, others + [err], last, added + [err])
  {
    assert |InOrder(others, last)| == |others|;
    assert others[0..] + others[..0] == others;
    assert (others + [err])[0..] + (others + [err])[..0] == others + [err];
  }

  /** Writing over the oldest of a full ring drops it and adds the new one at the end. */
  lemma RingTurns(max: int, others: seq<Error>, last: nat, added: seq<Error>, err: Error)
    requires RingOk(max, others, last, added) && max != 0 && |others| >= max
    ensures last < |others|
            && RingOk(max, others[last := err], if last + 1 >= |others| then 0 else last + 1, added + [err])
  {
    var now := others[last := err];
    var next := if last + 1 >= |others| then 0 else last + 1;
    assert InOrder(now, next) == InOrder(others, last)[1..] + [err];
    if max > 0 {
      assert |Latest(added, max)| == |others| == max;
      assert Latest(added + [err], max) == Latest(added, max)[1..] + [err];
    }
  }

  /** With room for at least one error, what is kept is the latest in order. */
  lemma KeepsLatest(max: int, others: seq<Error>, last: nat, added: seq<Error>)
    requires RingOk(max, others, last, added) && max > 0
    ensures InOrder(others, last) == added[if |added| > max then |added| - max else 0..]
    ensures |others| == if |added| < max then |added| else max
  {
    assert |InOrder(others, last)| == |others|;
  }

  class FError {
    var mainErr: Error
    var others: seq<Error>
    var attempts: int
    const max: int
    var last: nat
    ghost var added: seq<Error> // everything recorded, oldest first

    ghost predicate Valid()
      reads this
    {
      0 <= attempts <= MAX_INT64 && RingOk(max, others, last, added)
    }

    /** `newFError`. */
    constructor (err: Error, maxErrs: int)
      ensures Valid() && added == [err] && max == maxErrs && mainErr == RetriesExceeded && attempts == 0
      ensures others == [err]
    {
      mainErr, others, attempts, max, last := RetriesExceeded, [err], 0, maxErrs, 0;
      added := [err];
    }

    /** `addErr`: append until full, then overwrite the oldest. */
    method AddErr(newErr: Error)
      requires Valid()
      modifies this
      ensures Valid() && added == old(added) + [newErr] && mainErr == old(mainErr)
      ensures attempts == (if old(attempts) < MAX_INT64 then old(attempts) + 1 else old(attempts))
    {
      hide RingOk;
      if Wrap64(attempts + 1) > 0 {
        attempts := attempts + 1;
      }
      added := added + [newErr];
      if max == 0 {
        RingKept(others, last, old(added), newErr);
        return;
      }
      if |others| < max {
        RingGrows(max, others, last, old(added), newErr);
        others := others + [newErr];
        return;
      }
      RingTurns(max, others, last, old(added), newErr);
      others := others[last := newErr];
      last := last + 1;
      if last >= |others| {
        last := 0;
      }
    }
  }

  // ---- the loop ----

  /** What a call of the function comes to, and how the wait before the next one ends. */
  datatype CallResult = Success | Temporary(err: Error) | Fatal(err: Error)
  datatype Wait = Elapsed | Cancelled(err: Error) | PastDeadline

  datatype Verdict = Succeeded | Gave(error: Error) | Unfinished

  const FOREVER := -1

  function ErrorsOf(calls: seq<CallResult>): seq<Error> {
    if calls == [] then []
    else ErrorsOf(calls[..|calls| - 1]) + if calls[|calls| - 1].Temporary? then [calls[|calls| - 1].err] else []
  }

  lemma ErrorsOfMore(calls: seq<CallResult>, made: nat)
    requires made < |calls|
    ensures calls[made].Temporary? ==> ErrorsOf(calls[..made + 1]) == ErrorsOf(calls[..made]) + [calls[made].err]
    ensures !calls[made].Temporary? ==> ErrorsOf(calls[..made + 1]) == ErrorsOf(calls[..made])
    ensures ErrorsOf(calls[..0]) == [] && (calls[0].Temporary? ==> ErrorsOf(calls[..1]) == [calls[0].err])
  {
    assert calls[..made + 1][..made] == calls[..made] && calls[..1][..0] == calls[..0] == [];
    assert ErrorsOf(calls[..made]) + [] == ErrorsOf(calls[..made]);
  }

  /** The errors recorded are those of the temporary failures, in order, each once. */
  lemma {:induction false} ErrorsAre(calls: seq<CallResult>, made: nat)
    requires 1 <= made <= |calls| && forall j :: 0 <= j < made - 1 ==> calls[j].Temporary?
    ensures var errs := ErrorsOf(calls[..made]);
            && |errs| == (if calls[made - 1].Temporary? then made else made - 1)
            && forall j :: 0 <= j < |errs| ==> errs[j] == calls[j].err
  {
    hide ErrorsOf;
    ErrorsOfMore(calls, made - 1);
    if made > 1 {
      ErrorsAre(calls, made - 1);
    } else {
      assert calls[..made - 1] == calls[..0];
    }
  }

  /** Why `RetryWithCtx` gave up after some calls, none of which succeeded. */
  predicate Reason(retries: int, calls: seq<CallResult>, waits: seq<Wait>, made: nat, error: Error)
    requires 1 <= made <= |calls|
  {
    if calls[made - 1].Fatal? then error == if made == 1 then RetriesExceeded else calls[made - 1].err
    else if retries != FOREVER && made >= retries then error == RetriesExceeded
    else
      && made - 1 < |waits|
      && waits[made - 1] != Elapsed
      && error == if waits[made - 1].Cancelled? then waits[made - 1].err else WaitExceedsDeadline
  }

  /** The run ended after the wait that followed its last call: it was cancelled there, or
      the results given end there. */
  predicate EndsInWait(retries: int, calls: seq<CallResult>, waits: seq<Wait>, made: nat)
    requires 1 <= made <= |calls|
  {
    && calls[made - 1].Temporary? && (retries == FOREVER || made < retries)
    && made - 1 < |waits| && waits[made - 1] != PastDeadline
  }

  /** How long the wait after `n` failed calls should be: without jitter it doubles from the
      back-off up to the maximum, neither of which is less than a nanosecond. */
  predicate WaitIsRight(ebo: ExpBackOff, n: nat, draw: nat, wait: int)
    requires n >= 1
  {
    var max := if ebo.max <= 0 then MAX_INT64 else ebo.max;
    var least := if ebo.backOff <= 0 then 1 else ebo.backOff;
    var full := least * if ebo.jitter then draw else Pow2(n - 1);
    wait == if n >= 63 || full > max then max else full
  }

  /** The wait after the `j+1`st failed call is `waited[j]`. */
  predicate WaitsAreRight(ebo: ExpBackOff, draw: nat -> nat, waited: seq<int>) {
    forall j :: 0 <= j < |waited| ==> WaitIsRight(ebo, j + 1, draw(j + 1), waited[j])
  }

  lemma NoneAreRight(ebo: ExpBackOff, draw: nat -> nat)
    ensures WaitsAreRight(ebo, draw, [])
  {}

  lemma OneMoreIsRight(ebo: ExpBackOff, draw: nat -> nat, waited: seq<int>, wait: int)
    requires WaitsAreRight(ebo, draw, waited) && WaitIsRight(ebo, |waited| + 1, draw(|waited| + 1), wait)
    ensures WaitsAreRight(ebo, draw, waited + [wait])
  {
    hide WaitIsRight;
  }

  lemma NextWaitIsRight(ebo: ExpBackOff, n: nat, draw: nat)
    requires n >= 1
    ensures var b := ebo.(max := if ebo.max <= 0 then MAX_INT64 else ebo.max,
                          backOff := if ebo.backOff <= 0 then 1 else ebo.backOff);
            WaitIsRight(ebo, n, draw, NextWait(b, n, draw))
  {
    hide NextWait, Pow2;
    WaitIsCapped(ebo.(max := if ebo.max <= 0 then MAX_INT64 else ebo.max,
                      backOff := if ebo.backOff <= 0 then 1 else ebo.backOff), n, draw);
  }

  /** `RetryWithCtx` against given results of its calls and waits. It succeeds iff its last
      call did, waits as long as it should after every call but the last, makes no more calls
      than allowed, stops before that only for the first fatal error, a cancellation or a
      deadline, and keeps the latest errors in order. */
  method RetryWithCtx(ebo: ExpBackOff, ctxErr: Option<Error>, retries: int, calls: seq<CallResult>, waits: seq<Wait>,
                      draw: nat -> nat)
    returns (r: Verdict, made: nat, fe: FError?, waited: seq<int>)
    ensures made <= |calls| && (made == 0 <==> ctxErr.Some? || calls == [])
    ensures ctxErr.Some? ==> r == Gave(ctxErr.value) && fe == null
    ensures forall j :: 0 <= j < made - 1 ==> calls[j].Temporary? && j < |waits| && waits[j] == Elapsed
    ensures r == Succeeded <==> made > 0 && calls[made - 1] == Success
    ensures retries != FOREVER ==> made <= if retries > 1 then retries else 1
    ensures made > 0 && r.Gave? ==> Reason(retries, calls, waits, made, r.error)
    ensures made > 0 && r.Gave? ==> fe != null && fresh(fe) && fe.Valid() && fe.mainErr == r.error
    ensures made > 0 && r.Gave? && calls[0].Temporary? ==>
              RingOk(ebo.keepErrs, fe.others, fe.last, ErrorsOf(calls[..made]))
    ensures made > 0 && r.Gave? && calls[0].Fatal? ==> fe.others == [calls[0].err]
    ensures r == Unfinished && made > 0 ==>
              && calls[made - 1].Temporary? && (retries == FOREVER || made < retries)
              && (made - 1 >= |waits| || (waits[made - 1] == Elapsed && made == |calls|))
    ensures |waited| == if made == 0 then 0 else if EndsInWait(retries, calls, waits, made) then made else made - 1
    ensures WaitsAreRight(ebo, draw, waited)
  {
    hide NextWait, WaitIsRight, WaitsAreRight, RingOk, InOrder, Latest, ErrorsOf;
    made, fe, waited := 0, null, [];
    NoneAreRight(ebo, draw);
    if ctxErr.Some? {
      return Gave(ctxErr.value), 0, null, [];
    }
    if calls == [] {
      return Unfinished, 0, null, [];
    }
    made := 1;
    ErrorsOfMore(calls, 0);
    if calls[0] == Success {
      return Succeeded, 1, null, [];
    }
    fe := new FError(calls[0].err, ebo.keepErrs);
    if calls[0].Fatal? {
      return Gave(RetriesExceeded), 1, fe, [];
    }
    var b := ebo.(max := if ebo.max <= 0 then MAX_INT64 else ebo.max,
                  backOff := if ebo.backOff <= 0 then 1 else ebo.backOff);
    var attempt := 1;
    while retries == FOREVER || attempt < retries
      invariant 1 <= attempt == made <= |calls|
      invariant fe != null && fresh(fe) && fe.Valid() && fe.max == ebo.keepErrs
      invariant forall j :: 0 <= j < made ==> calls[j].Temporary?
      invariant forall j :: 0 <= j < made - 1 ==> j < |waits| && waits[j] == Elapsed
      invariant fe.added == ErrorsOf(calls[..made])
      invariant retries != FOREVER ==> made <= if retries > 1 then retries else 1
      invariant |waited| == made - 1
      invariant WaitsAreRight(ebo, draw, waited)
      decreases |calls| - made
    {
      if made - 1 >= |waits| {
        return Unfinished, made, fe, waited;
      }
      var wait := NextWait(b, attempt, draw(attempt));
      NextWaitIsRight(ebo, attempt, draw(attempt));
      OneMoreIsRight(ebo, draw, waited, wait);
      if waits[made - 1] == PastDeadline {
        fe.mainErr := WaitExceedsDeadline;
        return Gave(WaitExceedsDeadline), made, fe, waited;
      }
      waited := waited + [wait];
      if waits[made - 1].Cancelled? {
        fe.mainErr := waits[made - 1].err;
        return Gave(fe.mainErr), made, fe, waited;
      }
      if made == |calls| {
        return Unfinished, made, fe, waited;
      }
      var result := calls[made];
      ErrorsOfMore(calls, made);
      made := made + 1;
      if result == Success {
        return Succeeded, made, fe, waited;
      }
      if result.Fatal? {
        fe.mainErr := result.err;
        return Gave(result.err), made, fe, waited;
      }
      fe.AddErr(result.err);
      attempt := attempt + 1;
    }
    fe.mainErr := RetriesExceeded;
    return Gave(RetriesExceeded), made, fe, waited;
  }
}
