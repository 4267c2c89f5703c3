/** The sliding window that tells a crash loop from a single crash, and the delay before a
    restart. Times are nanoseconds on one clock. */
module CrashWindow {

  type Time = int

  /** The entries after the cutoff, in order. */
  function Younger(s: seq<Time>, cutoff: Time): (r: seq<Time>)
    ensures |r| <= |s|
  {
    if s == [] then []
    else Younger(s[..|s| - 1], cutoff) + (if s[|s| - 1] > cutoff then [s[|s| - 1]] else [])
  }

  predicate Sorted(s: seq<Time>) {
    forall i, j :: 0 <= i < j < |s| ==> s[i] <= s[j]
  }

  lemma YoungerSnoc(s: seq<Time>, x: Time, cutoff: Time)
    ensures Younger(s + [x], cutoff) == Younger(s, cutoff) + (if x > cutoff then [x] else [])
  {
    assert (s + [x])[..|s|] == s;
  }

  lemma YoungerPrefix(s: seq<Time>, i: nat, cutoff: Time)
    requires i < |s|
    ensures Younger(s[..i + 1], cutoff) == Younger(s[..i], cutoff) + (if s[i] > cutoff then [s[i]] else [])
  {
    assert s[..i + 1] == s[..i] + [s[i]];
    YoungerSnoc(s[..i], s[i], cutoff);
  }

  /** Dropping in two goes with a later cutoff is dropping once. */
  lemma {:induction false} YoungerTwice(s: seq<Time>, first: Time, second: Time)
    requires first <= second
    ensures Younger(Younger(s, first), second) == Younger(s, second)
    decreases s
  {
    if s != [] {
      var rest, x := s[..|s| - 1], s[|s| - 1];
      YoungerTwice(rest, first, second);
      YoungerSnoc(Younger(rest, first), x, second);
      assert Younger(rest, first) + [] == Younger(rest, first);
    }
  }

  lemma {:induction false} YoungerAreYoung(s: seq<Time>, cutoff: Time)
    ensures forall i :: 0 <= i < |Younger(s, cutoff)| ==> Younger(s, cutoff)[i] > cutoff
    decreases s
  {
    if s != [] {
      YoungerAreYoung(s[..|s| - 1], cutoff);
    }
  }

  /** In time order the young entries are a suffix. */
  lemma {:induction false} YoungerIsSuffix(s: seq<Time>, cutoff: Time)
    requires Sorted(s)
    ensures Younger(s, cutoff) == s[|s| - |Younger(s, cutoff)|..]
    decreases s
  {
    if s != [] {
      var rest, x := s[..|s| - 1], s[|s| - 1];
      var n := |Younger(rest, cutoff)|;
      YoungerIsSuffix(rest, cutoff);
      YoungerAreYoung(rest, cutoff);
      assert rest[|rest| - n..] + [x] == s[|s| - (n + 1)..];
      assert n > 0 ==> Younger(rest, cutoff)[0] == rest[|rest| - n] == s[|s| - 1 - n];
    }
  }

  lemma {:induction false} YoungAreKept(s: seq<Time>, cutoff: Time, i: nat)
    requires Sorted(s) && i < |s| && s[i] > cutoff
    ensures |Younger(s, cutoff)| >= |s| - i
    decreases s
  {
    if i < |s| - 1 {
      YoungAreKept(s[..|s| - 1], cutoff, i);
    }
  }

  /** A full window means exactly that the limit-th last crash is still young. */
  lemma FullExactlyWhen(history: seq<Time>, cutoff: Time, limit: nat)
    requires Sorted(history) && 1 <= limit <= |history|
    ensures |Younger(history, cutoff)| >= limit <==> history[|history| - limit] > cutoff
  {
    YoungerIsSuffix(history, cutoff);
    YoungerAreYoung(history, cutoff);
    var r := Younger(history, cutoff);
    if |r| >= limit {
      assert r[|r| - limit] == history[|history| - limit];
    }
    if history[|history| - limit] > cutoff {
      YoungAreKept(history, cutoff, |history| - limit);
    }
  }

  /** Filters the first n elements where they are, moving those kept down. */
  method KeepYounger(times: array<Time>, n: nat, cutoff: Time) returns (kept: nat)
    requires n <= times.Length
    modifies times
    ensures kept <= n && times[..kept] == Younger(old(times[..n]), cutoff)
  {
    ghost var before := times[..n];
    kept := 0;
    for i := 0 to n
      invariant kept <= i && kept == |Younger(before[..i], cutoff)|
      invariant forall k :: 0 <= k < kept ==> times[k] == Younger(before[..i], cutoff)[k]
      invariant forall k :: i <= k < n ==> times[k] == before[k]
    {
      var t := times[i];
      YoungerPrefix(before, i, cutoff);
      if t > cutoff {
        times[kept] := t;
        kept := kept + 1;
      }
    }
    assert before[..n] == before;
  }

  class Window {
    /** The slice of crash times: the first count elements of its backing array. */
    var times: array<Time>
    var count: nat
    const limit: int
    const window: int

    /** Every crash recorded, and the cutoff of the last prune. */
    ghost var history: seq<Time>
    ghost var cutoff: Time

    ghost predicate Valid()
      reads this, times
    {
      && count <= times.Length && window > 0
      && times[..count] == Younger(history, cutoff)
    }

    /** The clock never runs backwards. */
    ghost predicate Monotone(now: Time)
      reads this
    {
      Sorted(history) && cutoff <= now - window && (history != [] ==> history[|history| - 1] <= now)
    }

    /** An empty window, for a clock that never reads less than start. */
    constructor (limit: int, window: int, ghost start: Time)
      requires window > 0
      ensures Valid() && fresh(times) && history == [] && this.limit == limit && this.window == window
      ensures forall now :: now >= start ==> Monotone(now)
    {
      times := new Time[0];
      count := 0;
      this.limit := limit;
      this.window := window;
      history, cutoff := [], start - window;
    }

    /** Drops what has aged out. */
    method Prune(now: Time)
      requires Valid() && cutoff <= now - window
      modifies this`count, this`cutoff, times
      ensures Valid() && cutoff == now - window
    {
      YoungerTwice(history, cutoff, now - window);
      count := KeepYounger(times, count, now - window);
      cutoff := now - window;
    }

    method Append(t: Time)
      requires count <= times.Length
      modifies this`times, this`count, times
      ensures count <= times.Length && times[..count] == old(times[..count]) + [t]
      ensures times == old(times) || fresh(times)
    {
      if count == times.Length {
        var bigger := new Time[2 * count + 1];
        for i := 0 to times.Length
          invariant times == old(times) && count == old(count) && times[..] == old(times[..])
          invariant bigger[..i] == times[..i]
        {
          bigger[i] := times[i];
        }
        times := bigger;
      }
      times[count] := t;
      count := count + 1;
    }

    /** Records a crash and reports whether the window is full: whether, of all crashes ever
        recorded, at least limit are younger than the window. */
    method Record(now: Time) returns (full: bool)
      requires Valid() && Monotone(now)
      modifies this`times, this`count, this`cutoff, this`history, times
      ensures Valid() && history == old(history) + [now] && Monotone(now) && cutoff == now - window
      ensures full <==> |Younger(history, now - window)| >= limit
      ensures times == old(times) || fresh(times)
    {
      Prune(now);
      Append(now);
      YoungerSnoc(history, now, cutoff);
      history := history + [now];
      full := count >= limit;
    }

    method Count(now: Time) returns (n: nat)
      requires Valid() && cutoff <= now - window
      modifies this`count, this`cutoff, times
      ensures Valid() && cutoff == now - window
      ensures n == |Younger(history, now - window)|
    {
      Prune(now);
      n := count;
    }
  }

  // ---- Back-off ---------------------------------------------------------------------

  const SECOND: int := 1_000_000_000
  const DEFAULT_RESTART_DELAY: int := 2 * SECOND
  const MAX_RESTART_DELAY: int := 30 * SECOND

  /** Durations are signed 64-bit. */
  type Duration = d: int | -0x8000_0000_0000_0000 <= d < 0x8000_0000_0000_0000

  function Wrap(d: int): (w: Duration)
    ensures -0x8000_0000_0000_0000 <= d < 0x8000_0000_0000_0000 ==> w == d
    ensures (d - w) % 0x1_0000_0000_0000_0000 == 0
  {
    (d + 0x8000_0000_0000_0000) % 0x1_0000_0000_0000_0000 - 0x8000_0000_0000_0000
  }

  function Pow4(n: nat): (p: nat)
    ensures p >= 1
  {
    if n == 0 then 1 else 4 * Pow4(n - 1)
  }

  function Min(a: int, b: int): int { if a < b then a else b }

  function Base(base: Duration): Duration {
    if base <= 0 then DEFAULT_RESTART_DELAY else base
  }

  /** b multiplied by 4, n times over. */
  function Quadrupled(b: nat, n: nat): (r: nat)
  {
    if n == 0 then b else 4 * Quadrupled(b, n - 1)
  }

  lemma {:induction false} QuadrupledIsExponential(b: nat, n: nat)
    ensures Quadrupled(b, n) == b * Pow4(n)
    decreases n
  {
    if n > 0 {
      QuadrupledIsExponential(b, n - 1);
      assert b * Pow4(n) == 4 * (b * Pow4(n - 1));
    }
  }

  lemma {:induction false} QuadrupledGrows(b: nat, n: nat, m: nat)
    requires n <= m
    ensures Quadrupled(b, n) <= Quadrupled(b, m)
    decreases m
  {
    if n < m {
      QuadrupledGrows(b, n, m - 1);
    }
  }

  /** Exponential in the number of failures and capped, as long as the base does not
      overflow when multiplied once; the first delay is the base itself, uncapped. */
  method RestartDelay(base: Duration, consecutive: int) returns (delay: Duration)
    ensures consecutive <= 0 ==> delay == 0
    ensures consecutive == 1 ==> delay == if base <= 0 then 2_000_000_000 else base
    ensures consecutive >= 2 && Base(base) < 0x2000_0000_0000_0000 ==>
              delay == Min(Quadrupled(Base(base), consecutive - 1), 30_000_000_000)
    ensures delay <= 30_000_000_000 <==> consecutive != 1 || Base(base) <= 30_000_000_000
    ensures consecutive >= 2 && Base(base) == 0x4000_0000_0000_0000 ==> delay == 0
  {
    if consecutive <= 0 {
      return 0;
    }
    var b := if base <= 0 then DEFAULT_RESTART_DELAY else base;
    delay := b;
    var i := 1;
    while i < consecutive
      invariant 1 <= i <= consecutive
      invariant i == 1 ==> delay == b
      invariant i > 1 ==> delay < MAX_RESTART_DELAY
      invariant b < 0x2000_0000_0000_0000 ==> delay == Quadrupled(b, i - 1)
      invariant b == 0x4000_0000_0000_0000 && i > 1 ==> delay == 0
    {
      delay := Wrap(delay * 4);
      if delay >= MAX_RESTART_DELAY {
        QuadrupledGrows(b, i, consecutive - 1);
        return MAX_RESTART_DELAY;
      }
      i := i + 1;
    }
  }
}
