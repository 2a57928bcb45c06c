/** internal/server/ratelimit.go: one token bucket per key. Times are seconds and
    token counts are reals; rounding is not modelled. */
module RateLimit {
  import opened Wrappers

  datatype Level = Level(tokens: real, last: real)
  datatype Rate = Rate(perSec: real, burst: real)

  function RateOf(perMin: int): Rate {
    Rate(perMin as real / 60.0, if perMin as real < 1.0 then 1.0 else perMin as real)
  }

  /** Limiting is on: the bucket holds at least one token and refills. */
  predicate Limits(c: Rate) { c.perSec > 0.0 && c.burst >= 1.0 }

  lemma PositiveLimits(perMin: int)
    ensures Limits(RateOf(perMin)) <==> perMin > 0
  {}

  /** The tokens a bucket earns in the given time. */
  function Earned(c: Rate, elapsed: real): real { elapsed * c.perSec }

  lemma EarnedNonNegative(c: Rate, elapsed: real)
    requires c.perSec > 0.0 && elapsed >= 0.0
    ensures Earned(c, elapsed) >= 0.0
  {}

  lemma EarnedAdds(c: Rate, x: real, y: real)
    ensures Earned(c, x + y) == Earned(c, x) + Earned(c, y)
  {}

  lemma EarnedOne(c: Rate, elapsed: real)
    requires c.perSec > 0.0 && elapsed >= 1.0 / c.perSec
    ensures Earned(c, elapsed) >= 1.0
  {
    assert (1.0 / c.perSec) * c.perSec == 1.0;
  }

  /** The tokens there are at time now, before the call takes one. */
  function Refilled(c: Rate, b: Option<Level>, now: real): real {
    match b
    case None => c.burst
    case Some(l) =>
      var t := l.tokens + Earned(c, now - l.last);
      if t > c.burst then c.burst else t
  }

  /** One call on one key. */
  function Take(c: Rate, b: Option<Level>, now: real): (Level, bool) {
    var t := Refilled(c, b, now);
    if t < 1.0 then (Level(t, now), false) else (Level(t - 1.0, now), true)
  }

  function At(levels: map<string, Level>, key: string): Option<Level> {
    if key in levels then Some(levels[key]) else None
  }

  function AllowNext(c: Rate, levels: map<string, Level>, key: string, now: real): (map<string, Level>, bool) {
    if c.perSec <= 0.0 then (levels, true)
    else
      var (l, ok) := Take(c, At(levels, key), now);
      (levels[key := l], ok)
  }

  class Bucket {
    var tokens: real
    var last: real

    constructor (tokens: real, last: real)
      ensures this.tokens == tokens && this.last == last
    {
      this.tokens, this.last := tokens, last;
    }

    ghost function Value(): Level reads this { Level(tokens, last) }

    /** Refills the bucket up to now, then takes one token if there is one. */
    method Spend(rate: Rate, now: real) returns (ok: bool)
      modifies this
      ensures (Value(), ok) == Take(rate, Some(old(Value())), now)
    {
      tokens := tokens + Earned(rate, now - last);
      if tokens > rate.burst {
        tokens := rate.burst;
      }
      last := now;
      if tokens < 1.0 {
        return false;
      }
      tokens := tokens - 1.0;
      ok := true;
    }
  }

  class Limiter {
    const rate: Rate
    var buckets: map<string, Bucket>

    /** Buckets are never shared between keys. */
    ghost predicate Valid()
      reads this
    {
      forall j, k | j in buckets && k in buckets && j != k :: buckets[j] != buckets[k]
    }

    ghost function Levels(): map<string, Level>
      reads this, buckets.Values
    {
      map k | k in buckets :: buckets[k].Value()
    }

    constructor NewLimiter(perMin: int)
      ensures Valid() && rate == RateOf(perMin) && Levels() == map[]
    {
      var perSec := perMin as real / 60.0;
      var burst := perMin as real;
      if burst < 1.0 {
        burst := 1.0;
      }
      rate := Rate(perSec, burst);
      buckets := map[];
    }

    /** Consumes one token of the key's bucket if there is one. */
    method Allow(key: string, now: real) returns (ok: bool)
      requires Valid()
      modifies this, buckets.Values
      ensures Valid()
      ensures forall b: Bucket | b in buckets.Values :: b in old(buckets.Values) || fresh(b)
      ensures (Levels(), ok) == AllowNext(rate, old(Levels()), key, now)
    {
      if rate.perSec <= 0.0 {
        return true;
      }
      if key !in buckets {
        var created := new Bucket(rate.burst, now);
        buckets := buckets[key := created];
      }
      ok := buckets[key].Spend(rate, now);
      assert Levels() == AllowNext(rate, old(Levels()), key, now).0;
    }
  }

  // ---- runs of calls on one key ----

  function Final(c: Rate, b: Option<Level>, ts: seq<real>): Option<Level>
    decreases ts
  {
    if ts == [] then b else Final(c, Some(Take(c, b, ts[0]).0), ts[1..])
  }

  /** How many of the calls at times ts are allowed. */
  function Granted(c: Rate, b: Option<Level>, ts: seq<real>): nat
    decreases ts
  {
    if ts == [] then 0
    else (if Take(c, b, ts[0]).1 then 1 else 0) + Granted(c, Some(Take(c, b, ts[0]).0), ts[1..])
  }

  ghost predicate NonDecreasing(ts: seq<real>) {
    forall i, j | 0 <= i < j < |ts| :: ts[i] <= ts[j]
  }

  /** A bucket holds between nothing and a full burst, and has seen no time past now. */
  ghost predicate Sane(c: Rate, b: Option<Level>, now: real) {
    b.Some? ==> 0.0 <= b.value.tokens <= c.burst && b.value.last <= now
  }

  lemma TakeSane(c: Rate, b: Option<Level>, now: real)
    requires Limits(c) && Sane(c, b, now)
    ensures Sane(c, Some(Take(c, b, now).0), now)
    ensures Take(c, b, now).0.last == now
  {
    if b.Some? {
      EarnedNonNegative(c, now - b.value.last);
    }
  }

  lemma {:induction false} FinalSane(c: Rate, b: Option<Level>, ts: seq<real>, now: real)
    requires Limits(c) && NonDecreasing(ts + [now]) && Sane(c, b, (ts + [now])[0])
    ensures Sane(c, Final(c, b, ts), now)
    decreases ts
  {
    if ts != [] {
      TakeSane(c, b, ts[0]);
      assert (ts + [now])[1..] == ts[1..] + [now];
      assert ts[0] <= (ts[1..] + [now])[0] by {
        assert (ts + [now])[0] <= (ts + [now])[1];
      }
      FinalSane(c, Some(Take(c, b, ts[0]).0), ts[1..], now);
    }
  }

  /** One call hands out no more than was there or has been refilled since. */
  lemma TakeConserves(c: Rate, l: Level, now: real)
    requires Limits(c) && 0.0 <= l.tokens <= c.burst && l.last <= now
    ensures var (l', ok) := Take(c, Some(l), now);
            l'.last == now && 0.0 <= l'.tokens <= c.burst
            && (if ok then 1.0 else 0.0) + l'.tokens <= l.tokens + Earned(c, now - l.last)
  {
    EarnedNonNegative(c, now - l.last);
  }

  /** The time of the last call, or start if there is none. */
  function LastTime(start: real, ts: seq<real>): real {
    if ts == [] then start else ts[|ts| - 1]
  }

  /** Tokens are conserved: what a run of calls hands out was in the bucket or refilled. */
  lemma {:induction false} Conservation(c: Rate, l: Level, ts: seq<real>)
    requires Limits(c) && NonDecreasing([l.last] + ts) && 0.0 <= l.tokens <= c.burst
    ensures Granted(c, Some(l), ts) as real <= l.tokens + Earned(c, LastTime(l.last, ts) - l.last)
    decreases ts
  {
    if ts == [] {
      assert Earned(c, 0.0) == 0.0;
    } else {
      var t, end := ts[0], LastTime(l.last, ts);
      assert l.last <= t by { assert ([l.last] + ts)[0] <= ([l.last] + ts)[1]; }
      TakeConserves(c, l, t);
      var (l', ok) := Take(c, Some(l), t);
      assert [l'.last] + ts[1..] == ts == ([l.last] + ts)[1..];
      Conservation(c, l', ts[1..]);
      assert LastTime(l'.last, ts[1..]) == end;
      EarnedAdds(c, t - l.last, end - t);
      GrantedNext(c, Some(l), ts);
    }
  }

  lemma GrantedNext(c: Rate, b: Option<Level>, ts: seq<real>)
    requires ts != []
    ensures var (l, ok) := Take(c, b, ts[0]);
            Granted(c, b, ts) as real == (if ok then 1.0 else 0.0) + Granted(c, Some(l), ts[1..]) as real
  {}

  /** The rate bound: over any contiguous run of the calls on one key, at most burst
      plus perSec times the elapsed time are allowed. */
  lemma WindowBound(c: Rate, ts: seq<real>, i: nat, j: nat)
    requires Limits(c) && NonDecreasing(ts) && i < j <= |ts|
    ensures Granted(c, Final(c, None, ts[..i]), ts[i..j]) as real <= c.burst + Earned(c, ts[j-1] - ts[i])
  {
    assert ts[..i] + [ts[i]] == ts[..i+1];
    FinalSane(c, None, ts[..i], ts[i]);
    WindowFrom(c, Final(c, None, ts[..i]), ts[i..j]);
  }

  lemma WindowFrom(c: Rate, b: Option<Level>, ts: seq<real>)
    requires Limits(c) && NonDecreasing(ts) && ts != [] && Sane(c, b, ts[0])
    ensures Granted(c, b, ts) as real <= c.burst + Earned(c, ts[|ts|-1] - ts[0])
  {
    TakeSane(c, b, ts[0]);
    var (l, ok) := Take(c, b, ts[0]);
    assert (if ok then 1.0 else 0.0) + l.tokens <= c.burst;
    assert [l.last] + ts[1..] == ts;
    assert LastTime(l.last, ts[1..]) == ts[|ts|-1];
    Conservation(c, l, ts[1..]);
  }

  /** A call at least 1/perSec after the previous one on its key is never refused,
      whatever happened before. */
  lemma SpacedCallGranted(c: Rate, ts: seq<real>, now: real)
    requires Limits(c) && NonDecreasing(ts)
    requires ts != [] ==> now - ts[|ts|-1] >= 1.0 / c.perSec
    ensures Take(c, Final(c, None, ts), now).1
  {
    if ts != [] {
      var n := |ts| - 1;
      assert ts[..n] + [ts[n]] == ts;
      FinalSane(c, None, ts[..n], ts[n]);
      FinalSnoc(c, None, ts);
      TakeSane(c, Final(c, None, ts[..n]), ts[n]);
      SpacedTake(c, Final(c, None, ts).value, now);
    }
  }

  lemma SpacedTake(c: Rate, l: Level, now: real)
    requires Limits(c) && 0.0 <= l.tokens && now - l.last >= 1.0 / c.perSec
    ensures Take(c, Some(l), now).1
  {
    EarnedOne(c, now - l.last);
  }

  lemma {:induction false} FinalSnoc(c: Rate, b: Option<Level>, ts: seq<real>)
    requires ts != []
    ensures Final(c, b, ts) == Some(Take(c, Final(c, b, ts[..|ts|-1]), ts[|ts|-1]).0)
    decreases ts
  {
    if |ts| > 1 {
      assert ts[1..][..|ts|-2] == ts[..|ts|-1][1..];
      FinalSnoc(c, Some(Take(c, b, ts[0]).0), ts[1..]);
    }
  }

  /** The bound is met: a fresh bucket allows a whole burst at one instant. */
  lemma {:induction false} BurstAttained(c: Rate, tokens: real, now: real, n: nat)
    requires Limits(c) && n as real <= tokens <= c.burst
    ensures Granted(c, Some(Level(tokens, now)), seq(n, i => now)) == n
  {
    if n > 0 {
      assert seq(n, i => now)[1..] == seq(n - 1, i => now);
      BurstAttained(c, tokens - 1.0, now, n - 1);
    }
  }

  // ---- interleaved calls on many keys ----

  datatype Call = Call(key: string, time: real)

  function LevelsAfter(c: Rate, levels: map<string, Level>, calls: seq<Call>): map<string, Level>
    decreases calls
  {
    if calls == [] then levels
    else LevelsAfter(c, AllowNext(c, levels, calls[0].key, calls[0].time).0, calls[1..])
  }

  /** The verdicts on one key's calls in an interleaved run. */
  function Verdicts(c: Rate, levels: map<string, Level>, calls: seq<Call>, key: string): seq<bool>
    decreases calls
  {
    if calls == [] then []
    else
      var (next, ok) := AllowNext(c, levels, calls[0].key, calls[0].time);
      (if calls[0].key == key then [ok] else []) + Verdicts(c, next, calls[1..], key)
  }

  function TimesOn(calls: seq<Call>, key: string): seq<real> {
    if calls == [] then []
    else (if calls[0].key == key then [calls[0].time] else []) + TimesOn(calls[1..], key)
  }

  function VerdictsAlone(c: Rate, b: Option<Level>, ts: seq<real>): seq<bool>
    decreases ts
  {
    if ts == [] then []
    else [Take(c, b, ts[0]).1] + VerdictsAlone(c, Some(Take(c, b, ts[0]).0), ts[1..])
  }

  /** Keys do not affect each other: a key's verdicts and bucket in any interleaving
      are those of its own calls alone. */
  lemma {:induction false} KeysIndependent(c: Rate, levels: map<string, Level>, calls: seq<Call>, key: string)
    requires c.perSec > 0.0
    ensures Verdicts(c, levels, calls, key) == VerdictsAlone(c, At(levels, key), TimesOn(calls, key))
    ensures At(LevelsAfter(c, levels, calls), key) == Final(c, At(levels, key), TimesOn(calls, key))
    decreases calls
  {
    if calls != [] {
      var next := AllowNext(c, levels, calls[0].key, calls[0].time).0;
      KeysIndependent(c, next, calls[1..], key);
      if calls[0].key == key {
        assert TimesOn(calls, key)[1..] == TimesOn(calls[1..], key);
      } else {
        assert TimesOn(calls, key) == TimesOn(calls[1..], key);
        assert At(next, key) == At(levels, key);
      }
    }
  }

  /** How many verdicts are granted. */
  function Count(verdicts: seq<bool>): nat {
    if verdicts == [] then 0 else (if verdicts[0] then 1 else 0) + Count(verdicts[1..])
  }

  lemma {:induction false} CountAlone(c: Rate, b: Option<Level>, ts: seq<real>)
    ensures |VerdictsAlone(c, b, ts)| == |ts| && Count(VerdictsAlone(c, b, ts)) == Granted(c, b, ts)
    decreases ts
  {
    if ts != [] {
      var (l, ok) := Take(c, b, ts[0]);
      CountAlone(c, Some(l), ts[1..]);
      assert VerdictsAlone(c, b, ts)[1..] == VerdictsAlone(c, Some(l), ts[1..]);
    }
  }

  lemma {:induction false} VerdictsSplit(c: Rate, b: Option<Level>, xs: seq<real>, ys: seq<real>)
    ensures VerdictsAlone(c, b, xs + ys) == VerdictsAlone(c, b, xs) + VerdictsAlone(c, Final(c, b, xs), ys)
    decreases xs
  {
    if xs == [] {
      assert xs + ys == ys;
    } else {
      assert (xs + ys)[0] == xs[0] && (xs + ys)[1..] == xs[1..] + ys;
      VerdictsSplit(c, Some(Take(c, b, xs[0]).0), xs[1..], ys);
    }
  }

  /** The verdicts of a window are those of a bucket that has served the calls before it. */
  lemma WindowVerdicts(c: Rate, ts: seq<real>, i: nat, j: nat)
    requires i < j <= |ts|
    ensures |VerdictsAlone(c, None, ts)| == |ts|
    ensures Count(VerdictsAlone(c, None, ts)[i..j]) == Granted(c, Final(c, None, ts[..i]), ts[i..j])
  {
    var before, window := ts[..i], ts[i..j];
    assert ts == before + window + ts[j..];
    VerdictsSplit(c, None, before + window, ts[j..]);
    VerdictsSplit(c, None, before, window);
    CountAlone(c, None, before);
    CountAlone(c, None, ts);
    CountAlone(c, Final(c, None, before), window);
    assert VerdictsAlone(c, None, ts)[i..j] == VerdictsAlone(c, Final(c, None, before), window);
  }

  /** The rate bound as a caller meets it: however the calls on other keys fall in between,
      of a key's calls from the i-th to before the j-th at most burst plus perSec times the
      time they took are granted. */
  lemma InterleavedBound(c: Rate, calls: seq<Call>, key: string, i: nat, j: nat)
    requires Limits(c) && NonDecreasing(TimesOn(calls, key)) && i < j <= |TimesOn(calls, key)|
    ensures var ts, verdicts := TimesOn(calls, key), Verdicts(c, map[], calls, key);
            |verdicts| == |ts| && Count(verdicts[i..j]) as real <= c.burst + Earned(c, ts[j-1] - ts[i])
  {
    KeysIndependent(c, map[], calls, key);
    WindowVerdicts(c, TimesOn(calls, key), i, j);
    WindowBound(c, TimesOn(calls, key), i, j);
  }

  /** However the calls on other keys fall in between, a call at least 1/perSec after the
      previous one on its own key is never refused, nor is the first. */
  lemma InterleavedSpaced(c: Rate, calls: seq<Call>, key: string, i: nat)
    requires Limits(c) && NonDecreasing(TimesOn(calls, key)) && i < |TimesOn(calls, key)|
    requires i > 0 ==> TimesOn(calls, key)[i] - TimesOn(calls, key)[i-1] >= 1.0 / c.perSec
    ensures i < |Verdicts(c, map[], calls, key)| && Verdicts(c, map[], calls, key)[i]
  {
    var ts := TimesOn(calls, key);
    KeysIndependent(c, map[], calls, key);
    CountAlone(c, None, ts);
    CountAlone(c, None, ts[..i]);
    assert ts == ts[..i] + ts[i..];
    VerdictsSplit(c, None, ts[..i], ts[i..]);
    SpacedCallGranted(c, ts[..i], ts[i]);
  }

  // ---- exactly which calls are refused ----

  lemma {:induction false} CountSnoc(verdicts: seq<bool>, ok: bool)
    ensures Count(verdicts + [ok]) == Count(verdicts) + if ok then 1 else 0
  {
    if verdicts == [] {
      assert verdicts + [ok] == [ok];
    } else {
      assert (verdicts + [ok])[1..] == verdicts[1..] + [ok];
      CountSnoc(verdicts[1..], ok);
    }
  }

  lemma {:induction false} CountAtMost(verdicts: seq<bool>)
    ensures Count(verdicts) <= |verdicts|
  {
    if verdicts != [] { CountAtMost(verdicts[1..]); }
  }

  /** The tokens there are at the i-th call on a key. */
  function TokensAt(c: Rate, ts: seq<real>, i: nat): real
    requires i < |ts|
  {
    Refilled(c, Final(c, None, ts[..i]), ts[i])
  }

  /** A full burst at the h-th call, refilled since, less what was granted since. */
  function Left(c: Rate, ts: seq<real>, verdicts: seq<bool>, h: nat, i: nat): real
    requires h <= i < |ts| == |verdicts|
  {
    c.burst + Earned(c, ts[i] - ts[h]) - Count(verdicts[h..i]) as real
  }

  lemma CallVerdict(c: Rate, ts: seq<real>, i: nat)
    requires i < |ts|
    ensures var verdicts := VerdictsAlone(c, None, ts);
            |verdicts| == |ts| && verdicts[i] == (TokensAt(c, ts, i) >= 1.0)
  {
    CountAlone(c, None, ts);
    CountAlone(c, None, ts[..i]);
    assert ts == ts[..i] + ts[i..];
    VerdictsSplit(c, None, ts[..i], ts[i..]);
  }

  /** From one call to the next. */
  lemma TokensStep(c: Rate, ts: seq<real>, i: nat)
    requires i + 1 < |ts|
    ensures var t := TokensAt(c, ts, i);
            var t' := (if t >= 1.0 then t - 1.0 else t) + Earned(c, ts[i+1] - ts[i]);
            TokensAt(c, ts, i + 1) == if t' > c.burst then c.burst else t'
  {
    assert ts[..i+1][..i] == ts[..i];
    FinalSnoc(c, None, ts[..i+1]);
  }

  lemma LeftStep(c: Rate, ts: seq<real>, verdicts: seq<bool>, h: nat, i: nat)
    requires h <= i && i + 1 < |ts| == |verdicts|
    ensures Left(c, ts, verdicts, h, i + 1) ==
              Left(c, ts, verdicts, h, i) - (if verdicts[i] then 1.0 else 0.0) + Earned(c, ts[i+1] - ts[i])
  {
    assert verdicts[h..i+1] == verdicts[h..i] + [verdicts[i]];
    CountSnoc(verdicts[h..i], verdicts[i]);
    EarnedAdds(c, ts[i] - ts[h], ts[i+1] - ts[i]);
    assert ts[i+1] - ts[h] == (ts[i] - ts[h]) + (ts[i+1] - ts[i]);
  }

  /** The tokens at a call are what is left of a full burst since the worst moment: h. */
  lemma {:induction false} WorstWindow(c: Rate, ts: seq<real>, i: nat) returns (h: nat)
    requires i < |ts| == |VerdictsAlone(c, None, ts)|
    ensures h <= i && TokensAt(c, ts, i) == Left(c, ts, VerdictsAlone(c, None, ts), h, i)
    ensures forall k: nat | k <= i :: TokensAt(c, ts, i) <= Left(c, ts, VerdictsAlone(c, None, ts), k, i)
  {
    var verdicts := VerdictsAlone(c, None, ts);
    assert Earned(c, ts[i] - ts[i]) == 0.0 && verdicts[i..i] == [];
    h := i;
    if i == 0 {
      assert ts[..0] == [];
    } else {
      var j := i - 1;
      var k := WorstWindow(c, ts, j);
      CallVerdict(c, ts, j);
      TokensStep(c, ts, j);
      forall k: nat | k <= j ensures TokensAt(c, ts, i) <= Left(c, ts, verdicts, k, i) {
        LeftStep(c, ts, verdicts, k, j);
      }
      LeftStep(c, ts, verdicts, k, j);
      if TokensAt(c, ts, i) != c.burst { h := k; }
    }
  }

  /** From the h-th call up to the i-th, more was granted than the setting less one, and
      what it refills in that time. */
  ghost predicate Overdrawn(perMin: int, ts: seq<real>, verdicts: seq<bool>, h: nat, i: nat)
    requires h <= i < |ts| == |verdicts|
  {
    Count(verdicts[h..i]) as real > perMin as real - 1.0 + (ts[i] - ts[h]) * (perMin as real / 60.0)
  }

  lemma LeftOver(perMin: int, ts: seq<real>, verdicts: seq<bool>, h: nat, i: nat)
    requires perMin > 0 && h <= i < |ts| == |verdicts|
    ensures Left(RateOf(perMin), ts, verdicts, h, i) < 1.0 <==> Overdrawn(perMin, ts, verdicts, h, i)
  {}

  /** However the calls on other keys fall in between, a call is refused if and only if
      some stretch of the calls on its key, from one of them up to this one, was granted
      more than that. */
  lemma RefusedExactly(perMin: int, calls: seq<Call>, key: string, i: nat)
    requires perMin > 0 && i < |TimesOn(calls, key)|
    ensures |Verdicts(RateOf(perMin), map[], calls, key)| == |TimesOn(calls, key)|
    ensures var ts, verdicts := TimesOn(calls, key), Verdicts(RateOf(perMin), map[], calls, key);
            !verdicts[i] <==> exists h: nat :: h <= i && Overdrawn(perMin, ts, verdicts, h, i)
  {
    hide Left, Overdrawn, TokensAt, Earned;
    var c, ts := RateOf(perMin), TimesOn(calls, key);
    KeysIndependent(c, map[], calls, key);
    CallVerdict(c, ts, i);
    var verdicts := VerdictsAlone(c, None, ts);
    var h := WorstWindow(c, ts, i);
    forall k: nat | k <= i ensures Left(c, ts, verdicts, k, i) < 1.0 <==> Overdrawn(perMin, ts, verdicts, k, i) {
      LeftOver(perMin, ts, verdicts, k, i);
    }
  }

  lemma NotOverdrawn(perMin: int, ts: seq<real>, verdicts: seq<bool>, h: nat, i: nat)
    requires h <= i < |ts| == |verdicts| && i < perMin && ts[h] <= ts[i]
    ensures !Overdrawn(perMin, ts, verdicts, h, i)
  {
    CountAtMost(verdicts[h..i]);
    EarnedNonNegative(RateOf(perMin), ts[i] - ts[h]);
  }

  /** So as many first calls on a key as the setting says are granted, however close. */
  lemma FirstCallsGranted(perMin: int, calls: seq<Call>, key: string, i: nat)
    requires NonDecreasing(TimesOn(calls, key)) && i < |TimesOn(calls, key)| && i < perMin
    ensures i < |Verdicts(RateOf(perMin), map[], calls, key)| && Verdicts(RateOf(perMin), map[], calls, key)[i]
  {
    hide Overdrawn;
    var ts, verdicts := TimesOn(calls, key), Verdicts(RateOf(perMin), map[], calls, key);
    RefusedExactly(perMin, calls, key, i);
    if h: nat :| h <= i && Overdrawn(perMin, ts, verdicts, h, i) { NotOverdrawn(perMin, ts, verdicts, h, i); }
  }

  /** A limit of zero or less refuses nothing. */
  lemma {:induction false} ZeroDisables(perMin: int, levels: map<string, Level>, calls: seq<Call>, key: string)
    requires perMin <= 0
    ensures forall i | 0 <= i < |Verdicts(RateOf(perMin), levels, calls, key)| ::
              Verdicts(RateOf(perMin), levels, calls, key)[i]
    ensures LevelsAfter(RateOf(perMin), levels, calls) == levels
  {
    if calls != [] {
      ZeroDisables(perMin, levels, calls[1..], key);
    }
  }
}
