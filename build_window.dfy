/**
 * Which builds a trend graph covers: the `Range` of positions (builds are
 * numbered by position, from the size of the build list for the first build
 * iterated down to 1 for the last), an optional step on the build number,
 * and `getFirstAndLastBuild`, which derives the range from the user's graph
 * configuration.
 */
module BuildWindow {
  import opened Wrappers

  function Abs(x: int): int {
    if x < 0 then -x else x
  }

  /** Java's `%` on int: the remainder takes the sign of the dividend. */
  function JavaRem(a: int, b: int): (r: int)
    requires b != 0
    ensures a >= 0 ==> 0 <= r < Abs(b)
    ensures a < 0 ==> -Abs(b) < r <= 0
  {
    if a >= 0 then a % Abs(b) else -((-a) % Abs(b))
  }

  /** Java's remainder is zero exactly when the divisor divides the dividend. */
  lemma JavaRemZeroIffDivides(a: int, b: int)
    requires b != 0
    ensures JavaRem(a, b) == 0 <==> a % Abs(b) == 0
  {
    if a < 0 {
      if a % Abs(b) == 0 {
        NegatedMultiple(a, Abs(b));
      }
      if (-a) % Abs(b) == 0 {
        NegatedMultiple(-a, Abs(b));
      }
    }
  }

  /** The negation of a multiple of `b` is one too. */
  lemma NegatedMultiple(x: int, b: int)
    requires b > 0 && x % b == 0
    ensures (-x) % b == 0
  {
    var q := x / b;
    assert x == b * q;
    assert -x == b * (-q);
    ModOfMultiple(-q, b);
  }

  /** A positive multiple of `b` is at least `b`, so a multiple of `b` below `b` in magnitude is zero. */
  lemma MulAtLeastFactor(b: int, k: int)
    requires b > 0 && k >= 1
    ensures b * k >= b
  {
    var rest := b * (k - 1);
    assert rest >= 0;
    assert b * k == rest + b;
  }

  /** A multiple of `b` leaves no Euclidean remainder. */
  lemma ModOfMultiple(q: int, b: int)
    requires b > 0
    ensures (b * q) % b == 0
  {
    var x := b * q;
    var d := x / b;
    var r := x % b;
    var k := q - d;
    assert x == b * d + r && 0 <= r < b;
    assert b * q == b * d + b * k;
    assert b * k == r;
    if k >= 1 {
      MulAtLeastFactor(b, k);
    } else if k <= -1 {
      MulAtLeastFactor(b, -k);
    }
  }

  /**
   * PerformanceProjectAction.Range: the positions `first..last` and the step
   * a build number must be a multiple of.
   */
  datatype Range = Range(first: int, last: int, step: int) {

    /** `in(n)`: position `n` lies inside the window; a window holding any position is non-empty. */
    predicate In(n: int)
      ensures In(n) ==> first <= last
    {
      n <= last && first <= n
    }

    /**
     * `includedByStep(b)`: Java's `b % step == 0`, true exactly when the
     * step divides the build number, whatever the signs.
     */
    predicate IncludedByStep(buildNumber: int)
      requires step != 0
      ensures IncludedByStep(buildNumber) <==> buildNumber % Abs(step) == 0
    {
      JavaRemZeroIffDivides(buildNumber, step);
      JavaRem(buildNumber, step) == 0
    }
  }

  /** The two-argument constructor: step 1. */
  function Window(first: int, last: int): (r: Range)
    ensures r.first == first && r.last == last && r.step == 1
    ensures forall n :: r.IncludedByStep(n)
  {
    Range(first, last, 1)
  }

  /** `all(builds)`: every position of a list of `size` builds. */
  function All(size: nat): (r: Range)
    ensures r.step == 1
    ensures forall n :: r.In(n) <==> 1 <= n <= size
  {
    Window(1, size)
  }

  /** How many positions a window holds. */
  function PositionCount(w: Range): nat {
    if w.last >= w.first then w.last - w.first + 1 else 0
  }

  /** Count mode with a positive count: the `count` highest positions, `min(count, size)` of them. */
  function CountWindow(count: int, size: nat): (r: Range)
    requires count > 0
    ensures r.last == size && r.step == 1
    ensures r.first == if size - count + 1 > 1 then size - count + 1 else 1
    ensures forall n :: r.In(n) <==> 1 <= n && size - count < n <= size
    ensures PositionCount(r) == if count < size then count else size
  {
    var first := size - count;
    Window(if first > 0 then first + 1 else 1, size)
  }

  /** The user's graph configuration (GraphConfigurationDetail), one variant per mode. */
  datatype GraphConfig =
    | NoneMode
    | BuildCount(count: int)
    | BuildNth(step: int)
    | DateRange(defaultDates: bool, firstDate: int, lastDate: int)
    | Unsupported(configType: string)

  /** The IllegalArgumentException thrown for any other mode. */
  datatype ConfigError = UnsupportedConfigType(configType: string)

  /** The smallest position whose timestamp is strictly after `firstDate`, or -1. */
  function FirstAfter(stamps: seq<int>, firstDate: int): (r: int)
    ensures r == -1 || 1 <= r <= |stamps|
    decreases |stamps|
  {
    if stamps == [] then -1
    else if firstDate < stamps[|stamps| - 1] then 1
    else
      var r := FirstAfter(stamps[..|stamps| - 1], firstDate);
      if r == -1 then -1 else r + 1
  }

  /** The largest position whose timestamp is strictly before `lastDate`, or -1. */
  function LastBefore(stamps: seq<int>, lastDate: int): (r: int)
    ensures r == -1 || 1 <= r <= |stamps|
    decreases |stamps|
  {
    if stamps == [] then -1
    else if stamps[0] < lastDate then |stamps|
    else LastBefore(stamps[1..], lastDate)
  }

  /**
   * FirstAfter is what its name says: with the build at index `i` at
   * position `|stamps| - i`, it is -1 when no build is after `firstDate`, and
   * otherwise the position of a build after `firstDate` with none after it
   * at a smaller position.
   */
  lemma {:induction false} FirstAfterIsSmallestPosition(stamps: seq<int>, firstDate: int)
    ensures var r := FirstAfter(stamps, firstDate);
      && (r == -1 <==> forall i :: 0 <= i < |stamps| ==> stamps[i] <= firstDate)
      && (r != -1 ==> firstDate < stamps[|stamps| - r])
      && (r != -1 ==> forall i :: |stamps| - r < i < |stamps| ==> stamps[i] <= firstDate)
    decreases |stamps|
  {
    if stamps != [] && stamps[|stamps| - 1] <= firstDate {
      var init := stamps[..|stamps| - 1];
      FirstAfterIsSmallestPosition(init, firstDate);
      assert forall i :: 0 <= i < |init| ==> init[i] == stamps[i];
    }
  }

  /**
   * LastBefore is what its name says: -1 when no build is before `lastDate`,
   * otherwise the position of a build before `lastDate` with none before it
   * at a larger position.
   */
  lemma {:induction false} LastBeforeIsLargestPosition(stamps: seq<int>, lastDate: int)
    ensures var r := LastBefore(stamps, lastDate);
      && (r == -1 <==> forall i :: 0 <= i < |stamps| ==> lastDate <= stamps[i])
      && (r != -1 ==> stamps[|stamps| - r] < lastDate)
      && (r != -1 ==> forall i :: 0 <= i < |stamps| - r ==> lastDate <= stamps[i])
    decreases |stamps|
  {
    if stamps != [] && lastDate <= stamps[0] {
      var tail := stamps[1..];
      LastBeforeIsLargestPosition(tail, lastDate);
      assert forall i :: 0 < i < |stamps| ==> stamps[i] == tail[i - 1];
    }
  }

  /**
   * The date-mode scan: `first` is overwritten by every build after
   * `firstDate` (so the last one iterated, the smallest position, wins);
   * `last` is set only once, by the first build before `lastDate`.
   */
  method DateWindow(stamps: seq<int>, firstDate: int, lastDate: int) returns (first: int, last: int)
    ensures first == FirstAfter(stamps, firstDate)
    ensures last == LastBefore(stamps, lastDate)
  {
    first, last := -1, -1;
    var position := |stamps|;
    var i := 0;
    assert stamps[..0] == [];
    while i < |stamps|
      invariant 0 <= i <= |stamps| && position == |stamps| - i
      invariant var f := FirstAfter(stamps[..i], firstDate);
        first == if f == -1 then -1 else f + position
      invariant last == -1 || 1 <= last
      invariant last == -1 ==> LastBefore(stamps, lastDate) == LastBefore(stamps[i..], lastDate)
      invariant last != -1 ==> last == LastBefore(stamps, lastDate)
    {
      assert stamps[..i + 1][..i] == stamps[..i];
      assert stamps[i..][0] == stamps[i] && stamps[i..][1..] == stamps[i + 1..];
      if firstDate < stamps[i] {
        first := position;
      }
      if last < 0 && stamps[i] < lastDate {
        last := position;
      }
      position := position - 1;
      i := i + 1;
    }
    assert stamps[..i] == stamps;
  }

  /** The window `getFirstAndLastBuild` returns for a list of builds with these timestamps. */
  function WindowFor(conf: GraphConfig, stamps: seq<int>): (r: Result<Range, ConfigError>)
    ensures r.Err? <==> conf.Unsupported?
    ensures r.Err? ==> r.error == UnsupportedConfigType(conf.configType)
    ensures r.Ok? ==> r.value.step >= 1
    ensures conf.NoneMode? ==> r == Ok(All(|stamps|))
    ensures conf.BuildCount? && conf.count <= 0 ==> r == Ok(All(|stamps|))
    ensures conf.BuildCount? && conf.count > 0 ==>
      r.Ok? && r.value.last == |stamps| && forall n :: r.value.In(n) <==> 1 <= n && |stamps| - conf.count < n <= |stamps|
    ensures conf.BuildNth? ==> r == Ok(Range(1, |stamps|, if conf.step <= 0 then 1 else conf.step))
    ensures conf.DateRange? && conf.defaultDates ==> r == Ok(All(|stamps|))
    ensures conf.DateRange? && !conf.defaultDates ==>
      r == Ok(Window(FirstAfter(stamps, conf.firstDate), LastBefore(stamps, conf.lastDate)))
  {
    match conf
    case NoneMode => Ok(All(|stamps|))
    case BuildCount(count) => if count <= 0 then Ok(All(|stamps|)) else Ok(CountWindow(count, |stamps|))
    case BuildNth(step) => if step <= 0 then Ok(All(|stamps|)) else Ok(Range(1, |stamps|, step))
    case DateRange(defaultDates, firstDate, lastDate) =>
      if defaultDates then Ok(All(|stamps|))
      else Ok(Window(FirstAfter(stamps, firstDate), LastBefore(stamps, lastDate)))
    case Unsupported(configType) => Err(UnsupportedConfigType(configType))
  }

  /** `getFirstAndLastBuild`, with the date-mode scan as a loop. */
  method FirstAndLastBuild(conf: GraphConfig, stamps: seq<int>) returns (r: Result<Range, ConfigError>)
    ensures r == WindowFor(conf, stamps)
  {
    match conf {
      case NoneMode =>
        return Ok(All(|stamps|));
      case BuildCount(count) =>
        if count <= 0 {
          return Ok(All(|stamps|));
        }
        var first := |stamps| - count;
        return Ok(Window(if first > 0 then first + 1 else 1, |stamps|));
      case BuildNth(step) =>
        if step <= 0 {
          return Ok(All(|stamps|));
        }
        return Ok(Range(1, |stamps|, step));
      case DateRange(defaultDates, firstDate, lastDate) =>
        if defaultDates {
          return Ok(All(|stamps|));
        }
        var first, last := DateWindow(stamps, firstDate, lastDate);
        return Ok(Window(first, last));
      case Unsupported(configType) =>
        return Err(UnsupportedConfigType(configType));
    }
  }
}
