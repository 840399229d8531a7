/** XIP-2 time diffusion: the mandatory gaps reserved first, jitter spread over the slack that is left. */
module DiffusionScheduler {
  import opened SplitPlanner
  import opened VenueRouter
  import opened Arithmetic
  import opened Wrappers

  /** A JavaScript number of seconds. */
  datatype Seconds = NotFinite | Finite(x: real)

  datatype Scheduled = Scheduled(index: nat, amount: int, venue: Venue, at: int)

  const MIN_SPACING_SECONDS := 12
  const UINT32 := 0x1_0000_0000

  /** `floor((i + r / 2^32) * slack / n)`, in whole numbers. */
  function Offset(i: nat, r: nat, slack: nat, n: nat): nat
    requires n > 0
  {
    DividesNonNegative((i * UINT32 + r) * slack, UINT32 * n);
    (i * UINT32 + r) * slack / (UINT32 * n)
  }

  predicate Random(random: seq<nat>, n: nat) {
    |random| == n && forall i :: 0 <= i < n ==> random[i] < UINT32
  }

  /** A finite window that is zero or leaves room for n sub-trades 12 seconds apart. */
  predicate WindowFits(window: Seconds, n: nat) {
    && window.Finite? && window.x >= 0.0
    && (window.x == 0.0 || window.x >= ((n - 1) * MIN_SPACING_SECONDS) as real)
  }

  function Schedule(parts: seq<SubTrade>, venues: seq<Venue>, window: Seconds, random: seq<nat>): Result<seq<Scheduled>>
    requires Random(random, |parts|)
  {
    if parts == [] then Ok([])
    else if |parts| != |venues| || !WindowFits(window, |parts|) then Err
    else
      var n := |parts|;
      var slack := window.x.Floor - (n - 1) * MIN_SPACING_SECONDS;
      Ok(seq(n, i requires 0 <= i < n =>
           Scheduled(parts[i].index, parts[i].amount, venues[i],
                     if window.x == 0.0 then 0 else Offset(i, random[i], slack, n) + i * MIN_SPACING_SECONDS)))
  }

  /** Each offset lies in its own stratum of the slack. */
  lemma OffsetInStratum(i: nat, r: nat, slack: nat, n: nat)
    requires n > 0 && r < UINT32
    ensures i * slack / n <= Offset(i, r, slack, n) <= (i + 1) * slack / n
  {
    var jittered := (i * UINT32 + r) * slack;
    TimesMonotone(i * UINT32, i * UINT32 + r, slack);
    TimesMonotone(i * UINT32 + r, (i + 1) * UINT32, slack);
    DivideMonotone(i * UINT32 * slack, jittered, UINT32 * n);
    DivideMonotone(jittered, (i + 1) * UINT32 * slack, UINT32 * n);
    assert i * UINT32 * slack == UINT32 * (i * slack);
    assert (i + 1) * UINT32 * slack == UINT32 * ((i + 1) * slack);
    DivideCancels(i * slack, n, UINT32);
    DivideCancels((i + 1) * slack, n, UINT32);
  }

  lemma OffsetsOrdered(i: nat, j: nat, r: nat, q: nat, slack: nat, n: nat)
    requires i < j < n && r < UINT32 && q < UINT32
    ensures 0 <= Offset(i, r, slack, n) <= Offset(j, q, slack, n) <= slack
  {
    OffsetInStratum(i, r, slack, n);
    OffsetInStratum(j, q, slack, n);
    TimesMonotone(i + 1, j, slack);
    DivideMonotone((i + 1) * slack, j * slack, n);
    OffsetBounded(j, q, slack, n);
  }

  lemma OffsetBounded(j: nat, q: nat, slack: nat, n: nat)
    requires j < n && q < UINT32
    ensures 0 <= Offset(j, q, slack, n) <= slack
  {
    OffsetInStratum(j, q, slack, n);
    TimesMonotone(j + 1, n, slack);
    DivideMonotone((j + 1) * slack, n * slack, n);
    QuotientIs(n * slack, n, slack, 0);
  }

  /** For a nonzero window and every random draw: at least 12 seconds apart, all inside the window, in order. */
  lemma SpacedInsideWindow(parts: seq<SubTrade>, venues: seq<Venue>, window: Seconds, random: seq<nat>, i: nat, j: nat)
    requires Random(random, |parts|) && Schedule(parts, venues, window, random).Ok? && i <= j < |parts|
    requires window.Finite? && window.x > 0.0
    ensures var s := Schedule(parts, venues, window, random).value;
            && |s| == |parts| && (i < j ==> s[j].at - s[i].at >= 12)
            && 0 <= s[i].at && s[j].at as real <= window.x
  {
    var n := |parts|;
    var slack := window.x.Floor - (n - 1) * MIN_SPACING_SECONDS;
    if i < j {
      OffsetsOrdered(i, j, random[i], random[j], slack, n);
    } else {
      OffsetBounded(i, random[i], slack, n);
    }
  }

  /**
   Sub-trades are scheduled exactly when each has a venue and the window, a finite number of seconds, is
   zero or leaves 12 seconds between them; then each keeps its place, amount and venue, at once for a
   window of zero, and otherwise in its own stratum of the slack.
   */
  lemma ScheduledExactly(parts: seq<SubTrade>, venues: seq<Venue>, window: Seconds, random: seq<nat>)
    requires Random(random, |parts|)
    ensures var n, s := |parts|, Schedule(parts, venues, window, random);
            && (s.Ok? <==> n == 0 || (|venues| == n && window.Finite?
                                     && (window.x == 0.0 || (window.x > 0.0 && window.x >= (12 * (n - 1)) as real))))
            && (s.Ok? ==> |s.value| == n)
            && (s.Ok? ==> forall i :: 0 <= i < n ==>
                  && s.value[i].index == parts[i].index && s.value[i].amount == parts[i].amount && s.value[i].venue == venues[i]
                  && (window.x == 0.0 ==> s.value[i].at == 0)
                  && (window.x > 0.0 ==>
                        var slack := window.x.Floor - 12 * (n - 1);
                        i * slack / n <= s.value[i].at - 12 * i <= (i + 1) * slack / n))
  {
    var n, s := |parts|, Schedule(parts, venues, window, random);
    if s.Ok? && n > 0 && window.x > 0.0 {
      forall i | 0 <= i < n {
        OffsetInStratum(i, random[i], window.x.Floor - 12 * (n - 1), n);
      }
    }
  }
}
