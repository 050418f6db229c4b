/** The GitHub Actions quota alert of bin/alert_on_low_github_actions_quota.py: sum the minutes every
    organisation of the enterprise used, turn the sum into a percentage of the monthly quota, and warn
    once per threshold, raising the stored threshold after each warning. */
module ActionsQuota {

  /** Minutes of GitHub Actions the enterprise may use in a month. */
  const TotalAvailable: int := 50000

  /** How far the stored threshold moves up after a warning. */
  const ThresholdStep: int := 10

  /** The minutes used by all the given organisations, as `billing_data["total_minutes_used"]` reports them. */
  function TotalMinutes(organisations: seq<string>, minutesUsed: string -> int): int
    decreases |organisations|
  {
    if organisations == [] then 0
    else minutesUsed(organisations[0]) + TotalMinutes(organisations[1..], minutesUsed)
  }

  /** The total over two lists of organisations is the sum of their totals. */
  lemma {:induction false} TotalMinutesAppend(a: seq<string>, b: seq<string>, minutesUsed: string -> int)
    ensures TotalMinutes(a + b, minutesUsed) == TotalMinutes(a, minutesUsed) + TotalMinutes(b, minutesUsed)
    decreases |a|
  {
    if a == [] {
      assert a + b == b;
    } else {
      assert (a + b)[1..] == a[1..] + b;
      TotalMinutesAppend(a[1..], b, minutesUsed);
    }
  }

  /** Usage reports that are never negative add up to a total that is not negative either. */
  lemma {:induction false} TotalMinutesNonNegative(organisations: seq<string>, minutesUsed: string -> int)
    requires forall o :: o in organisations ==> minutesUsed(o) >= 0
    ensures TotalMinutes(organisations, minutesUsed) >= 0
    decreases |organisations|
  {
    if organisations != [] {
      assert forall o :: o in organisations[1..] ==> o in organisations;
      TotalMinutesNonNegative(organisations[1..], minutesUsed);
    }
  }

  /** `calculate_total_minutes_used`: adds up each organisation's minutes in list order. */
  method CalculateTotalMinutesUsed(organisations: seq<string>, minutesUsed: string -> int) returns (total: int)
    ensures total == TotalMinutes(organisations, minutesUsed)
    ensures organisations == [] ==> total == 0
  {
    total := 0;
    for i := 0 to |organisations|
      invariant total == TotalMinutes(organisations[..i], minutesUsed)
    {
      var minutes := minutesUsed(organisations[i]);
      TotalMinutesAppend(organisations[..i], [organisations[i]], minutesUsed);
      assert organisations[..i + 1] == organisations[..i] + [organisations[i]];
      total := total + minutes;
    }
    assert organisations[..|organisations|] == organisations;
  }

  /** `calculate_percentage_used`: the share of the monthly quota used, in percent (exact, not floating point). */
  function PercentageUsed(totalMinutesUsed: int): (p: real)
    ensures p * (TotalAvailable as real) == (totalMinutesUsed as real) * 100.0
  {
    (totalMinutesUsed as real / TotalAvailable as real) * 100.0
  }

  /** The whole quota used is exactly one hundred percent, and more is more. */
  lemma FullQuotaIsHundredPercent(totalMinutesUsed: int)
    ensures PercentageUsed(TotalAvailable) == 100.0
    ensures PercentageUsed(totalMinutesUsed) >= 100.0 <==> totalMinutesUsed >= TotalAvailable
  {
  }

  /** Comparing the percentage with an integer threshold is the integer comparison `used * 100 >= threshold * 50000`. */
  lemma ThresholdReachedIff(totalMinutesUsed: int, threshold: int)
    ensures PercentageUsed(totalMinutesUsed) >= threshold as real <==> totalMinutesUsed * 100 >= threshold * TotalAvailable
  {
  }

  /** Whether a run with this percentage used sends the warning, given the threshold it read. */
  predicate Alerts(percentageUsed: real, threshold: int) {
    percentageUsed >= threshold as real
  }

  /** The stored threshold after one run that read `threshold`. */
  function NextThreshold(percentageUsed: real, threshold: int): (t: int)
    ensures t >= threshold
    ensures t != threshold <==> Alerts(percentageUsed, threshold)
  {
    if Alerts(percentageUsed, threshold) then threshold + ThresholdStep else threshold
  }

  /** The stored threshold after one run per percentage in `usage`, with no monthly reset in between. */
  function ThresholdAfterRuns(usage: seq<real>, threshold: int): int
    decreases |usage|
  {
    if usage == [] then threshold
    else ThresholdAfterRuns(usage[1..], NextThreshold(usage[0], threshold))
  }

  /** How many of those runs send a warning. */
  function AlertsInRuns(usage: seq<real>, threshold: int): nat
    decreases |usage|
  {
    if usage == [] then 0
    else (if Alerts(usage[0], threshold) then 1 else 0) + AlertsInRuns(usage[1..], NextThreshold(usage[0], threshold))
  }

  /** Every warning raises the threshold by exactly one step, and at most one warning is sent per run. */
  lemma {:induction false} ThresholdCountsAlerts(usage: seq<real>, threshold: int)
    ensures ThresholdAfterRuns(usage, threshold) == threshold + ThresholdStep * AlertsInRuns(usage, threshold)
    ensures AlertsInRuns(usage, threshold) <= |usage|
    decreases |usage|
  {
    if usage != [] {
      ThresholdCountsAlerts(usage[1..], NextThreshold(usage[0], threshold));
    }
  }

  /** While usage stays at or below `ceiling`, the threshold ends no more than one step above the
      highest threshold a run crossed: it never climbs past `ceiling + 10` on its own. */
  lemma {:induction false} ThresholdStaysNearUsage(usage: seq<real>, threshold: int, ceiling: real)
    requires forall p :: p in usage ==> p <= ceiling
    ensures var t := ThresholdAfterRuns(usage, threshold);
      t == threshold || (t - ThresholdStep) as real <= ceiling
    decreases |usage|
  {
    if usage != [] {
      assert forall p :: p in usage[1..] ==> p in usage;
      ThresholdStaysNearUsage(usage[1..], NextThreshold(usage[0], threshold), ceiling);
      assert usage[0] in usage;
    }
  }

  /** The calls the alert makes on the GitHub and Slack services. */
  datatype QuotaCall =
    | ResetThresholdCall
    | GetThresholdCall
    | LowQuotaWarningCall(percentageUsed: real, channel: string)
    | ModifyThresholdCall(threshold: int)

  /** The state the alert reads and changes: the organisations' usage and the stored threshold. */
  class QuotaServices {
    /** `get_all_organisations_in_enterprise()` */
    const organisations: seq<string>
    /** `get_gha_minutes_used_for_organisation(org)["total_minutes_used"]` */
    const minutesUsed: string -> int
    /** The threshold the service stores again on the first day of a month. */
    const resetThreshold: int
    /** The stored alerting threshold, in percent. */
    var threshold: int
    /** Every threshold and Slack call made so far, in order. */
    var trace: seq<QuotaCall>

    constructor (organisations: seq<string>, minutesUsed: string -> int, resetThreshold: int, threshold: int)
      ensures this.organisations == organisations && this.minutesUsed == minutesUsed
      ensures this.resetThreshold == resetThreshold && this.threshold == threshold
      ensures trace == []
    {
      this.organisations := organisations;
      this.minutesUsed := minutesUsed;
      this.resetThreshold := resetThreshold;
      this.threshold := threshold;
      trace := [];
    }

    method ResetAlertingThresholdIfFirstDayOfMonth(isFirstDayOfMonth: bool)
      modifies this
      ensures threshold == if isFirstDayOfMonth then resetThreshold else old(threshold)
      ensures trace == old(trace) + [ResetThresholdCall]
    {
      if isFirstDayOfMonth {
        threshold := resetThreshold;
      }
      trace := trace + [ResetThresholdCall];
    }

    method GetGhaMinutesQuotaThreshold() returns (t: int)
      modifies this
      ensures t == threshold == old(threshold)
      ensures trace == old(trace) + [GetThresholdCall]
    {
      t := threshold;
      trace := trace + [GetThresholdCall];
    }

    method ModifyGhaMinutesQuotaThreshold(t: int)
      modifies this
      ensures threshold == t
      ensures trace == old(trace) + [ModifyThresholdCall(t)]
    {
      threshold := t;
      trace := trace + [ModifyThresholdCall(t)];
    }

    /** Posts `low_threshold_triggered_message(percentageUsed)` to `channel`. */
    method SendLowQuotaWarning(percentageUsed: real, channel: string)
      modifies this
      ensures threshold == old(threshold)
      ensures trace == old(trace) + [LowQuotaWarningCall(percentageUsed, channel)]
    {
      trace := trace + [LowQuotaWarningCall(percentageUsed, channel)];
    }
  }

  /** `alert_on_low_quota`: the threshold is reset (on the first of the month) before it is read; a
      warning goes out, and the threshold moves up one step, exactly when usage reached the threshold read. */
  method AlertOnLowQuota(svc: QuotaServices, channel: string, isFirstDayOfMonth: bool)
    modifies svc
    ensures var read := if isFirstDayOfMonth then svc.resetThreshold else old(svc.threshold);
      var p := PercentageUsed(TotalMinutes(svc.organisations, svc.minutesUsed));
      && svc.threshold == NextThreshold(p, read)
      && svc.trace == old(svc.trace) + [ResetThresholdCall, GetThresholdCall]
           + (if Alerts(p, read) then [LowQuotaWarningCall(p, channel), ModifyThresholdCall(read + ThresholdStep)] else [])
  {
    var organisations := svc.organisations;
    var totalMinutesUsed := CalculateTotalMinutesUsed(organisations, svc.minutesUsed);
    var percentageUsed := PercentageUsed(totalMinutesUsed);
    svc.ResetAlertingThresholdIfFirstDayOfMonth(isFirstDayOfMonth);
    var threshold := svc.GetGhaMinutesQuotaThreshold();
    if percentageUsed >= threshold as real {
      svc.SendLowQuotaWarning(percentageUsed, channel);
      svc.ModifyGhaMinutesQuotaThreshold(threshold + ThresholdStep);
    }
  }
}
