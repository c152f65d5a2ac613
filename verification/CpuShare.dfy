/** Processor use as a decaying average, and the priority that follows from it: doc/Process/proc.c. */
module CpuShare {
  import opened Counting

  const SCALING: nat := 2
  const FULL: nat := 1000

  /** The fields of a Proc that updatecpu changes. */
  datatype Usage = Usage(cpu: int, lastupdate: int)

  /** The part of x that is left after n of D half ticks. */
  function Decay(x: int, n: int, D: int): int
    requires D > 0
  {
    (x * (D - n)) / D
  }

  /** updatecpu at tick count `ticks`, of a process that has been running since, or has not; D is schedgain*HZ*Scaling. */
  function Update(u: Usage, ticks: nat, running: bool, D: int): Usage
    requires D > 0
  {
    var t := ticks * SCALING + SCALING / 2;
    var n := t - u.lastupdate;
    if n == 0 then u
    else
      var k := Min(n, D);
      Usage(if running then FULL - Decay(FULL - u.cpu, k, D) else Decay(u.cpu, k, D), t)
  }

  lemma DecayIs(x: int, n: int, D: int)
    requires 0 <= x && 0 <= n <= D && D > 0
    ensures 0 <= Decay(x, n, D) <= x
    ensures n == D ==> Decay(x, n, D) == 0
    ensures n > 0 && x > 0 ==> Decay(x, n, D) < x
  {
    Product(x, 0, D - n);
    QuotientIs(x * (D - n), D, x, n);
  }

  /** A part of x of size (D - n)/D, rounded down. */
  lemma QuotientIs(y: int, D: int, x: int, n: int)
    requires 0 <= x && 0 <= n <= D && D > 0 && 0 <= y == x * (D - n)
    ensures 0 <= y / D <= x && (n == D ==> y / D == 0) && (n > 0 && x > 0 ==> y / D < x)
  {
    DivideIs(y, D);
    DivideGrows(0, y, D);
    Product(x, D - n, D);
    if n > 0 && x > 0 {
      Product(x, D - n, D - 1);
      if y / D >= x {
        Product(D, x, y / D);
      }
    } else if y / D > x {
      Product(D, x + 1, y / D);
    }
  }

  lemma Product(a: int, b: int, c: int)
    requires 0 <= a && b <= c
    ensures a * b <= a * c
  {
    assert a * (c - b) >= 0;
  }

  /** The clock has not gone back. */
  predicate Current(u: Usage, ticks: nat) {
    u.lastupdate <= ticks * SCALING + SCALING / 2
  }

  /**
   * The average stays between none and all of a processor. It rises only for a process that runs,
   * unless that has everything already, and falls only for one that does not; after D half ticks
   * nothing is left of what was before.
   */
  lemma UpdateIs(u: Usage, ticks: nat, running: bool, D: int)
    requires D > 0 && 0 <= u.cpu <= FULL && Current(u, ticks)
    ensures
      var u' := Update(u, ticks, running, D);
      && 0 <= u'.cpu <= FULL && u'.lastupdate == ticks * SCALING + SCALING / 2
      && (if running then u.cpu <= u'.cpu else u'.cpu <= u.cpu)
      && (u'.lastupdate > u.lastupdate ==>
            if running then u.cpu == FULL || u.cpu < u'.cpu else u.cpu == 0 || u'.cpu < u.cpu)
      && (u'.lastupdate - u.lastupdate >= D ==> u'.cpu == if running then FULL else 0)
  {
    var n := ticks * SCALING + SCALING / 2 - u.lastupdate;
    DecayIs(if running then FULL - u.cpu else u.cpu, Min(n, D), D);
  }

  /** part is the part k/D of whole, rounded down. */
  predicate IsPart(part: int, whole: int, k: int, D: int) {
    D * part <= whole * k < D * part + D
  }

  /**
   * The value of the average: of n half ticks since the last update, D at most, a process that has not been running
   * keeps the part (D - n)/D of its share, and one that has been keeps that part of what it lacks, rounded down.
   */
  lemma UpdateValue(u: Usage, ticks: nat, running: bool, D: int)
    requires D > 0 && Current(u, ticks)
    ensures
      var u' := Update(u, ticks, running, D);
      var n := u'.lastupdate - u.lastupdate;
      && u'.lastupdate == ticks * SCALING + SCALING / 2
      && (if running then IsPart(FULL - u'.cpu, FULL - u.cpu, if n < D then D - n else 0, D)
          else IsPart(u'.cpu, u.cpu, if n < D then D - n else 0, D))
  {
    var n := ticks * SCALING + SCALING / 2 - u.lastupdate;
    var x := if running then FULL - u.cpu else u.cpu;
    PartIs(x, D - Min(n, D), D);
    if n == 0 {
      WholeIs(x, D);
    }
  }

  lemma PartIs(x: int, k: int, D: int)
    requires D > 0
    ensures IsPart((x * k) / D, x, k, D)
  {
    DivideIs(x * k, D);
  }

  lemma WholeIs(x: int, D: int)
    requires D > 0
    ensures IsPart(x, x, D, D)
  {
  }

  /** No other value has that property. */
  lemma OnlyOnePart(part: int, part': int, whole: int, k: int, D: int)
    requires D > 0 && IsPart(part, whole, k, D) && IsPart(part', whole, k, D)
    ensures part == part'
  {
    if part < part' {
      Product(D, part + 1, part');
    } else if part' < part {
      Product(D, part' + 1, part);
    }
  }

  /** A yield is paid for: with the next update, even in the same tick, the share rises, unless it is everything. */
  lemma YieldCosts(u: Usage, ticks: nat, D: int)
    requires D > 0 && 0 <= u.cpu <= FULL && Current(u, ticks)
    ensures
      var u' := Update(Apply(u, Yields, D), ticks, true, D);
      u.cpu == FULL || u.cpu < u'.cpu
  {
    UpdateIs(Apply(u, Yields, D), ticks, true, D);
  }

  /** A second update in the same tick changes nothing. */
  lemma UpdateTwice(u: Usage, ticks: nat, running: bool, again: bool, D: int)
    requires D > 0
    ensures Update(Update(u, ticks, running, D), ticks, again, D) == Update(u, ticks, running, D)
  {
  }

  /** An update, or a yield, which pretends that half a tick was used. */
  datatype Event = Updates(ticks: nat, running: bool) | Yields

  function Apply(u: Usage, e: Event, D: int): Usage
    requires D > 0
  {
    match e
    case Updates(ticks, running) => Update(u, ticks, running, D)
    case Yields => u.(lastupdate := u.lastupdate - SCALING / 2)
  }

  ghost predicate IsHistory(us: seq<Usage>, es: seq<Event>, D: int) {
    && D > 0 && |us| == |es| + 1 && us[0].cpu == 0
    && forall i :: 0 <= i < |es| ==>
         && us[i + 1] == Apply(us[i], es[i], D)
         && (es[i].Updates? ==> Current(us[i], es[i].ticks))
  }

  lemma {:induction false} AlwaysAShare(us: seq<Usage>, es: seq<Event>, D: int, k: nat)
    requires IsHistory(us, es, D) && k < |us|
    ensures 0 <= us[k].cpu <= FULL
  {
    if k > 0 {
      AlwaysAShare(us, es, D, k - 1);
      if es[k - 1].Updates? {
        UpdateIs(us[k - 1], es[k - 1].ticks, es[k - 1].running, D);
      }
    }
  }

  /** Between two points of a history the average has only risen if the process ran, and only fallen if it did not. */
  lemma {:induction false} MovesWithUse(us: seq<Usage>, es: seq<Event>, D: int, i: nat, k: nat)
    requires IsHistory(us, es, D) && i <= k < |us|
    ensures (forall j :: i <= j < k && es[j].Updates? ==> es[j].running) ==> us[i].cpu <= us[k].cpu
    ensures (forall j :: i <= j < k && es[j].Updates? ==> !es[j].running) ==> us[k].cpu <= us[i].cpu
    decreases k - i
  {
    if i < k {
      MovesWithUse(us, es, D, i, k - 1);
      AlwaysAShare(us, es, D, k - 1);
      if es[k - 1].Updates? {
        UpdateIs(us[k - 1], es[k - 1].ticks, es[k - 1].running, D);
      }
    }
  }

  // ---------------------------------------------------------------- reprioritize

  /** The quotient of F by n, rounded by adding half the divisor. */
  function Ratio(F: int, n: int): int
    requires n > 0
  {
    (F + n / 2) / n
  }

  function FairShare(nmach: nat, load: nat): int
    requires load > 0
  {
    (nmach * 1000 * 1000) / load
  }

  function Reprioritize(cpu: int, basepri: nat, nmach: nat, load: nat): int
    requires 0 <= cpu
  {
    if load == 0 then basepri
    else
      var n := if cpu == 0 then 1 else cpu;
      Min(Ratio(FairShare(nmach, load), n), basepri)
  }

  lemma DivideIs(x: int, n: int)
    requires n > 0
    ensures n * (x / n) <= x < n * (x / n) + n
  {
  }

  /** The ratio is the nearest whole number to F/n, the larger one if two are equally near. */
  lemma RoundsHalfUp(F: int, n: int)
    requires n > 0
    ensures var r := Ratio(F, n); n * (2 * r - 1) <= 2 * F < n * (2 * r + 1)
  {
    var r := Ratio(F, n);
    DivideIs(F + n / 2, n);
    assert n * (2 * r - 1) == 2 * (n * r) - n;
    assert n * (2 * r + 1) == 2 * (n * r) + n;
  }

  /** And no other number has that property. */
  lemma OnlyOneRounding(F: int, n: int, r: int, s: int)
    requires n > 0 && n * (2 * r - 1) <= 2 * F < n * (2 * r + 1) && n * (2 * s - 1) <= 2 * F < n * (2 * s + 1)
    ensures r == s
  {
    if r < s {
      assert n * (2 * r + 1) <= n * (2 * s - 1) by {
        Product(n, 2 * r + 1, 2 * s - 1);
      }
    } else if s < r {
      assert n * (2 * s + 1) <= n * (2 * r - 1) by {
        Product(n, 2 * s + 1, 2 * r - 1);
      }
    }
  }

  lemma DivideGrows(x: int, y: int, n: int)
    requires n > 0 && x <= y
    ensures x / n <= y / n
  {
    DivideIs(x, n);
    DivideIs(y, n);
    if y / n < x / n {
      Product(n, y / n + 1, x / n);
    }
  }

  lemma DivideShrinks(x: int, m: int, n: int)
    requires 0 < m <= n && 0 <= x
    ensures 0 <= x / n <= x / m
  {
    DivideIs(x, m);
    DivideIs(x, n);
    var q := x / n;
    if x / m < q {
      Product(m, x / m + 1, q);
      Product(q, m, n);
    }
  }

  lemma Rounded(F: int, G: int, m: int, n: int, s: int, r: int)
    requires 0 < m <= n && 0 <= G <= F && 0 <= r && 2 * F < m * (2 * s + 1) && n * (2 * r - 1) <= 2 * G
    ensures r <= s
  {
    if s < r {
      Product(m, 2 * s + 1, 2 * r - 1);
      Product(2 * r - 1, m, n);
    }
  }

  /** Rounding keeps the order of the quotients. */
  lemma RatioShrinks(F: int, G: int, m: int, n: int)
    requires 0 < m <= n && 0 <= G <= F
    ensures 0 <= Ratio(G, n) <= Ratio(F, m)
  {
    RoundsHalfUp(G, n);
    RoundsHalfUp(F, m);
    DivideShrinks(G + n / 2, n, n);
    Rounded(F, G, m, n, Ratio(F, m), Ratio(G, n));
  }

  /** The priority is a queue number up to the base priority, so the panic is unreachable. */
  lemma PriorityInRange(cpu: int, basepri: nat, nmach: nat, load: nat)
    requires 0 <= cpu
    ensures 0 <= Reprioritize(cpu, basepri, nmach, load) <= basepri
  {
    if load > 0 {
      var n := if cpu == 0 then 1 else cpu;
      DivideGrows(0, nmach * 1000 * 1000, load);
      RatioShrinks(FairShare(nmach, load), FairShare(nmach, load), n, n);
    }
  }

  /** r is the nearest whole number to F/n, the larger one if two are equally near. */
  predicate IsRounded(r: int, F: int, n: int) {
    n * (2 * r - 1) <= 2 * F < n * (2 * r + 1)
  }

  /**
   * The value of the priority: the fair share nmach/load of a processor in millionths, rounded down, over the use,
   * rounded to the nearest; or the base priority where that is less, or there is no load.
   */
  lemma PriorityValue(cpu: int, basepri: nat, nmach: nat, load: nat, share: int, r: int)
    requires 0 <= cpu
    requires load > 0 ==> IsPart(share, 1000000, nmach, load) && IsRounded(r, share, if cpu == 0 then 1 else cpu)
    ensures Reprioritize(cpu, basepri, nmach, load) == if load > 0 && r < basepri then r else basepri
  {
    if load > 0 {
      var n := if cpu == 0 then 1 else cpu;
      FairShareIs(nmach, load);
      OnlyOnePart(share, FairShare(nmach, load), 1000000, nmach, load);
      RoundsHalfUp(share, n);
      OnlyOneRounding(share, n, r, Ratio(share, n));
    }
  }

  lemma FairShareIs(nmach: nat, load: nat)
    requires load > 0
    ensures IsPart(FairShare(nmach, load), 1000000, nmach, load)
  {
    DivideIs(nmach * 1000 * 1000, load);
    assert nmach * 1000 * 1000 == 1000000 * nmach;
  }

  /** More use, or more load, never makes for a better priority. */
  lemma PriorityFalls(cpu: int, cpu': int, basepri: nat, nmach: nat, load: nat, load': nat)
    requires 0 <= cpu <= cpu' && load <= load'
    ensures Reprioritize(cpu', basepri, nmach, load') <= Reprioritize(cpu, basepri, nmach, load)
  {
    if load > 0 {
      DivideShrinks(nmach * 1000 * 1000, load, load');
      RatioShrinks(FairShare(nmach, load), FairShare(nmach, load'), if cpu == 0 then 1 else cpu, if cpu' == 0 then 1 else cpu');
    }
  }
}
