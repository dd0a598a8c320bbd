/**
 * Shift-clock selection.  The shift clock is the APB clock divided by one of
 * a chip-specific list of divisors; npcm_sgpio_setup_clk walks that list from
 * the largest divisor (slowest clock) to the smallest and stops at the first
 * entry whose rate overshoots the requested bus frequency, picking the entry
 * before it.  This module gives that search as a specification function and
 * proves what it selects.
 */
module SgpioClock {
  import opened Wrappers

  const U32: nat := 0x1_0000_0000
  const U64: nat := 0x1_0000_0000_0000_0000

  /** npcm_clk_cfg: the APB divisors (SFT_CLK), the IOXCFG1 code of each
      divisor (CLK_SEL) and the number of entries in use (cfg_opt). */
  datatype ClkCfg = ClkCfg(sftClk: seq<nat>, clkSel: seq<bv8>, cfgOpt: nat)

  predicate WellFormed(cfg: ClkCfg)
  {
    && cfg.cfgOpt <= |cfg.sftClk|
    && cfg.cfgOpt <= |cfg.clkSel|
    && forall i :: 0 <= i < cfg.cfgOpt ==> cfg.sftClk[i] > 0
  }

  /** npcm750_sgpio_pdata */
  const Npcm750: ClkCfg := ClkCfg([1024, 32, 8, 4, 3, 2], [0x00, 0x05, 0x07, 0x0C, 0x0D, 0x0E], 6)

  /** npcm845_sgpio_pdata */
  const Npcm845: ClkCfg := ClkCfg([1024, 32, 16, 8, 4], [0x00, 0x05, 0x06, 0x07, 0x0C], 5)

  /** The shift-clock rate of entry i, `apb_freq / SFT_CLK[i]`, as the u32
      the driver stores it in. */
  function Rate(apb: nat, cfg: ClkCfg, i: nat): nat
    requires WellFormed(cfg) && i < cfg.cfgOpt
  {
    (apb / cfg.sftClk[i]) % U32
  }

  /** The first entry at or after `from`, other than entry 0, whose rate
      exceeds the request. */
  function FirstOvershoot(apb: nat, freq: nat, cfg: ClkCfg, from: nat): (r: Option<nat>)
    requires WellFormed(cfg) && from <= cfg.cfgOpt
    ensures r.Some? ==> from <= r.value < cfg.cfgOpt && r.value != 0
    decreases cfg.cfgOpt - from
  {
    if from == cfg.cfgOpt then None
    else if from != 0 && freq < Rate(apb, cfg, from) then Some(from)
    else FirstOvershoot(apb, freq, cfg, from + 1)
  }

  /** The entry npcm_sgpio_setup_clk programs, or None when it returns
      -EINVAL: the entry before the first overshoot; failing that the last
      entry when the request is strictly above its rate. */
  function SelectedIndex(apb: nat, freq: nat, cfg: ClkCfg): (r: Option<nat>)
    requires WellFormed(cfg)
    ensures r.Some? ==> r.value < cfg.cfgOpt
  {
    match FirstOvershoot(apb, freq, cfg, 0)
    case Some(i) => Some(i - 1)
    case None =>
      if cfg.cfgOpt > 0 && freq > Rate(apb, cfg, cfg.cfgOpt - 1) then Some(cfg.cfgOpt - 1) else None
  }

  lemma {:induction false} FirstOvershootSpec(apb: nat, freq: nat, cfg: ClkCfg, from: nat)
    requires WellFormed(cfg) && from <= cfg.cfgOpt
    ensures FirstOvershoot(apb, freq, cfg, from).Some? ==>
      var k := FirstOvershoot(apb, freq, cfg, from).value;
      && from <= k < cfg.cfgOpt && k != 0
      && freq < Rate(apb, cfg, k)
      && forall j :: from <= j < k && j != 0 ==> Rate(apb, cfg, j) <= freq
    ensures FirstOvershoot(apb, freq, cfg, from).None? ==>
      forall j :: from <= j < cfg.cfgOpt && j != 0 ==> Rate(apb, cfg, j) <= freq
    decreases cfg.cfgOpt - from
  {
    if from < cfg.cfgOpt && !(from != 0 && freq < Rate(apb, cfg, from)) {
      FirstOvershootSpec(apb, freq, cfg, from + 1);
    }
  }

  /** Entry k is the one the first-overshoot rule picks: either entry k + 1
      is the first entry past entry 0 whose rate exceeds the request, or no
      entry past entry 0 exceeds it, k is the last entry, and the request is
      strictly above the last rate. */
  ghost predicate FirstOvershootRule(apb: nat, freq: nat, cfg: ClkCfg, k: nat)
    requires WellFormed(cfg)
  {
    || (&& k + 1 < cfg.cfgOpt
        && freq < Rate(apb, cfg, k + 1)
        && forall j :: 1 <= j <= k ==> Rate(apb, cfg, j) <= freq)
    || (&& k + 1 == cfg.cfgOpt
        && Rate(apb, cfg, k) < freq
        && forall j :: 1 <= j < cfg.cfgOpt ==> Rate(apb, cfg, j) <= freq)
  }

  /** The selection fails exactly when no entry past entry 0 overshoots and
      the request is not strictly above the last rate (or the table is
      empty). */
  ghost predicate Rejected(apb: nat, freq: nat, cfg: ClkCfg)
    requires WellFormed(cfg)
  {
    || cfg.cfgOpt == 0
    || (&& freq <= Rate(apb, cfg, cfg.cfgOpt - 1)
        && forall j :: 1 <= j < cfg.cfgOpt ==> Rate(apb, cfg, j) <= freq)
  }

  /** SelectedIndex is characterised by the first-overshoot rule, in both
      directions. */
  lemma SelectedIndexSpec(apb: nat, freq: nat, cfg: ClkCfg, k: nat)
    requires WellFormed(cfg)
    ensures SelectedIndex(apb, freq, cfg) == Some(k) <==> FirstOvershootRule(apb, freq, cfg, k)
    ensures SelectedIndex(apb, freq, cfg).None? <==> Rejected(apb, freq, cfg)
  {
    FirstOvershootSpec(apb, freq, cfg, 0);
  }

  /** The rates of a table do not decrease from one entry to the next. */
  ghost predicate Ascending(apb: nat, cfg: ClkCfg)
    requires WellFormed(cfg)
  {
    forall i :: 1 <= i < cfg.cfgOpt ==> Rate(apb, cfg, i - 1) <= Rate(apb, cfg, i)
  }

  lemma {:induction false} AscendingSpan(apb: nat, cfg: ClkCfg, i: nat, j: nat)
    requires WellFormed(cfg) && Ascending(apb, cfg)
    requires i <= j < cfg.cfgOpt
    ensures Rate(apb, cfg, i) <= Rate(apb, cfg, j)
    decreases j - i
  {
    if i < j {
      AscendingSpan(apb, cfg, i, j - 1);
    }
  }

  /** On a table whose rates ascend, the selected entry is the fastest one
      whose rate does not exceed the request (or entry 0 when even that one
      is faster than the request), and with two or more entries the
      selection fails exactly when the request equals the fastest rate. */
  lemma SelectedIsFastestNotAbove(apb: nat, freq: nat, cfg: ClkCfg)
    requires WellFormed(cfg) && Ascending(apb, cfg)
    ensures SelectedIndex(apb, freq, cfg).Some? ==>
      var k := SelectedIndex(apb, freq, cfg).value;
      && k < cfg.cfgOpt
      && (k == 0 || Rate(apb, cfg, k) <= freq)
      && forall j :: k < j < cfg.cfgOpt ==> freq < Rate(apb, cfg, j)
    ensures cfg.cfgOpt >= 2 ==>
      (SelectedIndex(apb, freq, cfg).None? <==> freq == Rate(apb, cfg, cfg.cfgOpt - 1))
  {
    var n := cfg.cfgOpt;
    match SelectedIndex(apb, freq, cfg)
    case Some(k) =>
      SelectedIndexSpec(apb, freq, cfg, k);
      forall j | k < j < n
        ensures freq < Rate(apb, cfg, j)
      {
        AscendingSpan(apb, cfg, k + 1, j);
      }
    case None =>
      SelectedIndexSpec(apb, freq, cfg, 0);
    if n >= 2 && freq == Rate(apb, cfg, n - 1) {
      forall j | 1 <= j < n
        ensures Rate(apb, cfg, j) <= freq
      {
        AscendingSpan(apb, cfg, j, n - 1);
      }
      SelectedIndexSpec(apb, freq, cfg, 0);
    }
  }

  /** Both chip tables have ascending rates for every APB rate below
      2^33 Hz (so that apb / 2 fits the driver's u32). */
  lemma TablesAscending(apb: nat)
    requires apb < 2 * U32
    ensures WellFormed(Npcm750) && Ascending(apb, Npcm750)
    ensures WellFormed(Npcm845) && Ascending(apb, Npcm845)
  {
    forall i | 1 <= i < Npcm750.cfgOpt
      ensures Rate(apb, Npcm750, i - 1) <= Rate(apb, Npcm750, i)
    {
      AdjacentDivisors(apb, Npcm750, i);
    }
    forall i | 1 <= i < Npcm845.cfgOpt
      ensures Rate(apb, Npcm845, i - 1) <= Rate(apb, Npcm845, i)
    {
      AdjacentDivisors(apb, Npcm845, i);
    }
  }

  /** Two neighbouring entries whose divisors do not grow, the later one at
      least 2, have rates that do not decrease. */
  lemma AdjacentDivisors(apb: nat, cfg: ClkCfg, i: nat)
    requires cfg == Npcm750 || cfg == Npcm845
    requires 1 <= i < cfg.cfgOpt && apb < 2 * U32
    ensures WellFormed(cfg)
    ensures Rate(apb, cfg, i - 1) <= Rate(apb, cfg, i)
  {
    TableDivisors(cfg, i);
    RateStep(apb, cfg.sftClk[i - 1], cfg.sftClk[i]);
  }

  /** In both tables every divisor after the first is at least 2 and no
      larger than the one before it. */
  lemma TableDivisors(cfg: ClkCfg, i: nat)
    requires cfg == Npcm750 || cfg == Npcm845
    requires 1 <= i < cfg.cfgOpt
    ensures WellFormed(cfg)
    ensures 2 <= cfg.sftClk[i] <= cfg.sftClk[i - 1]
  {
    if cfg == Npcm750 {
      assert i in {1, 2, 3, 4, 5};
    } else {
      assert i in {1, 2, 3, 4};
    }
  }

  /** Below 2^33 a quotient by a divisor of at least 2 fits in a u32, so the
      truncated rates keep the order of the divisors. */
  lemma RateStep(apb: nat, a: nat, b: nat)
    requires 2 <= b <= a && apb < 2 * U32
    ensures (apb / a) % U32 <= (apb / b) % U32
  {
    DivStep(apb, a, b);
    DivStep(apb, b, 2);
    assert apb / a <= apb / b < U32;
  }

  /** A larger divisor gives a rate no higher than a smaller one. */
  lemma DivStep(n: nat, a: nat, b: nat)
    requires 0 < b <= a
    ensures n / a <= n / b
  {
    var p, q := n / a, n / b;
    MulMono(b, a, p);
    assert p * b <= p * a <= n < (q + 1) * b;
    MulCancel(p, q + 1, b);
  }

  lemma MulMono(x: nat, y: nat, z: nat)
    requires x <= y
    ensures x * z <= y * z && z * x <= z * y
  {
  }

  lemma MulCancel(x: nat, y: nat, z: nat)
    requires x * z < y * z
    ensures x < y
  {
    if y <= x {
      MulMono(y, x, z);
    }
  }

  /** The selection worked through for an NPCM750 at 25 MHz asked for a
      50 kHz bus: entry 1 (781250 Hz) is the first overshoot, so entry 0,
      code 0x00, is programmed. */
  lemma Npcm750At50kHz()
    ensures WellFormed(Npcm750)
    ensures SelectedIndex(25_000_000, 50_000, Npcm750) == Some(0)
    ensures Npcm750.clkSel[0] == 0x00
  {
    assert Rate(25_000_000, Npcm750, 1) == 781250;
  }

  // -----------------------------------------------------------------------
  // The request equal to the fastest rate
  // -----------------------------------------------------------------------

  /** The driver rejects a request exactly equal to the fastest rate: on an
      NPCM750 at 25 MHz, asking for 12.5 MHz (25 MHz / 2) fails, although
      12.5 MHz is an available rate and 12.5 MHz + 1 Hz selects it. */
  lemma ExactFastestRateRejected()
    ensures WellFormed(Npcm750)
    ensures Rate(25_000_000, Npcm750, 5) == 12_500_000
    ensures SelectedIndex(25_000_000, 12_500_000, Npcm750) == None
    ensures SelectedIndex(25_000_000, 12_500_001, Npcm750) == Some(5)
  {
    FirstOvershootSpec(25_000_000, 12_500_000, Npcm750, 0);
    FirstOvershootSpec(25_000_000, 12_500_001, Npcm750, 0);
    assert Rate(25_000_000, Npcm750, 5) == 12_500_000;
    forall j | 0 <= j < 6
      ensures Rate(25_000_000, Npcm750, j) <= 12_500_000
    {
      assert j in {0, 1, 2, 3, 4, 5};
    }
  }

  /** The selection with the last-entry test written `>=`: a request at or
      above the fastest rate selects the fastest entry. */
  function SelectedIndexIntended(apb: nat, freq: nat, cfg: ClkCfg): Option<nat>
    requires WellFormed(cfg)
  {
    match FirstOvershoot(apb, freq, cfg, 0)
    case Some(i) => Some(i - 1)
    case None =>
      if cfg.cfgOpt > 0 && freq >= Rate(apb, cfg, cfg.cfgOpt - 1) then Some(cfg.cfgOpt - 1) else None
  }

  /** With the intended test, every request on an ascending table of two or
      more entries selects an entry, that entry is the fastest one not above
      the request (or entry 0 when every rate is above it), and the choice
      agrees with the driver's wherever the driver succeeds. */
  lemma SelectedIndexIntendedTotal(apb: nat, freq: nat, cfg: ClkCfg)
    requires WellFormed(cfg) && Ascending(apb, cfg) && cfg.cfgOpt >= 2
    ensures SelectedIndexIntended(apb, freq, cfg).Some?
    ensures var k := SelectedIndexIntended(apb, freq, cfg).value;
      && k < cfg.cfgOpt
      && (k == 0 || Rate(apb, cfg, k) <= freq)
      && forall j :: k < j < cfg.cfgOpt ==> freq < Rate(apb, cfg, j)
    ensures SelectedIndex(apb, freq, cfg).Some? ==>
      SelectedIndex(apb, freq, cfg) == SelectedIndexIntended(apb, freq, cfg)
  {
    var n := cfg.cfgOpt;
    FirstOvershootSpec(apb, freq, cfg, 0);
    match FirstOvershoot(apb, freq, cfg, 0)
    case Some(i) =>
      forall j | i - 1 < j < n
        ensures freq < Rate(apb, cfg, j)
      {
        AscendingSpan(apb, cfg, i, j);
      }
    case None =>
      assert Rate(apb, cfg, n - 1) <= freq;
  }
}
