/** The multi-stage long-press engine: validation of a stage table and the
    specification of one scan of the table while the button is held. */
module Stages {
  import opened ButtonTypes

  /** The condition `validate_stages` accepts: at least one stage, a first
      threshold above zero, and each threshold above its predecessor. */
  predicate StagesValid(cfg: seq<StageConfig>) {
    |cfg| > 0 && cfg[0].threshold > 0 &&
    forall i :: 1 <= i < |cfg| ==> cfg[i - 1].threshold < cfg[i].threshold
  }

  /** Thresholds strictly increase in index order. */
  predicate Ascending(cfg: seq<StageConfig>) {
    forall i, j :: 0 <= i < j < |cfg| ==> cfg[i].threshold < cfg[j].threshold
  }

  /** `validate_stages`: reads the first `count` entries of a (possibly null)
      table and accepts exactly the tables `StagesValid` describes. */
  method ValidateStages(cfg: Option<seq<StageConfig>>, count: StageCount) returns (ok: bool)
    requires cfg.Some? ==> count <= |cfg.value|
    ensures ok <==> cfg.Some? && count > 0 && StagesValid(cfg.value[..count])
  {
    if cfg.None? || count == 0 {
      return false;
    }
    var c := cfg.value;
    if c[0].threshold == 0 {
      return false;
    }
    for i := 1 to count
      invariant forall k :: 1 <= k < i ==> c[k - 1].threshold < c[k].threshold
    {
      if c[i].threshold <= c[i - 1].threshold {
        assert c[..count][i - 1] == c[i - 1] && c[..count][i] == c[i];
        return false;
      }
    }
    return true;
  }

  /** Adjacent increase implies increase between any two stages, and every
      threshold of a valid table is positive. */
  lemma {:induction false} ValidIncreasing(cfg: seq<StageConfig>, i: nat, j: nat)
    requires StagesValid(cfg)
    requires i < j < |cfg|
    ensures 0 < cfg[i].threshold < cfg[j].threshold
    decreases j
  {
    if i < j - 1 {
      ValidIncreasing(cfg, i, j - 1);
    } else if i > 0 {
      ValidIncreasing(cfg, 0, i);
    }
  }

  /** A table is valid exactly when it is non-empty, starts above zero and is
      strictly increasing throughout. */
  lemma StagesValidIff(cfg: seq<StageConfig>)
    ensures StagesValid(cfg) <==> |cfg| > 0 && cfg[0].threshold > 0 && Ascending(cfg)
  {
    if StagesValid(cfg) {
      forall i, j | 0 <= i < j < |cfg|
        ensures cfg[i].threshold < cfg[j].threshold
      {
        ValidIncreasing(cfg, i, j);
      }
    }
  }

  /* ---------------- One scan of the stage table ---------------- */

  /** Stage `c` fires at hold time `held` when its latch is still open and its
      threshold has been reached (inclusive). */
  predicate Fires(c: StageConfig, latched: bool, held: Tick) {
    !latched && held >= c.threshold
  }

  /** The latches after one scan at hold time `held`: a latch closes when its
      stage's threshold is reached and never opens. */
  function Latched(configs: seq<StageConfig>, latches: seq<bool>, held: Tick): (r: seq<bool>)
    requires |latches| == |configs|
    ensures |r| == |latches|
    ensures forall j :: 0 <= j < |r| ==> latches[j] ==> r[j]
    ensures forall j :: 0 <= j < |r| ==> (r[j] <==> latches[j] || Fires(configs[j], latches[j], held))
  {
    seq(|latches|, j requires 0 <= j < |latches| => latches[j] || held >= configs[j].threshold)
  }

  /** The events of the first `n` stages that fire at hold time `held`, in
      ascending index order. */
  function Fired(configs: seq<StageConfig>, latches: seq<bool>, held: Tick, n: nat): (r: seq<Event>)
    requires |latches| == |configs| && n <= |configs|
    ensures |r| <= n
  {
    if n == 0 then []
    else Fired(configs, latches, held, n - 1)
         + (if Fires(configs[n - 1], latches[n - 1], held) then [configs[n - 1].event] else [])
  }

  /** The scan emits exactly the events of the stages that fire: every
      emitted event belongs to a firing stage among the first `n`, and every
      such stage's event is emitted. */
  lemma {:induction false} FiredMembers(configs: seq<StageConfig>, latches: seq<bool>, held: Tick, n: nat)
    requires |latches| == |configs| && n <= |configs|
    ensures forall e :: e in Fired(configs, latches, held, n) ==>
      exists j :: 0 <= j < n && Fires(configs[j], latches[j], held) && configs[j].event == e
    ensures forall j :: 0 <= j < n && Fires(configs[j], latches[j], held) ==>
      configs[j].event in Fired(configs, latches, held, n)
  {
    if n > 0 {
      FiredMembers(configs, latches, held, n - 1);
    }
  }

  /** No stage among the first `n` fires, so the scan emits nothing. */
  lemma {:induction false} FiredNothing(configs: seq<StageConfig>, latches: seq<bool>, held: Tick, n: nat)
    requires |latches| == |configs| && n <= |configs|
    requires forall j :: 0 <= j < n ==> !Fires(configs[j], latches[j], held)
    ensures Fired(configs, latches, held, n) == []
  {
    if n > 0 {
      FiredNothing(configs, latches, held, n - 1);
    }
  }

  /** A latched stage never fires again: scanning a second time at the same
      hold time, or earlier, emits nothing. */
  lemma RescanFiresNothing(configs: seq<StageConfig>, latches: seq<bool>, held: Tick, later: Tick)
    requires |latches| == |configs|
    requires later <= held
    ensures Fired(configs, Latched(configs, latches, held), later, |configs|) == []
  {
    FiredNothing(configs, Latched(configs, latches, held), later, |configs|);
  }

  /** Two scans, the second at a later hold time, leave the latches of one
      scan at the later time. */
  lemma LatchedTwice(configs: seq<StageConfig>, latches: seq<bool>, h1: Tick, h2: Tick)
    requires |latches| == |configs|
    requires h1 <= h2
    ensures Latched(configs, Latched(configs, latches, h1), h2) == Latched(configs, latches, h2)
  {
  }

  /** Coarse polling loses nothing: with ascending thresholds, a scan at `h1`
      followed by a scan at a later `h2` emits exactly the events of a single
      scan at `h2`, in the same order, and leaves the same latches. */
  lemma {:induction false} CoarsePolling(configs: seq<StageConfig>, latches: seq<bool>, h1: Tick, h2: Tick, n: nat)
    requires |latches| == |configs| && n <= |configs|
    requires Ascending(configs)
    requires h1 <= h2
    ensures Fired(configs, latches, h1, n) + Fired(configs, Latched(configs, latches, h1), h2, n)
            == Fired(configs, latches, h2, n)
    ensures Latched(configs, Latched(configs, latches, h1), h2) == Latched(configs, latches, h2)
  {
    LatchedTwice(configs, latches, h1, h2);
    var mid := Latched(configs, latches, h1);
    if n > 0 {
      CoarsePolling(configs, latches, h1, h2, n - 1);
      var k := n - 1;
      if Fires(configs[k], latches[k], h1) {
        // every earlier stage has a lower threshold, so it is latched by the first scan
        forall j | 0 <= j < k
          ensures !Fires(configs[j], mid[j], h2)
        {
          assert configs[j].threshold < configs[k].threshold;
        }
        FiredNothing(configs, mid, h2, k);
        assert Fired(configs, latches, h1, n) == Fired(configs, latches, h1, k) + [configs[k].event];
        assert Fired(configs, mid, h2, n) == [];
        assert Fired(configs, latches, h2, n) == Fired(configs, latches, h2, k) + [configs[k].event];
        assert Fired(configs, mid, h2, k) == [];
      } else {
        assert Fired(configs, latches, h1, n) == Fired(configs, latches, h1, k);
        assert Fires(configs[k], mid[k], h2) == Fires(configs[k], latches[k], h2);
      }
    }
  }
}
