/** The hero statistics ticker (scripts/script.js, `heroStatsConfig` and
    `animateHeroStats`): each statistic starts at its minimum and, on every
    interval tick, takes a random step and is clamped back into
    `[min, min + range]`. */
module HeroStats {

  /** One entry of `heroStatsConfig`: the lower bound and the width of the band. */
  datatype StatConfig = StatConfig(min: int, range: nat)

  /** `heroStatsConfig`, in the order `Object.keys` lists it. */
  const HeroStatsConfig: seq<(string, StatConfig)> := [
    ("channelsCount", StatConfig(15000, 500)),
    ("showsCount", StatConfig(17200, 300)),
    ("moviesCount", StatConfig(68000, 2000))
  ]

  /** Bounds of the random step `Math.floor(Math.random() * 30) - 10`. */
  const MinChange: int := -10
  const MaxChange: int := 19

  predicate IsChange(change: int) {
    MinChange <= change <= MaxChange
  }

  predicate InRange(cfg: StatConfig, v: int) {
    cfg.min <= v <= cfg.min + cfg.range
  }

  function Dist(a: int, b: int): nat {
    if a <= b then b - a else a - b
  }

  /** The step drawn from a value of `Math.random()`: every value it can
      return gives a step in [-10, 19]. */
  function Change(draw: real): (change: int)
    ensures 0.0 <= draw < 1.0 ==> IsChange(change)
  {
    (draw * 30.0).Floor - 10
  }

  /** ... and every step in [-10, 19] is drawn by some value. */
  lemma EveryChangeIsDrawn(change: int)
    requires IsChange(change)
    ensures exists draw: real :: 0.0 <= draw < 1.0 && Change(draw) == change
  {
    var draw := (change + 10) as real / 30.0;
    assert draw * 30.0 == (change + 10) as real;
    assert Change(draw) == change;
  }

  /** The clamp applied after `currentValue += change`: the value of the band
      `[min, min + range]` nearest to `x`. */
  function Clamp(cfg: StatConfig, x: int): (r: int)
    ensures InRange(cfg, r)
    ensures forall w :: InRange(cfg, w) ==> Dist(r, x) <= Dist(w, x)
    ensures InRange(cfg, x) ==> r == x
  {
    if x < cfg.min then cfg.min
    else if x > cfg.min + cfg.range then cfg.min + cfg.range
    else x
  }

  /** The value after one tick with step `change`. It is always in the
      band; from a value inside the band it moves by no more than the drawn
      step, in the step's direction: clamping only ever shortens the step. */
  function Next(cfg: StatConfig, v: int, change: int): (r: int)
    ensures InRange(cfg, r)
    ensures InRange(cfg, v) && IsChange(change) ==> MinChange <= r - v <= MaxChange
    ensures InRange(cfg, v) && change <= 0 ==> v + change <= r <= v
    ensures InRange(cfg, v) && change >= 0 ==> v <= r <= v + change
  {
    Clamp(cfg, v + change)
  }

  /** The value after a whole sequence of ticks. Whatever steps are drawn,
      after at least one tick the value is in the band, and starting from
      the band (as every ticker does, at `min`) it never leaves it. */
  function Replay(cfg: StatConfig, v: int, changes: seq<int>): (r: int)
    ensures InRange(cfg, v) || changes != [] ==> InRange(cfg, r)
    decreases |changes|
  {
    if changes == [] then v else Replay(cfg, Next(cfg, v, changes[0]), changes[1..])
  }

  /** The indices of the statistics whose element is on the page
      (`document.getElementById(id)` found one): increasing, and every such
      index is listed. */
  function PresentIndices(config: seq<(string, StatConfig)>, onPage: set<string>): (idx: seq<nat>)
    ensures forall k :: 0 <= k < |idx| ==> idx[k] < |config| && config[idx[k]].0 in onPage
    ensures forall j, k :: 0 <= j < k < |idx| ==> idx[j] < idx[k]
    ensures forall i :: 0 <= i < |config| && config[i].0 in onPage ==> i in idx
  {
    if config == [] then []
    else
      var n := |config| - 1;
      PresentIndices(config[..n], onPage) + (if config[n].0 in onPage then [n] else [])
  }

  /** The statistics started: the configured ones whose element is on the
      page (`PresentInOrder` and `PresentComplete` say
      which and in what order). */
  function Present(config: seq<(string, StatConfig)>, onPage: set<string>): (r: seq<(string, StatConfig)>)
    ensures |r| <= |config|
  {
    if config == [] then []
    else
      var n := |config| - 1;
      Present(config[..n], onPage) + (if config[n].0 in onPage then [config[n]] else [])
  }

  /** The statistics started are the configured ones at `PresentIndices`:
      each once, in configuration order. */
  lemma {:induction false} PresentInOrder(config: seq<(string, StatConfig)>, onPage: set<string>)
    ensures |Present(config, onPage)| == |PresentIndices(config, onPage)|
    ensures forall k :: 0 <= k < |Present(config, onPage)| ==>
      Present(config, onPage)[k] == config[PresentIndices(config, onPage)[k]]
    decreases |config|
  {
    if config != [] {
      var n := |config| - 1;
      var front := config[..n];
      PresentInOrder(front, onPage);
      var p, ix := Present(front, onPage), PresentIndices(front, onPage);
      var r, idx := Present(config, onPage), PresentIndices(config, onPage);
      assert r == p + (if config[n].0 in onPage then [config[n]] else []);
      assert idx == ix + (if config[n].0 in onPage then [n] else []);
      forall k | 0 <= k < |r|
        ensures r[k] == config[idx[k]]
      {
        if k < |p| {
          assert r[k] == p[k] == front[ix[k]];
          assert idx[k] == ix[k];
        }
      }
    }
  }

  /** Every configured statistic whose element is on the page is started. */
  lemma {:induction false} PresentComplete(config: seq<(string, StatConfig)>, onPage: set<string>)
    ensures forall k :: 0 <= k < |config| && config[k].0 in onPage ==> config[k] in Present(config, onPage)
    decreases |config|
  {
    if config != [] {
      var n := |config| - 1;
      var front := config[..n];
      PresentComplete(front, onPage);
      var r := Present(config, onPage);
      assert r == Present(front, onPage) + (if config[n].0 in onPage then [config[n]] else []);
      forall k | 0 <= k < |config| && config[k].0 in onPage
        ensures config[k] in r
      {
        if k < n {
          assert front[k] == config[k];
          assert config[k] in Present(front, onPage);
        }
      }
    }
  }

  /** One running statistic: the `currentValue` captured by its interval
      callback and the number its element displays. */
  class StatTicker {
    const id: string
    const config: StatConfig
    var currentValue: int
    var displayed: int

    ghost predicate Valid()
      reads this
    {
      InRange(config, currentValue) && displayed == currentValue
    }

    /** `let currentValue = config.min` and the first `textContent` write:
        the displayed value is the minimum before any tick. */
    constructor (id: string, config: StatConfig)
      ensures Valid()
      ensures this.id == id && this.config == config
      ensures currentValue == config.min && displayed == config.min
    {
      this.id := id;
      this.config := config;
      currentValue := config.min;
      displayed := config.min;
    }

    /** One firing of the 2000 ms interval, with `draw` the value
        `Math.random()` returned. Only this ticker changes. */
    method Tick(draw: real)
      requires Valid()
      requires 0.0 <= draw < 1.0
      modifies this
      ensures Valid()
      ensures currentValue == Next(config, old(currentValue), Change(draw))
      ensures MinChange <= currentValue - old(currentValue) <= MaxChange
    {
      var change := Change(draw);
      currentValue := currentValue + change;
      if currentValue < config.min {
        currentValue := config.min;
      } else if currentValue > config.min + config.range {
        currentValue := config.min + config.range;
      }
      displayed := currentValue;
    }
  }

  /** `animateHeroStats`: one fresh, independent ticker per configured
      statistic whose element is on the page, each showing its minimum. */
  method AnimateHeroStats(onPage: set<string>) returns (running: seq<StatTicker>)
    ensures |running| == |Present(HeroStatsConfig, onPage)|
    ensures forall k :: 0 <= k < |running| ==>
      fresh(running[k]) && running[k].Valid() &&
      running[k].id == Present(HeroStatsConfig, onPage)[k].0 &&
      running[k].config == Present(HeroStatsConfig, onPage)[k].1 &&
      running[k].displayed == running[k].config.min
    ensures forall j, k :: 0 <= j < k < |running| ==> running[j] != running[k]
  {
    running := StartTickers(HeroStatsConfig, onPage);
  }

  /** The `forEach` over the configured ids inside `animateHeroStats`. */
  method StartTickers(config: seq<(string, StatConfig)>, onPage: set<string>) returns (running: seq<StatTicker>)
    ensures |running| == |Present(config, onPage)|
    ensures forall k :: 0 <= k < |running| ==>
      fresh(running[k]) && running[k].Valid() &&
      running[k].id == Present(config, onPage)[k].0 &&
      running[k].config == Present(config, onPage)[k].1 &&
      running[k].displayed == running[k].config.min
    ensures forall j, k :: 0 <= j < k < |running| ==> running[j] != running[k]
  {
    running := [];
    ghost var started: seq<(string, StatConfig)> := [];
    var n := 0;
    while n < |config|
      invariant 0 <= n <= |config|
      invariant started == Present(config[..n], onPage)
      invariant |running| == |started|
      invariant forall k :: 0 <= k < |running| ==>
        fresh(running[k]) && running[k].Valid() &&
        running[k].id == started[k].0 &&
        running[k].config == started[k].1 &&
        running[k].displayed == running[k].config.min
      invariant forall j, k :: 0 <= j < k < |running| ==> running[j] != running[k]
    {
      var (id, cfg) := config[n];
      assert config[..n + 1][..n] == config[..n];
      if id in onPage {
        var ticker := new StatTicker(id, cfg);
        running := running + [ticker];
        started := started + [(id, cfg)];
      }
      n := n + 1;
    }
    assert config[..n] == config;
  }
}
