/** Threshold alerts with a cooldown per alert key, against a clock that never goes back. */
module AlertEngine {
  import opened PyCollections
  import opened ContextModels

  datatype MetricRecord = MetricRecord(
    scopeId: string, operation: string, latencyMs: real, status: string,
    tokenCount: Option<int>, healthScore: Option<real>, qualityScore: real)

  datatype AlertConfig = AlertConfig(
    latencyThreshold: real, tokenThreshold: int, healthScoreMin: real, qualityThreshold: real, cooldown: real)

  /** What is checked of a record, in order. */
  function ChecksOf(cfg: AlertConfig, r: MetricRecord): seq<(bool, string)> {
    [(r.latencyMs > cfg.latencyThreshold, "latency_breach"),
     (r.tokenCount.Some? && r.tokenCount.value > cfg.tokenThreshold, "token_budget_breach"),
     (r.status == "error", "error_status"),
     (r.healthScore.Some? && r.healthScore.value < cfg.healthScoreMin, "low_health_score"),
     (r.qualityScore < cfg.qualityThreshold, "quality_degradation")]
  }

  function FullKey(alertKey: string, r: MetricRecord): string {
    alertKey + ":" + r.scopeId + ":" + r.operation
  }

  /** The keys of the checks that triggered. */
  function Triggered(checks: seq<(bool, string)>, r: MetricRecord): seq<string> {
    if checks == [] then []
    else
      var front, last := Triggered(checks[..|checks| - 1], r), checks[|checks| - 1];
      if last.0 then front + [FullKey(last.1, r)] else front
  }

  function BatchKeys(cfg: AlertConfig, batch: seq<MetricRecord>): seq<string> {
    if batch == [] then []
    else BatchKeys(cfg, batch[..|batch| - 1]) + Triggered(ChecksOf(cfg, batch[|batch| - 1]), batch[|batch| - 1])
  }

  /** One triggered check: the clock when the cooldown was looked at, whether it fired, and
      the clock when it was done. */
  datatype Check = Check(key: string, readAt: real, fired: bool, doneAt: real)

  /** The stamp of the last fire of every key. */
  function Stamps(log: seq<Check>): map<string, real> {
    if log == [] then map[]
    else
      var before, last := Stamps(log[..|log| - 1]), log[|log| - 1];
      if last.fired then before[last.key := last.doneAt] else before
  }

  ghost predicate Cooling(stamps: map<string, real>, key: string, now: real, cooldown: real) {
    key in stamps && now - stamps[key] < cooldown
  }

  /** A log the engine can produce: the clock moves on, and a check fires exactly when its
      key is not cooling down. */
  ghost predicate Legal(log: seq<Check>, cooldown: real) {
    log == [] ||
    (var front, last := log[..|log| - 1], log[|log| - 1];
     && Legal(front, cooldown)
     && last.readAt <= last.doneAt
     && (front != [] ==> front[|front| - 1].doneAt <= last.readAt)
     && (last.fired <==> !Cooling(Stamps(front), last.key, last.readAt, cooldown)))
  }

  /** The monotonic clock. */
  class Clock {
    var now: real

    constructor ()
    {
      now := 0.0;
    }

    method Read() returns (t: real)
      modifies this
      ensures t == now && old(now) <= now
    {
      var tick: real := *;
      if 0.0 < tick {
        now := now + tick;
      }
      t := now;
    }
  }

  class Engine {
    const config: AlertConfig
    const clock: Clock
    var cooldowns: map<string, real>
    ghost var log: seq<Check>

    constructor (config: AlertConfig, clock: Clock)
      ensures Valid() && log == [] && this.config == config && this.clock == clock
    {
      this.config := config;
      this.clock := clock;
      cooldowns := map[];
      log := [];
    }

    ghost predicate Valid()
      reads this, clock
    {
      && Legal(log, config.cooldown)
      && cooldowns == Stamps(log)
      && (log != [] ==> log[|log| - 1].doneAt <= clock.now)
    }

    method InCooldown(key: string) returns (cooling: bool, readAt: real)
      requires Valid()
      modifies clock
      ensures Valid() && old(clock.now) <= readAt == clock.now
      ensures cooling <==> Cooling(Stamps(log), key, readAt, config.cooldown)
    {
      if key !in cooldowns {
        return false, clock.now;
      }
      readAt := clock.Read();
      cooling := readAt - cooldowns[key] < config.cooldown;
    }

    /** One triggered check. */
    method Raise(key: string)
      requires Valid()
      modifies this`cooldowns, this`log, clock
      ensures Valid()
      ensures Extends(log, old(log), [key])
    {
      var cooling, readAt := InCooldown(key);
      if cooling {
        log := log + [Check(key, readAt, false, readAt)];
      } else {
        var doneAt := clock.Read();
        cooldowns := cooldowns[key := doneAt];
        log := log + [Check(key, readAt, true, doneAt)];
      }
      assert log[..|log| - 1] == old(log);
    }

    /** Every check of the record that triggers is raised, in order. */
    method EvaluateOne(record: MetricRecord)
      requires Valid()
      modifies this`cooldowns, this`log, clock
      ensures Valid() && Extends(log, old(log), Triggered(ChecksOf(config, record), record))
    {
      var checks := ChecksOf(config, record);
      for i := 0 to |checks|
        invariant Valid() && Extends(log, old(log), Triggered(checks[..i], record))
      {
        assert checks[..i + 1][..i] == checks[..i];
        if checks[i].0 {
          ghost var sofar := log;
          Raise(FullKey(checks[i].1, record));
          ExtendsTwice(log, sofar, old(log), Triggered(checks[..i], record), [FullKey(checks[i].1, record)]);
        }
      }
      assert checks[..|checks|] == checks;
    }

    method EvaluateBatch(batch: seq<MetricRecord>)
      requires Valid()
      modifies this`cooldowns, this`log, clock
      ensures Valid() && Extends(log, old(log), BatchKeys(config, batch))
    {
      for i := 0 to |batch|
        invariant Valid() && Extends(log, old(log), BatchKeys(config, batch[..i]))
      {
        assert batch[..i + 1][..i] == batch[..i];
        ghost var sofar := log;
        EvaluateOne(batch[i]);
        ExtendsTwice(log, sofar, old(log), BatchKeys(config, batch[..i]), Triggered(ChecksOf(config, batch[i]), batch[i]));
      }
      assert batch[..|batch|] == batch;
    }
  }

  function Keys(log: seq<Check>): seq<string> {
    seq(|log|, i requires 0 <= i < |log| => log[i].key)
  }

  /** `log` is `before` followed by checks of exactly these keys. */
  ghost predicate Extends(log: seq<Check>, before: seq<Check>, keys: seq<string>) {
    before <= log && Keys(log[|before|..]) == keys
  }

  lemma ExtendsTwice(log: seq<Check>, sofar: seq<Check>, before: seq<Check>, first: seq<string>, second: seq<string>)
    requires Extends(sofar, before, first) && Extends(log, sofar, second)
    ensures Extends(log, before, first + second)
  {
    assert log[|before|..] == sofar[|before|..] + log[|sofar|..];
  }

  // ----- what any legal log guarantees

  lemma {:induction false} StampsAreFires(log: seq<Check>, cooldown: real, key: string)
    requires Legal(log, cooldown)
    ensures key in Stamps(log) ==>
      exists i :: 0 <= i < |log| && log[i].key == key && log[i].fired && log[i].doneAt == Stamps(log)[key]
    ensures forall i :: 0 <= i < |log| && log[i].key == key && log[i].fired ==>
      key in Stamps(log) && log[i].doneAt <= Stamps(log)[key]
    ensures forall i :: 0 <= i < |log| ==> log[i].readAt <= log[i].doneAt <= log[|log| - 1].doneAt
  {
    if log != [] {
      var front, last := log[..|log| - 1], log[|log| - 1];
      StampsAreFires(front, cooldown, key);
      if !(last.fired && last.key == key) && key in Stamps(log) {
        var i :| 0 <= i < |front| && front[i].key == key && front[i].fired && front[i].doneAt == Stamps(front)[key];
        assert log[i] == front[i];
      }
      forall i | 0 <= i < |log| - 1 ensures log[i] == front[i] {
      }
    }
  }

  /** Fires of one key are at least the cooldown apart: from the end of one to the look at
      the clock that lets the next through. */
  lemma {:induction false} FiresAreApart(log: seq<Check>, cooldown: real, i: nat, j: nat)
    requires Legal(log, cooldown)
    requires i < j < |log| && log[i].key == log[j].key && log[i].fired && log[j].fired
    ensures log[j].readAt - log[i].doneAt >= cooldown
    decreases |log|
  {
    var front := log[..|log| - 1];
    if j < |front| {
      FiresAreApart(front, cooldown, i, j);
      assert front[i] == log[i] && front[j] == log[j];
    } else {
      StampsAreFires(front, cooldown, log[j].key);
      assert front[i] == log[i];
    }
  }

  /** A triggered check either fires, or follows a fire of its key less than the cooldown ago. */
  lemma {:induction false} NoBreachGoesUnheard(log: seq<Check>, cooldown: real, j: nat)
    requires Legal(log, cooldown) && j < |log|
    ensures log[j].fired || exists i ::
      0 <= i < j && log[i].key == log[j].key && log[i].fired && log[j].readAt - log[i].doneAt < cooldown
    decreases |log|
  {
    var front := log[..|log| - 1];
    if j < |front| {
      NoBreachGoesUnheard(front, cooldown, j);
      assert front[j] == log[j];
      if !log[j].fired {
        var i :| 0 <= i < j && front[i].key == front[j].key && front[i].fired
          && front[j].readAt - front[i].doneAt < cooldown;
        assert log[i] == front[i];
      }
    } else if !log[j].fired {
      StampsAreFires(front, cooldown, log[j].key);
      var i :| 0 <= i < |front| && front[i].key == log[j].key && front[i].fired
        && front[i].doneAt == Stamps(front)[log[j].key];
      assert log[i] == front[i];
    }
  }

  /** How many fires of a key fall in the window of the given length starting at `from`. */
  function FiresIn(log: seq<Check>, key: string, from: real, length: real): nat {
    if log == [] then 0
    else
      var last := log[|log| - 1];
      FiresIn(log[..|log| - 1], key, from, length)
      + (if last.key == key && last.fired && from <= last.doneAt <= from + length then 1 else 0)
  }

  /** The least time `n` fires take. */
  function Span(n: nat, cooldown: real): real {
    if n <= 1 then 0.0 else Span(n - 1, cooldown) + cooldown
  }

  lemma OneMoreTime(x: real, cooldown: real)
    ensures (x + 1.0) * cooldown == x * cooldown + cooldown
  {
  }

  lemma {:induction false} SpanIs(n: nat, cooldown: real)
    requires 0 < n
    ensures Span(n, cooldown) == (n - 1) as real * cooldown
  {
    if n == 1 {
      assert 0.0 * cooldown == 0.0;
    } else {
      SpanIs(n - 1, cooldown);
      OneMoreTime((n - 2) as real, cooldown);
      assert (n - 2) as real + 1.0 == (n - 1) as real;
      assert ((n - 2) as real + 1.0) * cooldown == (n - 1) as real * cooldown;
    }
  }

  lemma {:induction false} FiresSpread(log: seq<Check>, cooldown: real, key: string, from: real, length: real)
    requires Legal(log, cooldown) && 0.0 < cooldown && 0.0 <= length && 0 < FiresIn(log, key, from, length)
    ensures Span(FiresIn(log, key, from, length), cooldown) <= length
    ensures key in Stamps(log) && from + Span(FiresIn(log, key, from, length), cooldown) <= Stamps(log)[key]
  {
    var front := log[..|log| - 1];
    if 0 < FiresIn(front, key, from, length) {
      FiresSpread(front, cooldown, key, from, length);
    }
  }

  /** Any window of length L holds at most floor(L / cooldown) + 1 fires of one key. */
  lemma FiresPerWindow(log: seq<Check>, cooldown: real, key: string, from: real, length: real)
    requires Legal(log, cooldown) && 0.0 < cooldown && 0.0 <= length
    ensures FiresIn(log, key, from, length) <= (length / cooldown).Floor + 1
  {
    var n := FiresIn(log, key, from, length);
    if 0 < n {
      FiresSpread(log, cooldown, key, from, length);
      SpanIs(n, cooldown);
      QuotientBound(n - 1, cooldown, length);
    }
  }

  lemma QuotientBound(n: nat, d: real, length: real)
    requires 0.0 < d && n as real * d <= length
    ensures n <= (length / d).Floor
  {
    var q := length / d;
    assert q * d == length;
    assert (q - n as real) * d >= 0.0;
    assert q >= n as real;
  }

  // ----- which alerts a record raises, and which of them share a cooldown

  function If(raised: bool, alertKey: string, r: MetricRecord): seq<string> {
    if raised then [alertKey + ":" + r.scopeId + ":" + r.operation] else []
  }

  /** A record raises, in this order, the alerts of the thresholds it breaks: latency and tokens
      above theirs, health and quality below theirs, and any error. */
  lemma AlertsOfRecord(cfg: AlertConfig, r: MetricRecord)
    ensures BatchKeys(cfg, [r])
      == If(r.latencyMs > cfg.latencyThreshold, "latency_breach", r)
       + If(r.tokenCount.Some? && r.tokenCount.value > cfg.tokenThreshold, "token_budget_breach", r)
       + If(r.status == "error", "error_status", r)
       + If(r.healthScore.Some? && r.healthScore.value < cfg.healthScoreMin, "low_health_score", r)
       + If(r.qualityScore < cfg.qualityThreshold, "quality_degradation", r)
  {
    assert [r][..0] == [];
    assert BatchKeys(cfg, []) == [];
    var checks := ChecksOf(cfg, r);
    FiveTriggered(checks, r);
  }

  lemma FiveTriggered(checks: seq<(bool, string)>, r: MetricRecord)
    requires |checks| == 5
    ensures Triggered(checks, r)
      == If(checks[0].0, checks[0].1, r) + If(checks[1].0, checks[1].1, r) + If(checks[2].0, checks[2].1, r)
       + If(checks[3].0, checks[3].1, r) + If(checks[4].0, checks[4].1, r)
  {
    TriggeredUpTo(checks, 1, r);
    TriggeredUpTo(checks, 2, r);
    TriggeredUpTo(checks, 3, r);
    TriggeredUpTo(checks, 4, r);
    TriggeredUpTo(checks, 5, r);
    assert checks[..0] == [] && checks[..5] == checks;
  }

  lemma TriggeredUpTo(checks: seq<(bool, string)>, n: nat, r: MetricRecord)
    requires 0 < n <= |checks|
    ensures Triggered(checks[..n], r) == Triggered(checks[..n - 1], r) + If(checks[n - 1].0, checks[n - 1].1, r)
  {
    assert checks[..n][..n - 1] == checks[..n - 1];
  }

  /** A batch is gone through record by record. */
  lemma {:induction false} BatchInOrder(cfg: AlertConfig, a: seq<MetricRecord>, b: seq<MetricRecord>)
    ensures BatchKeys(cfg, a + b) == BatchKeys(cfg, a) + BatchKeys(cfg, b)
  {
    if b == [] {
      assert a + b == a;
    } else {
      assert (a + b)[..|a + b| - 1] == a + b[..|b| - 1];
      BatchInOrder(cfg, a, b[..|b| - 1]);
      Regroup(BatchKeys(cfg, a), BatchKeys(cfg, b[..|b| - 1]), Triggered(ChecksOf(cfg, b[|b| - 1]), b[|b| - 1]));
    }
  }

  lemma FirstColon(a: string, b: string, s: string, t: string)
    requires ':' !in a && ':' !in b && a + ":" + s == b + ":" + t
    ensures a == b && s == t
  {
    var k := a + ":" + s;
    assert k[|a|] == ':' && k[|b|] == ':';
    assert forall i :: 0 <= i < |a| ==> k[i] == a[i] && a[i] in a;
    assert forall i :: 0 <= i < |b| ==> k[i] == b[i] && b[i] in b;
    assert k[..|a|] == a && k[..|b|] == b;
    assert k[|a| + 1..] == s && k[|b| + 1..] == t;
  }

  /** An operation named with a colon shares its cooldown with another scope's. */
  lemma AlertsCollide(name: string, r: MetricRecord, s: MetricRecord)
    requires r.scopeId == "a:b" && r.operation == "c" && s.scopeId == "a" && s.operation == "b:c"
    ensures FullKey(name, r) == FullKey(name, s)
  {
    assert "a:b" + ":" + "c" == "a" + ":" + "b:c";
    assert FullKey(name, r) == name + ":" + ("a:b" + ":" + "c") && FullKey(name, s) == name + ":" + ("a" + ":" + "b:c");
  }

  /** Alerts share a cooldown only if they are of the same kind, scope and operation, as long as
      neither the kinds nor the operations are named with a colon. */
  lemma AlertsApart(name1: string, r1: MetricRecord, name2: string, r2: MetricRecord)
    requires ':' !in name1 && ':' !in name2 && ':' !in r1.operation && ':' !in r2.operation
    requires FullKey(name1, r1) == FullKey(name2, r2)
    ensures name1 == name2 && r1.scopeId == r2.scopeId && r1.operation == r2.operation
  {
    var s, t := r1.scopeId + ":" + r1.operation, r2.scopeId + ":" + r2.operation;
    assert FullKey(name1, r1) == name1 + ":" + s && FullKey(name2, r2) == name2 + ":" + t;
    FirstColon(name1, name2, s, t);
    assert ScopedKey("", r1.scopeId, r1.operation) == s && ScopedKey("", r2.scopeId, r2.operation) == t;
    ScopedKeyInjective("", r1.scopeId, r1.operation, r2.scopeId, r2.operation);
  }

  /** An alert of this kind about this scope and operation. */
  datatype Alert = Alert(name: string, record: MetricRecord)

  predicate SameAlert(a: Alert, b: Alert) {
    a.name == b.name && a.record.scopeId == b.record.scopeId && a.record.operation == b.record.operation
  }

  ghost predicate Logs(log: seq<Check>, alerts: seq<Alert>) {
    && |alerts| == |log|
    && forall i :: 0 <= i < |log| ==>
      log[i].key == FullKey(alerts[i].name, alerts[i].record) && ':' !in alerts[i].name && ':' !in alerts[i].record.operation
  }

  /** No alert is silenced by another: one that does not fire follows, less than the cooldown
      ago, a fire of the same kind for the same scope and operation. */
  lemma OnlyItsOwnKindSilences(log: seq<Check>, cooldown: real, alerts: seq<Alert>, j: nat)
    requires Legal(log, cooldown) && Logs(log, alerts) && j < |log| && !log[j].fired
    ensures exists i :: 0 <= i < j && SameAlert(alerts[i], alerts[j]) && log[i].fired && log[j].readAt - log[i].doneAt < cooldown
  {
    NoBreachGoesUnheard(log, cooldown, j);
    var i :| 0 <= i < j && log[i].key == log[j].key && log[i].fired && log[j].readAt - log[i].doneAt < cooldown;
    AlertsApart(alerts[i].name, alerts[i].record, alerts[j].name, alerts[j].record);
  }
}
