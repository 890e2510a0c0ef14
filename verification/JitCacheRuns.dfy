/** Whole runs of the cache against a simple ideal: an unbounded dictionary of the last
    write of every key. */
module JitCacheRuns {
  import opened PyCollections
  import opened ContextModels
  import opened JitCache

  datatype Op =
    | Write(key: string, items: seq<ContextItem>, ttl: int, now: real)
    | Read(key: string, now: real)

  function Step(d: Cache, op: Op, max: nat): Cache {
    match op
    case Write(key, items, ttl, now) => Written(d, now, max, key, Entry(items, now, ttl))
    case Read(_, now) => Pruned(d, now, max)
  }

  function Run(ops: seq<Op>, max: nat): Cache {
    if ops == [] then EmptyDict() else Step(Run(ops[..|ops| - 1], max), ops[|ops| - 1], max)
  }

  /** The ideal: the last write of every key, never pruned. */
  function Last(ops: seq<Op>): map<string, Entry> {
    if ops == [] then map[]
    else
      var before, op := Last(ops[..|ops| - 1]), ops[|ops| - 1];
      if op.Write? then before[op.key := Entry(op.items, op.now, op.ttl)] else before
  }

  /** The keys written after `k` was. */
  function Newer(last: map<string, Entry>, k: string): set<string>
    requires k in last
  {
    set other | other in last && last[other].createdAt > last[k].createdAt
  }

  ghost predicate ClockMovesForward(ops: seq<Op>) {
    forall i, j :: 0 <= i < j < |ops| ==> ops[i].now <= ops[j].now
  }

  ghost predicate WritesApart(ops: seq<Op>) {
    forall i, j :: 0 <= i < j < |ops| && ops[i].Write? && ops[j].Write? ==> ops[i].now < ops[j].now
  }

  ghost predicate UniformTtl(ops: seq<Op>, ttl: int) {
    0 < ttl && forall i :: 0 <= i < |ops| && ops[i].Write? ==> ops[i].ttl == ttl
  }

  /** The cache holds nothing but last writes, and never more than the limit. */
  ghost predicate Faithful(d: Cache, last: map<string, Entry>, max: nat) {
    && d.Wf()
    && (forall k :: k in d.at ==> k in last && d.at[k] == last[k])
    && |d.at| <= max
  }

  lemma PruneKeepsFaithful(d: Cache, last: map<string, Entry>, now: real, max: nat)
    requires d.Wf() && forall k :: k in d.at ==> k in last && d.at[k] == last[k]
    ensures Faithful(Pruned(d, now, max), last, max)
    ensures forall k :: k in Pruned(d, now, max).at ==> !last[k].Expired(now)
  {
    LiveKeeps(d, now);
    PruningCutsOldest(d, now, max);
  }

  lemma {:induction false} RunIsFaithful(ops: seq<Op>, max: nat)
    ensures Faithful(Run(ops, max), Last(ops), max)
  {
    if ops != [] {
      var d, op := Run(ops[..|ops| - 1], max), ops[|ops| - 1];
      RunIsFaithful(ops[..|ops| - 1], max);
      var before := Last(ops[..|ops| - 1]);
      PruneKeepsFaithful(d, before, op.now, max);
      if op.Write? {
        var p, e := Pruned(d, op.now, max), Entry(op.items, op.now, op.ttl);
        p.PutWf(op.key, e);
        PruneKeepsFaithful(p.Put(op.key, e), Last(ops), op.now, max);
      }
    }
  }

  /** With any mix of times to live, whatever a lookup hands out is the last value written
      under that key, and that write is younger than its own time to live. */
  lemma LookupsAreFresh(ops: seq<Op>, max: nat, key: string, now: real)
    ensures var seen, last := Seen(Run(ops, max), now, max, key), Last(ops);
      seen.Some? ==> key in last && seen.value == last[key].items && now - last[key].createdAt < last[key].ttl as real
  {
    RunIsFaithful(ops, max);
    PruneKeepsFaithful(Run(ops, max), Last(ops), now, max);
  }

  lemma PruneEvicts(d: Cache, now: real, max: nat, victim: string)
    requires d.Wf() && victim in d.at && !d.at[victim].Expired(now) && victim !in Pruned(d, now, max).at
    ensures var r := Pruned(d, now, max).at;
      |r| == max < |d.at| && forall k :: k in r ==> d.at[victim].createdAt <= r[k].createdAt
  {
    LiveKeeps(d, now);
    PruningCutsOldest(d, now, max);
    LiveFits(d, now);
    var live, r := Live(d, now).at, Pruned(d, now, max).at;
    if |live| <= max {
      KeysCutToSize(live, r);
    }
  }

  /** With any mix of times to live, a write evicts an unexpired entry only when as many
      others as the limit allows remain, each written no earlier. */
  lemma EvictionLeavesNewer(ops: seq<Op>, max: nat, w: Op, victim: string)
    requires w.Write? && victim != w.key
    requires victim in Run(ops, max).at && !Run(ops, max).at[victim].Expired(w.now)
    requires victim !in Run(ops + [w], max).at
    ensures var after := Run(ops + [w], max).at;
      |after| == max && forall k :: k in after ==> Run(ops, max).at[victim].createdAt <= after[k].createdAt
  {
    var d, e := Run(ops, max), Entry(w.items, w.now, w.ttl);
    assert (ops + [w])[..|ops|] == ops;
    RunIsFaithful(ops, max);
    var p := Pruned(d, w.now, max);
    PruneKeepsFaithful(d, Last(ops), w.now, max);
    if victim !in p.at {
      PruneEvicts(d, w.now, max, victim);
      assert false;
    }
    p.PutWf(w.key, e);
    PruneEvicts(p.Put(w.key, e), w.now, max, victim);
  }

  lemma LiveFits(d: Cache, now: real)
    requires d.Wf()
    ensures |Live(d, now).at| <= |d.at|
  {
    LiveKeeps(d, now);
    SubsetSize(Live(d, now).at.Keys, d.at.Keys);
  }

  lemma KeysCutToSize(big: map<string, Entry>, small: map<string, Entry>)
    requires small.Keys <= big.Keys && |small| == |big|
    ensures small.Keys == big.Keys
  {
    SubsetSize(small.Keys, big.Keys);
  }

  // ----- one uniform time to live

  /** The keys the ideal says are visible: unexpired, with fewer than `max` newer ones. */
  ghost predicate Ranked(last: map<string, Entry>, k: string, now: real, max: nat) {
    k in last && !last[k].Expired(now) && |Newer(last, k)| < max
  }

  ghost predicate Agrees(d: Cache, last: map<string, Entry>, now: real, max: nat) {
    && Faithful(d, last, max)
    && forall k :: k in d.at <==> Ranked(last, k, now, max)
  }

  ghost predicate IdealShape(last: map<string, Entry>, ttl: int, now: real) {
    && (forall k :: k in last ==> last[k].ttl == ttl && last[k].createdAt <= now)
    && (forall j, k :: j in last && k in last && j != k ==> last[j].createdAt != last[k].createdAt)
  }

  /** `r` is what is left of `live` after dropping the oldest beyond `max`. */
  ghost predicate Cut(live: map<string, Entry>, r: map<string, Entry>, max: nat) {
    && r.Keys <= live.Keys && |r| == Min(max, |live|)
    && (forall j, kept :: j in live && j !in r && kept in r ==> live[j].createdAt <= live[kept].createdAt)
  }

  /** With write times apart, cutting to the newest `max` keeps exactly the keys with fewer
      than `max` newer ones. */
  lemma CutIsRank(live: map<string, Entry>, r: map<string, Entry>, max: nat, k: string)
    requires Cut(live, r, max)
    requires forall i, j :: i in live && j in live && i != j ==> live[i].createdAt != live[j].createdAt
    requires k in live
    ensures k in r <==> |Newer(live, k)| < max
  {
    if k in r {
      assert Newer(live, k) <= r.Keys - {k};
      SubsetSize(Newer(live, k), r.Keys - {k});
    } else {
      if |r| == |live| {
        KeysCutToSize(live, r);
        assert false;
      }
      assert r.Keys <= Newer(live, k);
      SubsetSize(r.Keys, Newer(live, k));
    }
  }

  lemma NewerShrinks(last: map<string, Entry>, j: string, k: string)
    requires j in last && k in last && last[j].createdAt > last[k].createdAt
    ensures |Newer(last, j)| < |Newer(last, k)|
  {
    assert Newer(last, j) <= Newer(last, k) - {j};
    SubsetSize(Newer(last, j), Newer(last, k) - {j});
  }

  /** Reading: only age removes entries. */
  lemma ReadAgrees(d: Cache, last: map<string, Entry>, ttl: int, before: real, now: real, max: nat)
    requires Agrees(d, last, before, max) && before <= now
    ensures Agrees(Pruned(d, now, max), last, now, max)
  {
    PruneKeepsFaithful(d, last, now, max);
    LiveKeeps(d, now);
    PruningCutsOldest(d, now, max);
    LiveFits(d, now);
    KeysCutToSize(Live(d, now).at, Pruned(d, now, max).at);
    forall k ensures k in Pruned(d, now, max).at <==> Ranked(last, k, now, max) {
      if k in last && !last[k].Expired(now) {
        assert !last[k].Expired(before);
      }
    }
  }

  lemma NewerAfterWrite(last: map<string, Entry>, key: string, e: Entry, k: string)
    requires k in last && k != key && last[k].createdAt < e.createdAt
    ensures Newer(last[key := e], k) == Newer(last, k) + {key}
  {
  }

  lemma NothingNewer(last: map<string, Entry>, key: string)
    requires key in last && forall k :: k in last ==> last[k].createdAt <= last[key].createdAt
    ensures Newer(last, key) == {}
  {
  }

  /** `live` is what a write of `key` finds unexpired once the new entry is in. */
  ghost predicate LiveAfterWrite(last: map<string, Entry>, live: map<string, Entry>, key: string, e: Entry,
                                 now: real, max: nat) {
    && (forall j :: j in live <==> j == key || Ranked(last, j, now, max))
    && (forall j :: j in live ==> live[j] == if j == key then e else last[j])
  }

  lemma RankInside(last: map<string, Entry>, live: map<string, Entry>, key: string, e: Entry, k: string,
                   ttl: int, now: real, max: nat)
    requires 0 < ttl && IdealShape(last, ttl, now) && LiveAfterWrite(last, live, key, e, now, max)
    requires e.createdAt == now && forall j :: j in last ==> last[j].createdAt < now
    requires k in live && k != key
    ensures Newer(live, k) == Newer(last[key := e], k)
  {
    forall j | j in last && last[j].createdAt > last[k].createdAt ensures j in live {
      NewerShrinks(last, j, k);
      assert Ranked(last, j, now, max);
    }
  }

  lemma LiveEntriesApart(last: map<string, Entry>, live: map<string, Entry>, key: string, e: Entry,
                         ttl: int, now: real, max: nat)
    requires IdealShape(last, ttl, now) && LiveAfterWrite(last, live, key, e, now, max)
    requires e.createdAt == now && forall j :: j in last ==> last[j].createdAt < now
    ensures forall i, j :: i in live && j in live && i != j ==> live[i].createdAt != live[j].createdAt
    ensures forall i :: i in live ==> live[i].createdAt <= now
  {
  }

  /** One key across a write: `r` is what the write keeps of `live`. */
  lemma WriteRank(last: map<string, Entry>, live: map<string, Entry>, r: map<string, Entry>, key: string, e: Entry,
                  ttl: int, now: real, max: nat, k: string)
    requires 0 < ttl && 0 < max && IdealShape(last, ttl, now) && LiveAfterWrite(last, live, key, e, now, max)
    requires e.createdAt == now && e.ttl == ttl && forall j :: j in last ==> last[j].createdAt < now
    requires Cut(live, r, max)
    ensures k in r <==> Ranked(last[key := e], k, now, max)
  {
    if k in live {
      LiveEntriesApart(last, live, key, e, ttl, now, max);
      CutIsRank(live, r, max, k);
      if k == key {
        NothingNewer(last[key := e], key);
        NothingNewer(live, key);
      } else {
        RankInside(last, live, key, e, k, ttl, now, max);
      }
    } else if k in last {
      NewerAfterWrite(last, key, e, k);
      SubsetSize(Newer(last, k), Newer(last[key := e], k));
    }
  }

  lemma PutThenLive(d: Cache, last: map<string, Entry>, now: real, max: nat, key: string, e: Entry)
    requires Agrees(d, last, now, max) && e.createdAt == now && 0 < e.ttl
    ensures LiveAfterWrite(last, Live(d.Put(key, e), now).at, key, e, now, max)
  {
    d.PutWf(key, e);
    LiveKeeps(d.Put(key, e), now);
    forall j ensures j in d.at && !d.at[j].Expired(now) <==> Ranked(last, j, now, max) {
    }
  }

  lemma PruningCuts(d: Cache, now: real, max: nat)
    requires d.Wf()
    ensures Cut(Live(d, now).at, Pruned(d, now, max).at, max)
  {
    PruningCutsOldest(d, now, max);
  }

  lemma PutIsFaithful(d: Cache, last: map<string, Entry>, now: real, max: nat, key: string, e: Entry)
    requires Faithful(d, last, max)
    ensures Faithful(Pruned(d.Put(key, e), now, max), last[key := e], max)
  {
    d.PutWf(key, e);
    PruneKeepsFaithful(d.Put(key, e), last[key := e], now, max);
  }

  lemma WriteRankOf(d: Cache, last: map<string, Entry>, ttl: int, now: real, max: nat, key: string, e: Entry, k: string)
    requires 0 < ttl && 0 < max
    requires Agrees(d, last, now, max) && IdealShape(last, ttl, now)
    requires e.createdAt == now && e.ttl == ttl && forall j :: j in last ==> last[j].createdAt < now
    ensures k in Pruned(d.Put(key, e), now, max).at <==> Ranked(last[key := e], k, now, max)
  {
    PutThenLive(d, last, now, max, key, e);
    d.PutWf(key, e);
    PruningCuts(d.Put(key, e), now, max);
    WriteRank(last, Live(d.Put(key, e), now).at, Pruned(d.Put(key, e), now, max).at, key, e, ttl, now, max, k);
  }

  /** Writing: the new entry is newest, every other key has at most one more ahead of it. */
  lemma WriteAgrees(d: Cache, last: map<string, Entry>, ttl: int, now: real, max: nat, key: string, e: Entry)
    requires 0 < ttl && 0 < max
    requires Agrees(d, last, now, max) && IdealShape(last, ttl, now)
    requires e.createdAt == now && e.ttl == ttl && forall k :: k in last ==> last[k].createdAt < now
    ensures Agrees(Pruned(d.Put(key, e), now, max), last[key := e], now, max)
  {
    PutIsFaithful(d, last, now, max, key, e);
    forall k ensures k in Pruned(d.Put(key, e), now, max).at <==> Ranked(last[key := e], k, now, max) {
      WriteRankOf(d, last, ttl, now, max, key, e, k);
    }
  }

  lemma {:induction false} IdealKeepsShape(ops: seq<Op>, ttl: int, now: real)
    requires ClockMovesForward(ops) && WritesApart(ops) && UniformTtl(ops, ttl)
    requires forall i :: 0 <= i < |ops| ==> ops[i].now <= now
    ensures IdealShape(Last(ops), ttl, now)
    ensures forall k :: k in Last(ops) ==> exists i :: 0 <= i < |ops| && ops[i].Write? && ops[i].now == Last(ops)[k].createdAt
  {
    if ops != [] {
      var front, op := ops[..|ops| - 1], ops[|ops| - 1];
      IdealKeepsShape(front, ttl, now);
      forall k | k in Last(ops)
        ensures exists i :: 0 <= i < |ops| && ops[i].Write? && ops[i].now == Last(ops)[k].createdAt
        ensures op.Write? && k != op.key ==> Last(ops)[k].createdAt < op.now
      {
        if op.Write? && k == op.key {
          assert ops[|ops| - 1].now == Last(ops)[k].createdAt;
        } else {
          var i :| 0 <= i < |front| && front[i].Write? && front[i].now == Last(front)[k].createdAt;
          assert ops[i].now == Last(ops)[k].createdAt;
        }
      }
    }
  }

  lemma EarlierWritesAreOlder(front: seq<Op>, op: Op, ttl: int)
    requires ClockMovesForward(front + [op]) && WritesApart(front + [op]) && UniformTtl(front + [op], ttl) && op.Write?
    ensures forall k :: k in Last(front) ==> Last(front)[k].createdAt < op.now
  {
    var ops := front + [op];
    assert forall i :: 0 <= i < |front| ==> ops[i] == front[i];
    assert forall i :: 0 <= i < |front| ==> ops[i].now <= ops[|front|].now;
    IdealKeepsShape(front, ttl, op.now);
    forall k | k in Last(front) ensures Last(front)[k].createdAt < op.now {
      var i :| 0 <= i < |front| && front[i].Write? && front[i].now == Last(front)[k].createdAt;
      assert ops[i].now < ops[|front|].now;
    }
  }

  lemma NothingCached(now: real, max: nat)
    ensures Agrees(Pruned(EmptyDict(), now, max), map[], now, max)
  {
    LiveKeeps(EmptyDict(), now);
    PruningCutsOldest(EmptyDict(), now, max);
  }

  /** Pruning at the next operation leaves the cache in agreement. */
  lemma {:induction false} AgreesWhenNext(front: seq<Op>, op: Op, ttl: int, max: nat)
    requires 0 < max && ClockMovesForward(front + [op]) && WritesApart(front + [op]) && UniformTtl(front + [op], ttl)
    ensures Agrees(Pruned(Run(front, max), op.now, max), Last(front), op.now, max) && IdealShape(Last(front), ttl, op.now)
    decreases |front|, 0
  {
    var ops := front + [op];
    assert forall i :: 0 <= i < |front| ==> ops[i] == front[i];
    assert forall i :: 0 <= i < |front| ==> ops[i].now <= ops[|front|].now;
    IdealKeepsShape(front, ttl, op.now);
    if front == [] {
      NothingCached(op.now, max);
    } else {
      RunAgrees(front, ttl, max);
      assert ops[|front| - 1].now <= ops[|front|].now;
      ReadAgrees(Run(front, max), Last(front), ttl, front[|front| - 1].now, op.now, max);
    }
  }

  lemma {:induction false} RunAgrees(ops: seq<Op>, ttl: int, max: nat)
    requires 0 < max && ops != []
    requires ClockMovesForward(ops) && WritesApart(ops) && UniformTtl(ops, ttl)
    ensures Agrees(Run(ops, max), Last(ops), ops[|ops| - 1].now, max)
    decreases |ops| - 1, 1
  {
    var front, op := ops[..|ops| - 1], ops[|ops| - 1];
    assert ops == front + [op];
    AgreesWhenNext(front, op, ttl, max);
    if op.Write? {
      EarlierWritesAreOlder(front, op, ttl);
      WriteAgrees(Pruned(Run(front, max), op.now, max), Last(front), ttl, op.now, max, op.key, Entry(op.items, op.now, op.ttl));
    }
  }

  lemma ReadAppended(ops: seq<Op>, ttl: int, max: nat, read: Op)
    requires read.Read? && ClockMovesForward(ops) && WritesApart(ops) && UniformTtl(ops, ttl)
    requires ops != [] ==> ops[|ops| - 1].now <= read.now
    ensures ClockMovesForward(ops + [read]) && WritesApart(ops + [read]) && UniformTtl(ops + [read], ttl)
    ensures Run(ops + [read], max) == Pruned(Run(ops, max), read.now, max) && Last(ops + [read]) == Last(ops)
  {
    assert (ops + [read])[..|ops|] == ops;
  }

  lemma AgreementDecides(r: Cache, last: map<string, Entry>, ttl: int, now: real, max: nat, key: string)
    requires Agrees(r, last, now, max) && IdealShape(last, ttl, now)
    ensures key in r.at <==> key in last && now - last[key].createdAt < ttl as real && |Newer(last, key)| < max
    ensures key in r.at ==> r.at[key].items == last[key].items
  {
    assert key in r.at <==> Ranked(last, key, now, max);
  }

  /** With one time to live and write times apart, the keys a lookup can see are exactly the
      `max` most recently written among those whose last write is younger than the time to
      live, each with the value last written. */
  lemma CacheEqualsIdeal(ops: seq<Op>, ttl: int, max: nat, key: string, now: real)
    requires 0 < max
    requires ClockMovesForward(ops) && WritesApart(ops) && UniformTtl(ops, ttl)
    requires ops != [] ==> ops[|ops| - 1].now <= now
    ensures var last := Last(ops);
      Seen(Run(ops, max), now, max, key)
        == if key in last && now - last[key].createdAt < ttl as real && |Newer(last, key)| < max
           then Some(last[key].items) else None
  {
    var read := Read(key, now);
    ReadAppended(ops, ttl, max, read);
    RunAgrees(ops + [read], ttl, max);
    IdealKeepsShape(ops, ttl, now);
    AgreementDecides(Pruned(Run(ops, max), now, max), Last(ops), ttl, now, max, key);
  }

  // ----- an entry stays while fewer others than the limit are written

  function Writes(ops: seq<Op>): nat {
    if ops == [] then 0 else Writes(ops[..|ops| - 1]) + (if ops[|ops| - 1].Write? then 1 else 0)
  }

  function KeysWritten(ops: seq<Op>): (r: set<string>)
    ensures |r| <= Writes(ops)
  {
    if ops == [] then {}
    else if ops[|ops| - 1].Write? then KeysWritten(ops[..|ops| - 1]) + {ops[|ops| - 1].key}
    else KeysWritten(ops[..|ops| - 1])
  }

  /** All of `later` comes after `w` and by `now`, and nothing of it writes the key of `w`. */
  ghost predicate Between(w: Op, later: seq<Op>, now: real) {
    forall i :: 0 <= i < |later| ==> w.now <= later[i].now <= now && (later[i].Write? ==> later[i].key != w.key)
  }

  ghost function EntryOf(w: Op): Entry
    requires w.Write?
  {
    Entry(w.items, w.now, w.ttl)
  }

  /** Of what was written last, everything but `w` is older or among the keys written since. */
  ghost predicate Youngest(last: map<string, Entry>, w: Op, since: set<string>)
    requires w.Write?
  {
    && w.key in last && last[w.key] == EntryOf(w)
    && (forall k :: k in last ==> k == w.key || k in since || last[k].createdAt < w.now)
  }

  /** The cache holds last writes only, and the one of `w` among them. */
  ghost predicate Holds(d: Cache, last: map<string, Entry>, w: Op)
    requires w.Write?
  {
    && d.Wf()
    && (forall k :: k in d.at ==> k in last && d.at[k] == last[k])
    && w.key in d.at
  }

  /** A pruning spares the entry of `w` while it is young and fewer keys than the limit were
      written since: evicting it would leave as many entries, each as recent. */
  lemma PruningSpares(d: Cache, last: map<string, Entry>, w: Op, since: set<string>, now: real, max: nat)
    requires w.Write? && Youngest(last, w, since) && |since| < max && Holds(d, last, w) && now < w.now + w.ttl as real
    ensures Holds(Pruned(d, now, max), last, w)
  {
    LiveKeeps(d, now);
    PruningCutsOldest(d, now, max);
    var r := Pruned(d, now, max);
    if w.key !in r.at {
      PruneEvicts(d, now, max, w.key);
      assert r.at.Keys <= since;
      SubsetSize(r.at.Keys, since);
    }
  }

  lemma StepSpares(d: Cache, last: map<string, Entry>, w: Op, since: set<string>, op: Op, max: nat)
    requires w.Write? && Youngest(last, w, since) && Holds(d, last, w) && op.now < w.now + w.ttl as real
    requires |since| < max && (op.Write? ==> op.key != w.key && |since + {op.key}| < max)
    ensures op.Write? ==> var last' := last[op.key := EntryOf(op)];
      Youngest(last', w, since + {op.key}) && Holds(Step(d, op, max), last', w)
    ensures op.Read? ==> Holds(Step(d, op, max), last, w)
  {
    PruningSpares(d, last, w, since, op.now, max);
    if op.Write? {
      var p, last' := Pruned(d, op.now, max), last[op.key := EntryOf(op)];
      p.PutWf(op.key, EntryOf(op));
      PruningSpares(p.Put(op.key, EntryOf(op)), last', w, since + {op.key}, op.now, max);
    }
  }

  lemma FirstHeld(d: Cache, last: map<string, Entry>, w: Op, max: nat)
    requires w.Write? && Faithful(d, last, max) && 0 < max && 0.0 < w.ttl as real
    requires forall k :: k in last ==> last[k].createdAt < w.now
    ensures var last' := last[w.key := EntryOf(w)]; Youngest(last', w, {}) && Holds(Step(d, w, max), last', w)
  {
    var p, last' := Pruned(d, w.now, max), last[w.key := EntryOf(w)];
    PruneKeepsFaithful(d, last, w.now, max);
    p.PutWf(w.key, EntryOf(w));
    PruningSpares(p.Put(w.key, EntryOf(w)), last', w, {}, w.now, max);
  }

  lemma {:induction false} LastIsBefore(ops: seq<Op>, now: real)
    requires WritesBefore(ops, now)
    ensures forall k :: k in Last(ops) ==> Last(ops)[k].createdAt < now
  {
    if ops != [] {
      LastIsBefore(ops[..|ops| - 1], now);
    }
  }

  ghost predicate WritesBefore(ops: seq<Op>, now: real) {
    forall i :: 0 <= i < |ops| && ops[i].Write? ==> ops[i].now < now
  }

  /** The run and what was written last, one operation on. */
  lemma OneMoreOp(ops: seq<Op>, op: Op, max: nat)
    ensures Run(ops + [op], max) == Step(Run(ops, max), op, max)
    ensures Last(ops + [op]) == if op.Write? then Last(ops)[op.key := EntryOf(op)] else Last(ops)
  {
    assert (ops + [op])[..|ops|] == ops;
  }

  lemma OneMoreKey(ops: seq<Op>, op: Op)
    ensures KeysWritten(ops + [op]) == KeysWritten(ops) + (if op.Write? then {op.key} else {})
    ensures Writes(ops + [op]) == Writes(ops) + (if op.Write? then 1 else 0)
  {
    assert (ops + [op])[..|ops|] == ops;
  }

  ghost predicate Held(ops: seq<Op>, w: Op, later: seq<Op>, max: nat)
    requires w.Write?
  {
    Youngest(Last(ops), w, KeysWritten(later)) && Holds(Run(ops, max), Last(ops), w)
  }

  lemma HeldAtFirst(before: seq<Op>, w: Op, max: nat)
    requires w.Write? && WritesBefore(before, w.now) && 0 < max && 0.0 < w.ttl as real
    ensures Held(before + [w], w, [], max)
  {
    RunIsFaithful(before, max);
    LastIsBefore(before, w.now);
    OneMoreOp(before, w, max);
    FirstHeld(Run(before, max), Last(before), w, max);
  }

  lemma HeldNext(ops: seq<Op>, w: Op, later: seq<Op>, op: Op, max: nat)
    requires w.Write? && Held(ops, w, later, max) && op.now < w.now + w.ttl as real
    requires op.Write? ==> op.key != w.key
    requires Writes(later + [op]) < max
    ensures Held(ops + [op], w, later + [op], max)
  {
    OneMoreKey(later, op);
    OneMoreOp(ops, op, max);
    assert op.Write? ==> |KeysWritten(later) + {op.key}| <= Writes(later + [op]);
    StepSpares(Run(ops, max), Last(ops), w, KeysWritten(later), op, max);
  }

  lemma {:induction false} WrittenIsHeld(before: seq<Op>, w: Op, later: seq<Op>, max: nat, now: real)
    requires w.Write? && WritesBefore(before, w.now) && Between(w, later, now) && Writes(later) < max
    requires w.now <= now < w.now + w.ttl as real
    ensures Held(before + [w] + later, w, later, max)
    decreases |later|
  {
    if later == [] {
      assert before + [w] + later == before + [w];
      HeldAtFirst(before, w, max);
    } else {
      var front, op := later[..|later| - 1], later[|later| - 1];
      assert later == front + [op] && before + [w] + later == before + [w] + front + [op];
      OneMoreKey(front, op);
      WrittenIsHeld(before, w, front, max, now);
      HeldNext(before + [w] + front, w, front, op, max);
    }
  }

  /** With any mix of times to live: a value written is found until it is as old as its time to
      live, its key is written again, or as many other writes as the limit allows have come. */
  lemma WrittenIsFound(before: seq<Op>, w: Op, later: seq<Op>, max: nat, now: real)
    requires w.Write? && WritesBefore(before, w.now) && Between(w, later, now) && Writes(later) < max
    requires w.now <= now < w.now + w.ttl as real
    ensures Seen(Run(before + [w] + later, max), now, max, w.key) == Some(w.items)
  {
    var ops := before + [w] + later;
    WrittenIsHeld(before, w, later, max, now);
    PruningSpares(Run(ops, max), Last(ops), w, KeysWritten(later), now, max);
  }

  // ----- writes of other keys

  lemma WriteOfAnotherKey(d: Cache, now: real, max: nat, key: string, e: Entry, other: string)
    requires d.Wf() && other != key && other in Written(d, now, max, key, e).at
    ensures other in d.at && Written(d, now, max, key, e).at[other] == d.at[other]
  {
    var p := Pruned(d, now, max);
    LiveKeeps(d, now);
    PruningCutsOldest(d, now, max);
    p.PutWf(key, e);
    LiveKeeps(p.Put(key, e), now);
    PruningCutsOldest(p.Put(key, e), now, max);
  }

  lemma WrittenWf(d: Cache, now: real, max: nat, key: string, e: Entry)
    requires d.Wf()
    ensures Written(d, now, max, key, e).Wf()
  {
    PruningCutsOldest(d, now, max);
    Pruned(d, now, max).PutWf(key, e);
    PruningCutsOldest(Pruned(d, now, max).Put(key, e), now, max);
  }

  /** A write changes what a later lookup of another key hands out only by evicting it. */
  lemma OtherWritesOnlyEvict(d: Cache, now: real, max: nat, key: string, e: Entry, other: string, later: real)
    requires d.Wf() && other != key
    ensures var seen := Seen(Written(d, now, max, key, e), later, max, other);
      seen.Some? ==> other in d.at && seen.value == d.at[other].items
  {
    WrittenWf(d, now, max, key, e);
    var after := Written(d, now, max, key, e);
    LiveKeeps(after, later);
    PruningCutsOldest(after, later, max);
    if other in Pruned(after, later, max).at {
      WriteOfAnotherKey(d, now, max, key, e, other);
    }
  }
}
