/** The key-value store's batch pipeline. It runs every write of the batch first and then
    answers every read, instead of going through the batch in order. Encoding a value and
    decoding it again gives the value back. */
module KvPipeline {
  import opened PyCollections

  /** `Other` is an operation of a kind the pipeline does not know. */
  datatype Op =
    | Set(key: string, value: string)
    | Get(key: string)
    | Exists(key: string)
    | Other(key: string)

  datatype Reply = Nothing | Value(value: string) | Flag(found: bool)

  type Table = map<string, string>

  // ----- the simple form: one operation after the other

  function After(t: Table, op: Op): Table {
    if op.Set? then t[op.key := op.value] else t
  }

  /** What an operation answers against a table; an unknown one answers nothing at all. */
  function Answer(t: Table, op: Op): seq<Reply> {
    match op
    case Set(_, _) => [Nothing]
    case Get(key) => [if key in t then Value(t[key]) else Nothing]
    case Exists(key) => [Flag(key in t)]
    case Other(_) => []
  }

  function InOrder(t: Table, ops: seq<Op>): Table {
    if ops == [] then t else After(InOrder(t, ops[..|ops| - 1]), ops[|ops| - 1])
  }

  function AnswersInOrder(t: Table, ops: seq<Op>): seq<Reply> {
    if ops == [] then []
    else AnswersInOrder(t, ops[..|ops| - 1]) + Answer(InOrder(t, ops[..|ops| - 1]), ops[|ops| - 1])
  }

  /** Every operation answered against one and the same table. */
  function AnswersFrom(t: Table, ops: seq<Op>): seq<Reply> {
    if ops == [] then [] else AnswersFrom(t, ops[..|ops| - 1]) + Answer(t, ops[|ops| - 1])
  }

  function Known(ops: seq<Op>): nat {
    if ops == [] then 0 else Known(ops[..|ops| - 1]) + (if ops[|ops| - 1].Other? then 0 else 1)
  }

  // ----- the pipeline

  function Writes(ops: seq<Op>): seq<Op> {
    Filter(ops, (op: Op) => op.Set?)
  }

  /** Every key that is read is among the keys collected for its query. */
  ghost predicate Asked(ops: seq<Op>, getKeys: seq<string>, existsKeys: seq<string>) {
    forall op :: op in ops ==> (op.Get? ==> op.key in getKeys) && (op.Exists? ==> op.key in existsKeys)
  }

  lemma {:induction false} OnlyWritesMatter(t: Table, ops: seq<Op>)
    ensures InOrder(t, Writes(ops)) == InOrder(t, ops)
  {
    if ops != [] {
      var front, op := ops[..|ops| - 1], ops[|ops| - 1];
      OnlyWritesMatter(t, front);
      if op.Set? {
        assert (Writes(front) + [op])[..|Writes(front)|] == Writes(front);
      }
    }
  }

  class KvStore {
    var table: Table

    constructor (table: Table)
      ensures this.table == table
    {
      this.table := table;
    }

    /** The final table is that of running the batch in order; every read is answered from it. */
    method Execute(operations: seq<Op>) returns (results: seq<Reply>)
      modifies this
      ensures table == InOrder(old(table), operations)
      ensures results == AnswersFrom(table, operations)
      ensures |results| == Known(operations)
    {
      var setOps, getKeys, existsKeys := Collect(operations);
      Upsert(setOps);
      OnlyWritesMatter(old(table), operations);
      var getResults: map<string, string> := map[];
      if getKeys != [] {
        getResults := map key | key in getKeys && key in table :: table[key];
      }
      var existsResults: map<string, bool> := map[];
      if existsKeys != [] {
        existsResults := FindExisting(existsKeys);
      }
      results := Assemble(operations, getResults, existsResults);
    }

    method Collect(operations: seq<Op>) returns (setOps: seq<Op>, getKeys: seq<string>, existsKeys: seq<string>)
      ensures setOps == Writes(operations)
      ensures Asked(operations, getKeys, existsKeys)
    {
      setOps, getKeys, existsKeys := [], [], [];
      for i := 0 to |operations|
        invariant setOps == Writes(operations[..i])
        invariant Asked(operations[..i], getKeys, existsKeys)
      {
        assert operations[..i + 1][..i] == operations[..i];
        var op := operations[i];
        match op
        case Set(_, _) => setOps := setOps + [op];
        case Get(key) => getKeys := getKeys + [key];
        case Exists(key) => existsKeys := existsKeys + [key];
        case Other(_) =>
      }
      assert operations[..|operations|] == operations;
    }

    method FindExisting(existsKeys: seq<string>) returns (found: map<string, bool>)
      ensures forall key :: key in found ==> found[key] == (key in table)
      ensures forall key :: key in existsKeys && key in table ==> key in found
    {
      found := map key | key in existsKeys && key in table :: true;
      for i := 0 to |existsKeys|
        invariant forall key :: key in found ==> found[key] == (key in table)
        invariant forall key :: key in existsKeys && key in table ==> key in found
      {
        if existsKeys[i] !in found {
          found := found[existsKeys[i] := false];
        }
      }
    }

    /** The results, one per known operation, out of what the two queries found. */
    method Assemble(operations: seq<Op>, getResults: map<string, string>, existsResults: map<string, bool>)
      returns (results: seq<Reply>)
      requires forall op :: op in operations && op.Get? ==>
        (op.key in getResults <==> op.key in table) && (op.key in table ==> getResults[op.key] == table[op.key])
      requires forall op :: op in operations && op.Exists? ==>
        (op.key in table <==> op.key in existsResults && existsResults[op.key])
      ensures results == AnswersFrom(table, operations)
      ensures |results| == Known(operations)
    {
      results := [];
      for i := 0 to |operations|
        invariant results == AnswersFrom(table, operations[..i])
        invariant |results| == Known(operations[..i])
      {
        assert operations[..i + 1][..i] == operations[..i];
        var op := operations[i];
        assert op in operations;
        match op
        case Set(_, _) => results := results + [Nothing];
        case Get(key) => results := results + [if key in getResults then Value(getResults[key]) else Nothing];
        case Exists(key) => results := results + [Flag(key in existsResults && existsResults[key])];
        case Other(_) =>
      }
      assert operations[..|operations|] == operations;
    }

    method Upsert(setOps: seq<Op>)
      requires forall op :: op in setOps ==> op.Set?
      modifies this
      ensures table == InOrder(old(table), setOps)
    {
      for i := 0 to |setOps|
        invariant table == InOrder(old(table), setOps[..i])
      {
        assert setOps[..i + 1][..i] == setOps[..i];
        table := table[setOps[i].key := setOps[i].value];
      }
      assert setOps[..|setOps|] == setOps;
    }
  }

  // ----- when the reordering shows

  /** The value the batch last gives to a key. */
  function LastSet(ops: seq<Op>, key: string): Option<string> {
    if ops == [] then None
    else if ops[|ops| - 1].Set? && ops[|ops| - 1].key == key then Some(ops[|ops| - 1].value)
    else LastSet(ops[..|ops| - 1], key)
  }

  function Lookup(t: Table, key: string): Option<string> {
    if key in t then Some(t[key]) else None
  }

  lemma {:induction false} LookupAfter(t: Table, ops: seq<Op>, key: string)
    ensures Lookup(InOrder(t, ops), key) == if LastSet(ops, key).Some? then LastSet(ops, key) else Lookup(t, key)
  {
    if ops != [] {
      LookupAfter(t, ops[..|ops| - 1], key);
    }
  }

  /** A read is steady when no later write of its key changes what it sees: the batch never
      sets the key, or already has before the read, for a `get` to the value it ends with. */
  predicate Steady(ops: seq<Op>, i: nat)
    requires i < |ops|
  {
    var before, last := LastSet(ops[..i], ops[i].key), LastSet(ops, ops[i].key);
    match ops[i]
    case Get(_) => last == None || before == last
    case Exists(_) => last == None || before.Some?
    case _ => true
  }

  lemma {:induction false} AnswersLineUp(t: Table, final: Table, ops: seq<Op>)
    ensures |AnswersFrom(final, ops)| == |AnswersInOrder(t, ops)| == Known(ops)
  {
    if ops != [] {
      AnswersLineUp(t, final, ops[..|ops| - 1]);
    }
  }

  lemma AppendEqual<T>(x: seq<T>, a: seq<T>, y: seq<T>, b: seq<T>)
    requires |x| == |y|
    ensures x + a == y + b <==> x == y && a == b
  {
    assert (x + a)[..|x|] == x && (y + b)[..|y|] == y;
    assert (x + a)[|x|..] == a && (y + b)[|y|..] == b;
  }

  ghost predicate SameAnswer(t: Table, final: Table, ops: seq<Op>, i: nat)
    requires i < |ops|
  {
    Answer(InOrder(t, ops[..i]), ops[i]) == Answer(final, ops[i])
  }

  lemma {:induction false} AnswersAgree(t: Table, final: Table, ops: seq<Op>)
    ensures AnswersFrom(final, ops) == AnswersInOrder(t, ops)
      <==> forall i :: 0 <= i < |ops| ==> SameAnswer(t, final, ops, i)
  {
    if ops != [] {
      var front, op := ops[..|ops| - 1], ops[|ops| - 1];
      AnswersAgree(t, final, front);
      AnswersLineUp(t, final, front);
      AppendEqual(AnswersFrom(final, front), Answer(final, op), AnswersInOrder(t, front), Answer(InOrder(t, front), op));
      assert SameAnswer(t, final, ops, |front|) <==> Answer(final, op) == Answer(InOrder(t, front), op);
      forall i | 0 <= i < |front| ensures SameAnswer(t, final, front, i) <==> SameAnswer(t, final, ops, i) {
        assert front[..i] == ops[..i];
      }
    }
  }

  lemma SteadyReadAgrees(t: Table, ops: seq<Op>, i: nat)
    requires i < |ops| && Steady(ops, i)
    ensures SameAnswer(t, InOrder(t, ops), ops, i)
  {
    LookupAfter(t, ops, ops[i].key);
    LookupAfter(t, ops[..i], ops[i].key);
    SetBeforeIsSet(ops, i, ops[i].key);
  }

  lemma {:induction false} SetBeforeIsSet(ops: seq<Op>, i: nat, key: string)
    requires i <= |ops|
    ensures LastSet(ops[..i], key).Some? ==> LastSet(ops, key).Some?
  {
    if i < |ops| {
      SetBeforeIsSet(ops[..|ops| - 1], i, key);
      assert ops[..|ops| - 1][..i] == ops[..i];
    } else {
      assert ops[..i] == ops;
    }
  }

  lemma UnsteadyReadDiffers(ops: seq<Op>, i: nat)
    requires i < |ops| && !Steady(ops, i)
    ensures !SameAnswer(map[], InOrder(map[], ops), ops, i)
  {
    LookupAfter(map[], ops, ops[i].key);
    LookupAfter(map[], ops[..i], ops[i].key);
  }

  /** The pipeline answers like the batch run in order, whatever the table holds, exactly
      when every read of the batch is steady. */
  lemma PipelineRefinesOrderIffSteady(ops: seq<Op>)
    ensures (forall t :: AnswersFrom(InOrder(t, ops), ops) == AnswersInOrder(t, ops))
       <==> (forall i :: 0 <= i < |ops| ==> Steady(ops, i))
  {
    if forall i :: 0 <= i < |ops| ==> Steady(ops, i) {
      forall t ensures AnswersFrom(InOrder(t, ops), ops) == AnswersInOrder(t, ops) {
        forall i | 0 <= i < |ops| ensures SameAnswer(t, InOrder(t, ops), ops, i) {
          SteadyReadAgrees(t, ops, i);
        }
        AnswersAgree(t, InOrder(t, ops), ops);
      }
    } else {
      var i :| 0 <= i < |ops| && !Steady(ops, i);
      UnsteadyReadDiffers(ops, i);
      AnswersAgree(map[], InOrder(map[], ops), ops);
      assert AnswersFrom(InOrder(map[], ops), ops) != AnswersInOrder(map[], ops);
    }
  }

  predicate IsRead(op: Op) {
    op.Get? || op.Exists?
  }

  /** In particular when no read of a key comes before a write of that key. */
  lemma NoReadBeforeWriteIsSafe(ops: seq<Op>, t: Table)
    requires forall i, j :: 0 <= i < j < |ops| && IsRead(ops[i]) && ops[j].Set? ==> ops[i].key != ops[j].key
    ensures AnswersFrom(InOrder(t, ops), ops) == AnswersInOrder(t, ops)
  {
    forall i | 0 <= i < |ops| ensures Steady(ops, i) {
      if IsRead(ops[i]) {
        NoLaterSet(ops, i, |ops|);
        assert ops[..|ops|] == ops;
      }
    }
    PipelineRefinesOrderIffSteady(ops);
  }

  lemma {:induction false} NoLaterSet(ops: seq<Op>, i: nat, n: nat)
    requires i < n <= |ops| && IsRead(ops[i])
    requires forall j :: i < j < |ops| && ops[j].Set? ==> ops[i].key != ops[j].key
    ensures LastSet(ops[..n], ops[i].key) == LastSet(ops[..i], ops[i].key)
  {
    assert ops[..n][..n - 1] == ops[..n - 1];
    if i < n - 1 {
      NoLaterSet(ops, i, n - 1);
    }
  }

  /** Such a batch: two reads of an absent key followed by a write of it. In order they find
      nothing; the pipeline answers them with what is written after them. */
  lemma ReadSeesLaterWrite(key: string, value: string)
    ensures var ops := [Get(key), Exists(key), Set(key, value)];
      && AnswersInOrder(map[], ops) == [Nothing, Flag(false), Nothing]
      && AnswersFrom(InOrder(map[], ops), ops) == [Value(value), Flag(true), Nothing]
  {
    var ops, front := [Get(key), Exists(key), Set(key, value)], [Get(key), Exists(key)];
    assert ops[..2] == front && front[..1] == [Get(key)] && [Get(key)][..0] == [];
    assert InOrder(map[], [Get(key)]) == map[] && InOrder(map[], front) == map[];
    assert InOrder(map[], ops) == map[key := value];
    assert AnswersFrom(map[key := value], [Get(key)]) == [Value(value)];
    assert AnswersFrom(map[key := value], front) == [Value(value), Flag(true)];
    assert AnswersInOrder(map[], [Get(key)]) == [Nothing];
    assert AnswersInOrder(map[], front) == [Nothing, Flag(false)];
  }
}
