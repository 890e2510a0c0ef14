/** Non-destructive configuration upgrades: a template is merged into the user's file. */
module ConfigMerge {
  import opened PyCollections

  datatype Value =
    | Text(text: string)
    | Number(number: int)
    | Flag(flag: bool)
    | Null
    | List(elements: seq<Value>)
    | Table(entries: map<string, Value>)

  predicate StartsPlaceholder(v: Value) {
    v.Text? && "${" <= v.text
  }

  /** A string `${...}`, left over from a template that was never filled in. */
  predicate Placeholder(v: Value) {
    StartsPlaceholder(v) && v.text[|v.text| - 1] == '}'
  }

  /** Whether a stored placeholder gives way to a default that is not one itself. */
  predicate Expands(existing: Value, default: Value) {
    Placeholder(existing) && !StartsPlaceholder(default)
  }

  // ----- dotted paths

  function Dotted(prefix: string, key: string): string {
    if prefix == "" then key else prefix + "." + key
  }

  /** The dotted form of a path of keys. */
  function Shown(path: seq<string>): string {
    if path == [] then "" else Dotted(Shown(path[..|path| - 1]), path[|path| - 1])
  }

  lemma ShownExtends(path: seq<string>, key: string)
    ensures Shown(path + [key]) == Dotted(Shown(path), key)
  {
    assert (path + [key])[..|path|] == path;
  }

  datatype Kind = Inserted | Updated | Expanded

  /** One line of the change list; what is printed is the dotted path and, but for an
      insertion, the kind in parentheses. */
  datatype Report = Report(path: seq<string>, kind: Kind)

  // ----- what the merge computes

  /** What the merge leaves under one key. */
  function MergedAt(existing: Value, defaults: Value, at: seq<string>, force: set<string>, k: string): Value
    requires existing.Table? && defaults.Table? && (k in existing.entries || k in defaults.entries)
    decreases defaults, 0
  {
    var e, d := existing.entries, defaults.entries;
    if k !in d then e[k]
    else if Shown(at + [k]) in force || k !in e || Expands(e[k], d[k]) then d[k]
    else if e[k].Table? && d[k].Table? then Merged(e[k], d[k], at + [k], force)
    else e[k]
  }

  /** `at` is the path of the table being merged, `force` the dotted paths to overwrite. */
  function Merged(existing: Value, defaults: Value, at: seq<string>, force: set<string>): (r: Value)
    requires existing.Table? && defaults.Table?
    ensures r.Table? && r.entries.Keys == existing.entries.Keys + defaults.entries.Keys
    decreases defaults, 1
  {
    Table(map k | k in existing.entries.Keys + defaults.entries.Keys :: MergedAt(existing, defaults, at, force, k))
  }

  /** What the merge reports about one key of the template. */
  function Changes(existing: Value, defaults: Value, at: seq<string>, force: set<string>, k: string): set<Report>
    requires existing.Table? && defaults.Table? && k in defaults.entries
    decreases defaults, 0
  {
    var e, d := existing.entries, defaults.entries;
    if Shown(at + [k]) in force then {Report(at + [k], Updated)}
    else if k !in e then {Report(at + [k], Inserted)}
    else if Expands(e[k], d[k]) then {Report(at + [k], Expanded)}
    else if e[k].Table? && d[k].Table? then AllChanges(e[k], d[k], at + [k], force)
    else {}
  }

  function AllChanges(existing: Value, defaults: Value, at: seq<string>, force: set<string>): set<Report>
    requires existing.Table? && defaults.Table?
    decreases defaults, 1
  {
    set k, r | k in defaults.entries && r in Changes(existing, defaults, at, force, k) :: r
  }

  /** What the keys no longer `todo` report. */
  function ChangesOutside(existing: Value, defaults: Value, at: seq<string>, force: set<string>, todo: set<string>): set<Report>
    requires existing.Table? && defaults.Table?
  {
    set k, r | k in defaults.entries && k !in todo && r in Changes(existing, defaults, at, force, k) :: r
  }

  lemma OneKeyMore(existing: Value, defaults: Value, at: seq<string>, force: set<string>, todo: set<string>, key: string)
    requires existing.Table? && defaults.Table? && key in todo && key in defaults.entries
    ensures ChangesOutside(existing, defaults, at, force, todo - {key})
         == ChangesOutside(existing, defaults, at, force, todo) + Changes(existing, defaults, at, force, key)
  {
  }

  lemma AppendReports(a: seq<Report>, b: seq<Report>)
    ensures (set r | r in a + b) == (set r | r in a) + (set r | r in b)
  {
  }

  method MergeMissingValues(existing: Value, defaults: Value, at: seq<string>, pathPrefix: string, force: set<string>)
    returns (merged: Value, inserted: seq<Report>)
    requires existing.Table? && defaults.Table? && pathPrefix == Shown(at)
    ensures merged == Merged(existing, defaults, at, force)
    ensures (set r | r in inserted) == AllChanges(existing, defaults, at, force)
    decreases defaults
  {
    var result := existing.entries;
    inserted := [];
    var todo := defaults.entries.Keys;
    while todo != {}
      invariant todo <= defaults.entries.Keys
      invariant result.Keys == existing.entries.Keys + (defaults.entries.Keys - todo)
      invariant forall k :: k in result && k in todo ==> result[k] == existing.entries[k]
      invariant forall k :: k in result && k !in todo ==> result[k] == MergedAt(existing, defaults, at, force, k)
      invariant (set r | r in inserted) == ChangesOutside(existing, defaults, at, force, todo)
      decreases todo
    {
      var key :| key in todo;
      var default := defaults.entries[key];
      ShownExtends(at, key);
      var dottedPath, added := Dotted(pathPrefix, key), [];
      if dottedPath in force {
        result := result[key := default];
        added := [Report(at + [key], Updated)];
      } else if key !in result {
        result := result[key := default];
        added := [Report(at + [key], Inserted)];
      } else if Expands(result[key], default) {
        result := result[key := default];
        added := [Report(at + [key], Expanded)];
      } else if result[key].Table? && default.Table? {
        var nested, nestedPaths := MergeMissingValues(result[key], default, at + [key], dottedPath, force);
        result := result[key := nested];
        added := nestedPaths;
      }
      assert result[key] == MergedAt(existing, defaults, at, force, key);
      assert (set r | r in added) == Changes(existing, defaults, at, force, key);
      AppendReports(inserted, added);
      OneKeyMore(existing, defaults, at, force, todo, key);
      inserted := inserted + added;
      todo := todo - {key};
    }
    merged := Table(result);
  }

  /** What the upgrade leaves under one key; `replaced` top-level keys are taken from the
      template wholesale. */
  function PreservedAt(existing: Value, defaults: Value, replaced: set<string>, force: set<string>, k: string): Value
    requires existing.Table? && defaults.Table? && (k in existing.entries || k in defaults.entries)
  {
    var e, d := existing.entries, defaults.entries;
    if k !in d then e[k]
    else if k in replaced || k in force || k !in e || Expands(e[k], d[k]) then d[k]
    else if e[k].Table? && d[k].Table? then Merged(e[k], d[k], [k], force)
    else e[k]
  }

  function Preserved(existing: Value, defaults: Value, replaced: set<string>, force: set<string>): (r: Value)
    requires existing.Table? && defaults.Table?
    ensures r.Table? && r.entries.Keys == defaults.entries.Keys + (existing.entries.Keys - replaced)
  {
    Table(map k | k in defaults.entries.Keys + (existing.entries.Keys - replaced) ::
      PreservedAt(existing, defaults, replaced, force, k))
  }

  /** A replaced key is reported only when the user's file did not have it. */
  function PreservedChanges(existing: Value, defaults: Value, replaced: set<string>, force: set<string>, k: string): set<Report>
    requires existing.Table? && defaults.Table? && k in defaults.entries
  {
    var e, d := existing.entries, defaults.entries;
    if k in replaced then (if k in e then {} else {Report([k], Inserted)})
    else if k in force then {Report([k], Updated)}
    else if k !in e then {Report([k], Inserted)}
    else if Expands(e[k], d[k]) then {Report([k], Expanded)}
    else if e[k].Table? && d[k].Table? then AllChanges(e[k], d[k], [k], force)
    else {}
  }

  function AllPreservedChanges(existing: Value, defaults: Value, replaced: set<string>, force: set<string>): set<Report>
    requires existing.Table? && defaults.Table?
  {
    set k, r | k in defaults.entries && r in PreservedChanges(existing, defaults, replaced, force, k) :: r
  }

  method MergePreservingExisting(existing: Value, defaults: Value, replaced: set<string>, force: set<string>)
    returns (merged: Value, inserted: seq<Report>)
    requires existing.Table? && defaults.Table?
    ensures merged == Preserved(existing, defaults, replaced, force)
    ensures (set r | r in inserted) == AllPreservedChanges(existing, defaults, replaced, force)
  {
    var result := defaults.entries;
    inserted := [];
    var todo := defaults.entries.Keys;
    while todo != {}
      invariant todo <= defaults.entries.Keys
      invariant result.Keys == defaults.entries.Keys
      invariant forall k :: k in result ==>
        result[k] == if k in todo then defaults.entries[k] else PreservedAt(existing, defaults, replaced, force, k)
      invariant forall r :: r in inserted <==>
        exists k :: k in defaults.entries && k !in todo && r in PreservedChanges(existing, defaults, replaced, force, k)
      decreases todo
    {
      var key :| key in todo;
      var default := defaults.entries[key];
      todo := todo - {key};
      if key in replaced {
        if key !in existing.entries {
          inserted := inserted + [Report([key], Inserted)];
        }
      } else if key in force {
        inserted := inserted + [Report([key], Updated)];
      } else if key !in existing.entries {
        inserted := inserted + [Report([key], Inserted)];
      } else {
        var value := existing.entries[key];
        if Expands(value, default) {
          result := result[key := default];
          inserted := inserted + [Report([key], Expanded)];
        } else if value.Table? && default.Table? {
          var nested, nestedPaths := MergeMissingValues(value, default, [key], key, force);
          result := result[key := nested];
          inserted := inserted + nestedPaths;
        } else {
          result := result[key := value];
        }
      }
    }
    result := AddUserKeys(result, existing, replaced);
    merged := Table(result);
  }

  /** The keys only the user's file has. */
  method AddUserKeys(entries: map<string, Value>, existing: Value, replaced: set<string>) returns (result: map<string, Value>)
    requires existing.Table?
    ensures result.Keys == entries.Keys + (existing.entries.Keys - replaced)
    ensures forall k :: k in result ==> result[k] == if k in entries then entries[k] else existing.entries[k]
  {
    result := entries;
    var todo := existing.entries.Keys;
    while todo != {}
      invariant todo <= existing.entries.Keys
      invariant result.Keys == entries.Keys + (existing.entries.Keys - todo - replaced)
      invariant forall k :: k in result ==> result[k] == if k in entries then entries[k] else existing.entries[k]
      decreases todo
    {
      var key :| key in todo;
      if key !in replaced && key !in result {
        result := result[key := existing.entries[key]];
      }
      todo := todo - {key};
    }
  }

  // ----- the user's settings survive

  function Lookup(v: Value, path: seq<string>): Option<Value> {
    if path == [] then Some(v)
    else if v.Table? && path[0] in v.entries then Lookup(v.entries[path[0]], path[1..])
    else None
  }

  /** A setting the user has given a value: not a section, not an unfilled placeholder. */
  predicate Concrete(v: Value) {
    !v.Table? && !Placeholder(v)
  }

  /** No prefix of the path, taken below `at`, is forced. */
  ghost predicate Unforced(at: seq<string>, path: seq<string>, force: set<string>) {
    forall i :: 1 <= i <= |path| ==> Shown(at + path[..i]) !in force
  }

  lemma UnforcedBelow(at: seq<string>, path: seq<string>, force: set<string>)
    requires path != [] && Unforced(at, path, force)
    ensures Shown(at + [path[0]]) !in force
    ensures Unforced(at + [path[0]], path[1..], force)
  {
    assert path[..1] == [path[0]];
    forall i | 1 <= i <= |path[1..]| ensures Shown(at + [path[0]] + path[1..][..i]) !in force {
      assert at + [path[0]] + path[1..][..i] == at + path[..i + 1];
    }
  }

  lemma {:induction false} SettingSurvivesMerge(existing: Value, defaults: Value, at: seq<string>, force: set<string>,
                                                path: seq<string>)
    requires existing.Table? && defaults.Table? && path != []
    requires Lookup(existing, path).Some? && Concrete(Lookup(existing, path).value)
    requires Unforced(at, path, force)
    ensures Lookup(Merged(existing, defaults, at, force), path) == Lookup(existing, path)
    decreases |path|
  {
    UnforcedBelow(at, path, force);
    var k := path[0];
    if k in defaults.entries && existing.entries[k].Table? && defaults.entries[k].Table? {
      SettingSurvivesMerge(existing.entries[k], defaults.entries[k], at + [k], force, path[1..]);
    }
  }

  lemma SettingSurvivesUpgrade(existing: Value, defaults: Value, replaced: set<string>, force: set<string>, path: seq<string>)
    requires existing.Table? && defaults.Table? && path != []
    requires Lookup(existing, path).Some? && Concrete(Lookup(existing, path).value)
    requires path[0] !in replaced && Unforced([], path, force)
    ensures Lookup(Preserved(existing, defaults, replaced, force), path) == Lookup(existing, path)
  {
    UnforcedBelow([], path, force);
    var k := path[0];
    assert [] + [k] == [k];
    ShownExtends([], k);
    if k in defaults.entries && existing.entries[k].Table? && defaults.entries[k].Table? {
      SettingSurvivesMerge(existing.entries[k], defaults.entries[k], [k], force, path[1..]);
    }
  }

  /** One upgrade of the installed software. */
  datatype Upgrade = Upgrade(template: Value, replaced: set<string>, force: set<string>)

  function Upgraded(config: Value, upgrades: seq<Upgrade>): (r: Value)
    requires config.Table? && forall u :: u in upgrades ==> u.template.Table?
    ensures r.Table?
  {
    if upgrades == [] then config
    else
      var u := upgrades[|upgrades| - 1];
      Preserved(Upgraded(config, upgrades[..|upgrades| - 1]), u.template, u.replaced, u.force)
  }

  /** A setting the user has given a value keeps it through any sequence of upgrades with any
      templates, as long as none of them replaces its section or forces a part of its path. */
  lemma {:induction false} SettingsSurviveUpgrades(config: Value, upgrades: seq<Upgrade>, path: seq<string>)
    requires config.Table? && forall u :: u in upgrades ==> u.template.Table?
    requires path != [] && Lookup(config, path).Some? && Concrete(Lookup(config, path).value)
    requires forall u :: u in upgrades ==> path[0] !in u.replaced && Unforced([], path, u.force)
    ensures Lookup(Upgraded(config, upgrades), path) == Lookup(config, path)
  {
    if upgrades != [] {
      var front, u := upgrades[..|upgrades| - 1], upgrades[|upgrades| - 1];
      SettingsSurviveUpgrades(config, front, path);
      SettingSurvivesUpgrade(Upgraded(config, front), u.template, u.replaced, u.force, path);
    }
  }

  // ----- the algebra of the merge

  lemma {:induction false} MergeSelf(v: Value, at: seq<string>, force: set<string>)
    requires v.Table?
    ensures Merged(v, v, at, force) == v
    decreases v
  {
    forall k | k in v.entries ensures MergedAt(v, v, at, force, k) == v.entries[k] {
      if v.entries[k].Table? {
        MergeSelf(v.entries[k], at + [k], force);
      }
    }
    assert Merged(v, v, at, force).entries == v.entries;
  }

  lemma {:induction false} MergeTwice(existing: Value, defaults: Value, at: seq<string>, force: set<string>)
    requires existing.Table? && defaults.Table?
    ensures Merged(Merged(existing, defaults, at, force), defaults, at, force) == Merged(existing, defaults, at, force)
    decreases defaults
  {
    var once := Merged(existing, defaults, at, force);
    var twice := Merged(once, defaults, at, force);
    var e, d := existing.entries, defaults.entries;
    forall k | k in once.entries ensures twice.entries[k] == once.entries[k] {
      assert once.entries[k] == MergedAt(existing, defaults, at, force, k);
      assert twice.entries[k] == MergedAt(once, defaults, at, force, k);
      if k in d && d[k].Table? {
        MergeSelf(d[k], at + [k], force);
        if k in e && e[k].Table? {
          MergeTwice(e[k], d[k], at + [k], force);
        }
      }
    }
    assert twice.entries == once.entries;
  }

  /** Running the same upgrade again changes nothing, forced and replaced keys included. */
  lemma UpgradeIsIdempotent(existing: Value, defaults: Value, replaced: set<string>, force: set<string>)
    requires existing.Table? && defaults.Table?
    ensures Preserved(Preserved(existing, defaults, replaced, force), defaults, replaced, force)
         == Preserved(existing, defaults, replaced, force)
  {
    var once := Preserved(existing, defaults, replaced, force);
    var twice := Preserved(once, defaults, replaced, force);
    var e, d := existing.entries, defaults.entries;
    forall k | k in once.entries ensures twice.entries[k] == once.entries[k] {
      if k in d && d[k].Table? {
        MergeSelf(d[k], [k], force);
        if k in e && e[k].Table? {
          MergeTwice(e[k], d[k], [k], force);
        }
      }
    }
    assert twice.entries == once.entries;
  }

  /** With no replaced keys the two merges agree on the mapping and on the change list. */
  lemma MergesAgree(existing: Value, defaults: Value, force: set<string>)
    requires existing.Table? && defaults.Table?
    ensures Preserved(existing, defaults, {}, force) == Merged(existing, defaults, [], force)
    ensures AllPreservedChanges(existing, defaults, {}, force) == AllChanges(existing, defaults, [], force)
  {
    forall k ensures [] + [k] == [k] && Shown([] + [k]) == k {
      ShownExtends([], k);
    }
    assert Preserved(existing, defaults, {}, force).entries == Merged(existing, defaults, [], force).entries;
    forall k | k in defaults.entries
      ensures PreservedChanges(existing, defaults, {}, force, k) == Changes(existing, defaults, [], force, k)
    {
    }
  }

  // ----- the change list

  lemma ChangesIncluded(existing: Value, defaults: Value, at: seq<string>, force: set<string>, k: string)
    requires existing.Table? && defaults.Table? && k in defaults.entries
    ensures Changes(existing, defaults, at, force, k) <= AllChanges(existing, defaults, at, force)
  {
    forall r | r in Changes(existing, defaults, at, force, k) ensures r in AllChanges(existing, defaults, at, force) {
    }
  }

  /** With nothing forced, the change list is empty exactly when nothing changed. */
  lemma {:induction false} ChangeListIsExact(existing: Value, defaults: Value, at: seq<string>)
    requires existing.Table? && defaults.Table?
    ensures AllChanges(existing, defaults, at, {}) == {} <==> Merged(existing, defaults, at, {}) == existing
    decreases defaults
  {
    var merged := Merged(existing, defaults, at, {});
    var e, d := existing.entries, defaults.entries;
    forall k | k in d
      ensures Changes(existing, defaults, at, {}, k) == {} <==> k in e && merged.entries[k] == e[k]
    {
      assert merged.entries[k] == MergedAt(existing, defaults, at, {}, k);
      if k in e && e[k].Table? && d[k].Table? {
        ChangeListIsExact(e[k], d[k], at + [k]);
      }
    }
    forall k | k in d ensures Changes(existing, defaults, at, {}, k) <= AllChanges(existing, defaults, at, {}) {
      ChangesIncluded(existing, defaults, at, {}, k);
    }
    if AllChanges(existing, defaults, at, {}) == {} {
      forall k | k in merged.entries ensures k in e && merged.entries[k] == e[k] {
        assert merged.entries[k] == MergedAt(existing, defaults, at, {}, k);
      }
      assert merged.entries == e;
    }
  }

  /** The same value, or both sections. */
  predicate Alike(a: Option<Value>, b: Option<Value>) {
    a == b || (a.Some? && b.Some? && a.value.Table? && b.value.Table?)
  }

  /** Some report of the set lies on the way to `path`. */
  ghost predicate Reported(reports: set<Report>, path: seq<string>) {
    exists r :: r in reports && r.path <= path
  }

  /** The merged configuration differs from the user's only at or beneath reported paths. */
  lemma {:induction false} ChangesAreReported(existing: Value, defaults: Value, at: seq<string>, force: set<string>,
                                              path: seq<string>)
    requires existing.Table? && defaults.Table?
    requires !Reported(AllChanges(existing, defaults, at, force), at + path)
    ensures Alike(Lookup(existing, path), Lookup(Merged(existing, defaults, at, force), path))
    decreases |path|
  {
    if path != [] && path[0] in defaults.entries {
      var k := path[0];
      var e, d := existing.entries, defaults.entries;
      assert at + [k] + path[1..] == at + path;
      forall r | r in Changes(existing, defaults, at, force, k) ensures !(r.path <= at + path) {
        assert r in AllChanges(existing, defaults, at, force);
      }
      assert at + [k] <= at + path;
      assert Report(at + [k], Updated).path <= at + path;
      if k in e && e[k].Table? && d[k].Table? && Shown(at + [k]) !in force && !Expands(e[k], d[k]) {
        ChangesAreReported(e[k], d[k], at + [k], force, path[1..]);
      }
    }
  }

  /** For a whole upgrade: only at or beneath reported paths, or inside replaced sections. */
  lemma UpgradeChangesAreReported(existing: Value, defaults: Value, replaced: set<string>, force: set<string>,
                                  path: seq<string>)
    requires existing.Table? && defaults.Table? && path != [] && path[0] !in replaced
    requires !Reported(AllPreservedChanges(existing, defaults, replaced, force), path)
    ensures Alike(Lookup(existing, path), Lookup(Preserved(existing, defaults, replaced, force), path))
  {
    if path[0] in defaults.entries {
      var k := path[0];
      var e, d := existing.entries, defaults.entries;
      assert [k] + path[1..] == path;
      forall r | r in PreservedChanges(existing, defaults, replaced, force, k) ensures !(r.path <= path) {
        assert r in AllPreservedChanges(existing, defaults, replaced, force);
      }
      assert Report([k], Updated).path <= path;
      if k in e && e[k].Table? && d[k].Table? && k !in force {
        ChangesAreReported(e[k], d[k], [k], force, path[1..]);
      }
    }
  }

  // ----- when an upgrade reports everything it changes

  /** Reports about a table lie below it. */
  lemma {:induction false} ReportsLieBelow(existing: Value, defaults: Value, at: seq<string>, force: set<string>, r: Report)
    requires existing.Table? && defaults.Table? && r in AllChanges(existing, defaults, at, force)
    ensures at <= r.path && |at| < |r.path|
    decreases defaults
  {
    var k :| k in defaults.entries && r in Changes(existing, defaults, at, force, k);
    var e, d := existing.entries, defaults.entries;
    if !(Shown(at + [k]) in force || k !in e || Expands(e[k], d[k])) && e[k].Table? && d[k].Table? {
      ReportsLieBelow(e[k], d[k], at + [k], force, r);
      assert at <= at + [k] <= r.path;
    }
  }

  /** Nothing is reported at or under a replaced key the user already had. */
  lemma ReplacedIsSilent(existing: Value, defaults: Value, replaced: set<string>, force: set<string>, path: seq<string>)
    requires existing.Table? && defaults.Table? && path != [] && path[0] in replaced && path[0] in existing.entries
    ensures !Reported(AllPreservedChanges(existing, defaults, replaced, force), path)
  {
    forall r | r in AllPreservedChanges(existing, defaults, replaced, force) ensures !(r.path <= path) {
      var k :| k in defaults.entries && r in PreservedChanges(existing, defaults, replaced, force, k);
      var e, d := existing.entries, defaults.entries;
      if k in e && e[k].Table? && d[k].Table? && k !in force && k !in replaced {
        ReportsLieBelow(e[k], d[k], [k], force, r);
      }
      assert r.path != [] && r.path[0] == k;
    }
  }

  lemma LookupBelow(v: Value, k: string, path: seq<string>)
    requires v.Table?
    ensures Lookup(v, [k] + path) == if k in v.entries then Lookup(v.entries[k], path) else None
  {
    assert ([k] + path)[1..] == path;
  }

  /** Two values alike along every path are the same. */
  lemma {:induction false} AlikeEverywhere(a: Value, b: Value)
    requires forall path: seq<string> :: Alike(Lookup(a, path), Lookup(b, path))
    ensures a == b
    decreases a
  {
    assert Alike(Lookup(a, []), Lookup(b, []));
    if a.Table? {
      forall k | k in a.entries || k in b.entries
        ensures k in a.entries && k in b.entries && a.entries[k] == b.entries[k]
      {
        assert Alike(Lookup(a, [k] + []), Lookup(b, [k] + []));
        LookupBelow(a, k, []);
        LookupBelow(b, k, []);
        forall path: seq<string> ensures Alike(Lookup(a.entries[k], path), Lookup(b.entries[k], path)) {
          LookupBelow(a, k, path);
          LookupBelow(b, k, path);
          assert Alike(Lookup(a, [k] + path), Lookup(b, [k] + path));
        }
        AlikeEverywhere(a.entries[k], b.entries[k]);
      }
      assert a.entries == b.entries;
    }
  }

  /** Wherever the upgrade differs from the user's file, it says so. */
  ghost predicate ReportsEverything(existing: Value, defaults: Value, replaced: set<string>, force: set<string>)
    requires existing.Table? && defaults.Table?
  {
    forall path: seq<string> :: path != [] && !Reported(AllPreservedChanges(existing, defaults, replaced, force), path) ==>
      Alike(Lookup(existing, path), Lookup(Preserved(existing, defaults, replaced, force), path))
  }

  /** Every replaced section the user has is in the template, unchanged. */
  predicate ReplacesNothing(existing: Value, defaults: Value, replaced: set<string>)
    requires existing.Table? && defaults.Table?
  {
    forall k :: k in replaced && k in existing.entries ==>
      k in defaults.entries && defaults.entries[k] == existing.entries[k]
  }

  lemma SilentChange(existing: Value, defaults: Value, replaced: set<string>, force: set<string>, k: string)
    requires existing.Table? && defaults.Table? && ReportsEverything(existing, defaults, replaced, force)
    requires k in replaced && k in existing.entries
    ensures k in defaults.entries && defaults.entries[k] == existing.entries[k]
  {
    var result := Preserved(existing, defaults, replaced, force);
    forall path: seq<string> ensures Alike(Lookup(existing, [k] + path), Lookup(result, [k] + path)) {
      ReplacedIsSilent(existing, defaults, replaced, force, [k] + path);
    }
    assert Alike(Lookup(existing, [k] + []), Lookup(result, [k] + []));
    LookupBelow(existing, k, []);
    LookupBelow(result, k, []);
    forall path: seq<string> ensures Alike(Lookup(existing.entries[k], path), Lookup(result.entries[k], path)) {
      LookupBelow(existing, k, path);
      LookupBelow(result, k, path);
      assert Alike(Lookup(existing, [k] + path), Lookup(result, [k] + path));
    }
    AlikeEverywhere(existing.entries[k], result.entries[k]);
  }

  lemma ReplacedAlike(existing: Value, defaults: Value, replaced: set<string>, force: set<string>, path: seq<string>)
    requires existing.Table? && defaults.Table? && ReplacesNothing(existing, defaults, replaced)
    requires path != [] && path[0] in replaced
    ensures Reported(AllPreservedChanges(existing, defaults, replaced, force), path)
         || Lookup(existing, path) == Lookup(Preserved(existing, defaults, replaced, force), path)
  {
    var k := path[0];
    if k !in existing.entries && k in defaults.entries {
      assert Report([k], Inserted) in PreservedChanges(existing, defaults, replaced, force, k);
      assert Report([k], Inserted).path <= path;
    }
  }

  /** Every change of an upgrade lies at or beneath a reported path if and only if each
      replaced section the user has is in the template with the very same value. */
  lemma UpgradeReportsEverythingIff(existing: Value, defaults: Value, replaced: set<string>, force: set<string>)
    requires existing.Table? && defaults.Table?
    ensures ReportsEverything(existing, defaults, replaced, force) <==> ReplacesNothing(existing, defaults, replaced)
  {
    if ReportsEverything(existing, defaults, replaced, force) {
      forall k | k in replaced && k in existing.entries
        ensures k in defaults.entries && defaults.entries[k] == existing.entries[k]
      {
        SilentChange(existing, defaults, replaced, force, k);
      }
    }
    if ReplacesNothing(existing, defaults, replaced) {
      forall path: seq<string> | path != [] && !Reported(AllPreservedChanges(existing, defaults, replaced, force), path)
        ensures Alike(Lookup(existing, path), Lookup(Preserved(existing, defaults, replaced, force), path))
      {
        if path[0] in replaced {
          ReplacedAlike(existing, defaults, replaced, force, path);
        } else {
          UpgradeChangesAreReported(existing, defaults, replaced, force, path);
        }
      }
    }
  }

  /** A replaced setting takes the template's value and nothing is reported. */
  lemma ReplacedSilently(k: string, mine: Value, theirs: Value)
    ensures var e, d := Table(map[k := mine]), Table(map[k := theirs]);
      Preserved(e, d, {k}, {}) == d && AllPreservedChanges(e, d, {k}, {}) == {}
  {
    assert Preserved(Table(map[k := mine]), Table(map[k := theirs]), {k}, {}).entries == map[k := theirs];
  }

  /** A replaced setting the template no longer has is dropped and nothing is reported. */
  lemma DroppedSilently(k: string, mine: Value)
    ensures var e, d := Table(map[k := mine]), Table(map[]);
      Preserved(e, d, {k}, {}) == d && AllPreservedChanges(e, d, {k}, {}) == {}
  {
    assert Preserved(Table(map[k := mine]), Table(map[]), {k}, {}).entries == map[];
  }
}
