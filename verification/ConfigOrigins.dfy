/** Where each value of a merged configuration comes from: at a path that runs through sections
    of both files, the template's value arrives if it is forced, missing or due to fill a
    placeholder, and otherwise the user's stays. */
module ConfigOrigins {
  import opened PyCollections
  import opened ConfigMerge

  /** The path runs through sections of both files and no section on its way is forced. */
  ghost predicate Reached(existing: Value, defaults: Value, at: seq<string>, path: seq<string>, force: set<string>)
    requires existing.Table? && defaults.Table?
    decreases |path|
  {
    path != [] &&
    var k, e, d := path[0], existing.entries, defaults.entries;
    (|path| > 1 ==> k in e && k in d && e[k].Table? && d[k].Table? && Shown(at + [k]) !in force
                    && Reached(e[k], d[k], at + [k], path[1..], force))
  }

  /** A text that begins with `${` and ends with `}` stands where the template has a value that
      is no text beginning with `${`. */
  predicate ToFill(mine: Option<Value>, theirs: Option<Value>) {
    && mine.Some? && mine.value.Text? && 3 <= |mine.value.text|
    && mine.value.text[0] == '$' && mine.value.text[1] == '{' && mine.value.text[|mine.value.text| - 1] == '}'
    && theirs.Some?
    && !(theirs.value.Text? && 2 <= |theirs.value.text| && theirs.value.text[0] == '$' && theirs.value.text[1] == '{')
  }

  /** What is reported of a value that comes from the template. */
  function Reason(mine: Option<Value>, shown: string, force: set<string>): Kind {
    if shown in force then Updated else if mine.None? then Inserted else Expanded
  }

  lemma FillMeansExpand(mine: Value, theirs: Value)
    ensures ToFill(Some(mine), Some(theirs)) <==> Expands(mine, theirs)
  {
    if mine.Text? && 2 <= |mine.text| {
      assert mine.text[0] == '$' && mine.text[1] == '{' <==> "${" <= mine.text;
    }
    if theirs.Text? && 2 <= |theirs.text| {
      assert theirs.text[0] == '$' && theirs.text[1] == '{' <==> "${" <= theirs.text;
    }
  }

  lemma Inside(existing: Value, defaults: Value, at: seq<string>, force: set<string>, k: string, r: Report)
    requires existing.Table? && defaults.Table? && k in existing.entries && k in defaults.entries
    requires existing.entries[k].Table? && defaults.entries[k].Table? && Shown(at + [k]) !in force
    ensures Merged(existing, defaults, at, force).entries[k] == Merged(existing.entries[k], defaults.entries[k], at + [k], force)
    ensures r in AllChanges(existing.entries[k], defaults.entries[k], at + [k], force) ==> r in AllChanges(existing, defaults, at, force)
  {
    assert Merged(existing, defaults, at, force).entries[k] == MergedAt(existing, defaults, at, force, k);
    ChangesIncluded(existing, defaults, at, force, k);
  }

  lemma TemplateArrivesHere(existing: Value, defaults: Value, at: seq<string>, force: set<string>, k: string)
    requires existing.Table? && defaults.Table? && k in defaults.entries
    requires Shown(at + [k]) in force || k !in existing.entries || Expands(existing.entries[k], defaults.entries[k])
    ensures Merged(existing, defaults, at, force).entries[k] == defaults.entries[k]
    ensures Report(at + [k], Reason(if k in existing.entries then Some(existing.entries[k]) else None, Shown(at + [k]), force))
      in AllChanges(existing, defaults, at, force)
  {
    assert Merged(existing, defaults, at, force).entries[k] == MergedAt(existing, defaults, at, force, k);
    ChangesIncluded(existing, defaults, at, force, k);
  }

  /** A forced, a missing and a value to be filled in: the template's is there, and reported as such. */
  lemma {:induction false} TemplateArrives(existing: Value, defaults: Value, at: seq<string>, force: set<string>, path: seq<string>)
    requires existing.Table? && defaults.Table? && Reached(existing, defaults, at, path, force)
    requires Lookup(defaults, path).Some?
    requires Shown(at + path) in force || Lookup(existing, path).None? || ToFill(Lookup(existing, path), Lookup(defaults, path))
    ensures Lookup(Merged(existing, defaults, at, force), path) == Lookup(defaults, path)
    ensures Report(at + path, Reason(Lookup(existing, path), Shown(at + path), force)) in AllChanges(existing, defaults, at, force)
    decreases |path|
  {
    var k, e, d := path[0], existing.entries, defaults.entries;
    if |path| == 1 {
      assert path == [k];
      if k in e {
        FillMeansExpand(e[k], d[k]);
      }
      TemplateArrivesHere(existing, defaults, at, force, k);
    } else {
      assert at + [k] + path[1..] == at + path;
      TemplateArrives(e[k], d[k], at + [k], force, path[1..]);
      Inside(existing, defaults, at, force, k,
        Report(at + path, Reason(Lookup(existing, path), Shown(at + path), force)));
    }
  }

  lemma UserStaysHere(existing: Value, defaults: Value, at: seq<string>, force: set<string>, k: string)
    requires existing.Table? && defaults.Table? && k in existing.entries && Shown(at + [k]) !in force
    requires k in defaults.entries ==>
      !Expands(existing.entries[k], defaults.entries[k]) && !(existing.entries[k].Table? && defaults.entries[k].Table?)
    ensures Merged(existing, defaults, at, force).entries[k] == existing.entries[k]
  {
    assert Merged(existing, defaults, at, force).entries[k] == MergedAt(existing, defaults, at, force, k);
  }

  /** Any other value stays the user's: one the template lacks, one that is no placeholder, and
      a placeholder where the template has one too. */
  lemma {:induction false} UserValueStays(existing: Value, defaults: Value, at: seq<string>, force: set<string>, path: seq<string>)
    requires existing.Table? && defaults.Table? && Reached(existing, defaults, at, path, force)
    requires Shown(at + path) !in force && Lookup(existing, path).Some? && !ToFill(Lookup(existing, path), Lookup(defaults, path))
    requires !(Lookup(existing, path).value.Table? && Lookup(defaults, path).Some? && Lookup(defaults, path).value.Table?)
    ensures Lookup(Merged(existing, defaults, at, force), path) == Lookup(existing, path)
    decreases |path|
  {
    var k, e, d := path[0], existing.entries, defaults.entries;
    if |path| == 1 {
      assert path == [k];
      if k in d {
        FillMeansExpand(e[k], d[k]);
      }
      UserStaysHere(existing, defaults, at, force, k);
    } else {
      assert at + [k] + path[1..] == at + path;
      UserValueStays(e[k], d[k], at + [k], force, path[1..]);
      Inside(existing, defaults, at, force, k, Report([], Inserted));
    }
  }

  // ----- a whole upgrade

  /** What is reported about a key lies at or below it. */
  lemma ReportsBegin(existing: Value, defaults: Value, force: set<string>, k: string, r: Report)
    requires existing.Table? && defaults.Table? && k in defaults.entries && r in Changes(existing, defaults, [], force, k)
    ensures r.path != [] && r.path[0] == k
  {
    var e, d := existing.entries, defaults.entries;
    assert [] + [k] == [k];
    if !(Shown([] + [k]) in force || k !in e || Expands(e[k], d[k])) && e[k].Table? && d[k].Table? {
      ReportsLieBelow(e[k], d[k], [] + [k], force, r);
      assert r.path[..1] == [k];
    }
  }

  lemma UpgradeAgreesBelow(existing: Value, defaults: Value, replaced: set<string>, force: set<string>, path: seq<string>)
    requires existing.Table? && defaults.Table? && path != [] && path[0] !in replaced
    ensures Lookup(Preserved(existing, defaults, replaced, force), path) == Lookup(Merged(existing, defaults, [], force), path)
  {
    var k := path[0];
    ShownExtends([], k);
    assert [] + [k] == [k];
    if k in defaults.entries {
      assert Merged(existing, defaults, [], force).entries[k] == MergedAt(existing, defaults, [], force, k);
      assert Preserved(existing, defaults, replaced, force).entries[k] == PreservedAt(existing, defaults, replaced, force, k);
    }
  }

  lemma UpgradeReportsBelow(existing: Value, defaults: Value, replaced: set<string>, force: set<string>, r: Report)
    requires existing.Table? && defaults.Table? && r.path != [] && r.path[0] !in replaced
    requires r in AllChanges(existing, defaults, [], force)
    ensures r in AllPreservedChanges(existing, defaults, replaced, force)
  {
    var j :| j in defaults.entries && r in Changes(existing, defaults, [], force, j);
    ReportsBegin(existing, defaults, force, j, r);
    ShownExtends([], j);
    assert [] + [j] == [j];
    assert r in PreservedChanges(existing, defaults, replaced, force, j);
  }

  /** The same for a whole upgrade, outside the replaced sections. */
  lemma TemplateArrivesInUpgrade(existing: Value, defaults: Value, replaced: set<string>, force: set<string>, path: seq<string>)
    requires existing.Table? && defaults.Table? && Reached(existing, defaults, [], path, force) && path[0] !in replaced
    requires Lookup(defaults, path).Some?
    requires Shown(path) in force || Lookup(existing, path).None? || ToFill(Lookup(existing, path), Lookup(defaults, path))
    ensures Lookup(Preserved(existing, defaults, replaced, force), path) == Lookup(defaults, path)
    ensures Report(path, Reason(Lookup(existing, path), Shown(path), force)) in AllPreservedChanges(existing, defaults, replaced, force)
  {
    assert [] + path == path;
    TemplateArrives(existing, defaults, [], force, path);
    UpgradeAgreesBelow(existing, defaults, replaced, force, path);
    UpgradeReportsBelow(existing, defaults, replaced, force, Report(path, Reason(Lookup(existing, path), Shown(path), force)));
  }

  lemma UserValueStaysInUpgrade(existing: Value, defaults: Value, replaced: set<string>, force: set<string>, path: seq<string>)
    requires existing.Table? && defaults.Table? && Reached(existing, defaults, [], path, force) && path[0] !in replaced
    requires Shown(path) !in force && Lookup(existing, path).Some? && !ToFill(Lookup(existing, path), Lookup(defaults, path))
    requires !(Lookup(existing, path).value.Table? && Lookup(defaults, path).Some? && Lookup(defaults, path).value.Table?)
    ensures Lookup(Preserved(existing, defaults, replaced, force), path) == Lookup(existing, path)
  {
    assert [] + path == path;
    UserValueStays(existing, defaults, [], force, path);
    UpgradeAgreesBelow(existing, defaults, replaced, force, path);
  }

  /** A replaced section is the template's through and through, and one the user did not have
      is reported as inserted. */
  lemma ReplacedIsTheTemplate(existing: Value, defaults: Value, replaced: set<string>, force: set<string>, path: seq<string>)
    requires existing.Table? && defaults.Table? && path != [] && path[0] in replaced
    ensures Lookup(Preserved(existing, defaults, replaced, force), path) == Lookup(defaults, path)
    ensures path[0] in defaults.entries && path[0] !in existing.entries
      ==> Report([path[0]], Inserted) in AllPreservedChanges(existing, defaults, replaced, force)
  {
    var k := path[0];
    if k in defaults.entries {
      assert Preserved(existing, defaults, replaced, force).entries[k] == PreservedAt(existing, defaults, replaced, force, k);
      if k !in existing.entries {
        assert Report([k], Inserted) in PreservedChanges(existing, defaults, replaced, force, k);
      }
    }
  }

  /** A text `${...}` gives way if and only if the template's value is no text beginning with `${`. */
  lemma PlaceholderIsFilledIff(existing: Value, defaults: Value, at: seq<string>, force: set<string>, path: seq<string>,
                               name: string, theirs: Value)
    requires existing.Table? && defaults.Table? && Reached(existing, defaults, at, path, force) && Shown(at + path) !in force
    requires Lookup(existing, path) == Some(Text("${" + name + "}")) && Lookup(defaults, path) == Some(theirs)
    ensures Lookup(Merged(existing, defaults, at, force), path)
      == if theirs.Text? && "${" <= theirs.text then Lookup(existing, path) else Lookup(defaults, path)
  {
    FillMeansExpand(Text("${" + name + "}"), theirs);
    if theirs.Text? && "${" <= theirs.text {
      UserValueStays(existing, defaults, at, force, path);
    } else {
      TemplateArrives(existing, defaults, at, force, path);
    }
  }

  // ----- what a dotted path names

  /** A key that can be told apart in a dotted path. */
  predicate Plain(key: string) {
    key != "" && '.' !in key
  }

  ghost predicate AllPlain(path: seq<string>) {
    forall i :: 0 <= i < |path| ==> Plain(path[i])
  }

  lemma LastDot(a: string, k: string, b: string, l: string)
    requires '.' !in k && '.' !in l && a + "." + k == b + "." + l
    ensures a == b && k == l
  {
    var s := a + "." + k;
    assert s[|a|] == '.' && s[|b|] == '.';
    assert s[|a| + 1..] == k && s[|b| + 1..] == l;
    assert forall i :: |a| < i < |s| ==> s[i] == k[i - |a| - 1] && s[i] in k;
    assert forall i :: |b| < i < |s| ==> s[i] == l[i - |b| - 1] && s[i] in l;
    assert s[..|a|] == a && s[..|b|] == b;
  }

  /** The dotted form of plain keys is empty only for no keys, and has a dot only for two or more. */
  lemma {:induction false} ShownOfPlain(path: seq<string>)
    requires AllPlain(path)
    ensures Shown(path) == "" <==> path == []
    ensures |path| >= 2 ==> Shown(path) == Shown(path[..|path| - 1]) + "." + path[|path| - 1]
    ensures |path| == 1 ==> Shown(path) == path[0]
    ensures '.' in Shown(path) <==> |path| >= 2
  {
    if path != [] {
      ShownOfPlain(path[..|path| - 1]);
    }
  }

  /** Two paths of plain keys have the same dotted form only if they are the same: a forced or
      reported dotted path then names one place. */
  lemma {:induction false} ShownInjective(a: seq<string>, b: seq<string>)
    requires AllPlain(a) && AllPlain(b) && Shown(a) == Shown(b)
    ensures a == b
  {
    ShownOfPlain(a);
    ShownOfPlain(b);
    if |a| >= 2 && |b| >= 2 {
      var k, l := a[|a| - 1], b[|b| - 1];
      LastDot(Shown(a[..|a| - 1]), k, Shown(b[..|b| - 1]), l);
      ShownInjective(a[..|a| - 1], b[..|b| - 1]);
      assert a == a[..|a| - 1] + [k] && b == b[..|b| - 1] + [l];
    }
  }

  /** A key that holds a dot is taken for a path: forcing `a.b` overwrites it too. */
  lemma DottedKeyIsForced(mine: Value, theirs: Value)
    ensures Shown(["a.b"]) == Shown(["a", "b"])
    ensures Merged(Table(map["a.b" := mine]), Table(map["a.b" := theirs]), [], {Shown(["a", "b"])}).entries["a.b"] == theirs
  {
    assert ["a.b"][..0] == [] && ["a", "b"][..1] == ["a"] && ["a"][..0] == [];
    assert Shown(["a"]) == "a" && Dotted("a", "b") == "a.b";
    assert [] + ["a.b"] == ["a.b"];
  }
}
