/** `_ProgressEstimator` in docbuilder.py: the estimated number of items
    each argument will produce, revised when a package directory is
    listed, and the count of items completed so far.  The file system is a
    tree of entries; an entry's tag stands for `is_module_file` and
    `is_package_dir`. */
module Progress {
  import opened Wrappers

  /** A path as the estimator sees it: a module file, a package directory
      with the entries `os.listdir` finds in it, or anything else (a plain
      file, a directory without `__init__`, and, for a top-level item, a
      Python name or object). */
  datatype Entry =
    | ModuleFile(path: string)
    | PackageDir(path: string, children: seq<Entry>)
    | OtherEntry(path: string)

  /** The module files `_est_pkg_modules` counts under `e`: those reached
      through package directories only. */
  ghost function Modules(e: Entry): seq<string>
    decreases e, 1
  {
    if e.PackageDir? then ModulesIn(e, |e.children|) else []
  }

  /** The module files under the first `i` entries of package `e`. */
  ghost function ModulesIn(e: Entry, i: nat): seq<string>
    requires e.PackageDir? && i <= |e.children|
    decreases e, 0, i
  {
    if i == 0 then []
    else
      var c := e.children[i - 1];
      ModulesIn(e, i - 1) + (match c
                             case ModuleFile(p) => [p]
                             case PackageDir(_, _) => Modules(c)
                             case OtherEntry(_) => [])
  }

  /** `_est_pkg_modules`: the number of module files under `e`; zero when
      `e` is not a package directory. */
  method EstPkgModules(e: Entry) returns (n: nat)
    ensures n == |Modules(e)|
    decreases e
  {
    n := 0;
    if e.PackageDir? {
      for i := 0 to |e.children|
        invariant n == |ModulesIn(e, i)|
      {
        var c := e.children[i];
        if c.ModuleFile? {
          n := n + 1;
        } else if c.PackageDir? {
          var k := EstPkgModules(c);
          n := n + k;
        }
      }
    }
  }

  /** A key of `est_totals`: an item, or one of the `(basename, filename)`
      pairs that `_get_docs_from_package_dir` passes as `modules`. */
  datatype Key = ItemKey(entry: Entry) | ModuleKey(basename: string, filename: string)

  /** The first estimate for a top-level item. */
  ghost function Estimate(item: Entry): nat {
    if item.PackageDir? then |Modules(item)| else 1
  }

  /** Some key of a non-empty map. */
  ghost function Pick<K>(m: map<K, nat>): K
    requires m != map[]
  {
    var k :| k in m; k
  }

  /** The sum of a map's values, `sum(self.est_totals.values())`. */
  ghost function Sum<K>(m: map<K, nat>): nat
    decreases |m|
  {
    if m == map[] then 0
    else
      var k := Pick(m);
      assert |m - {k}| < |m| by { assert (m - {k}).Keys == m.Keys - {k}; }
      m[k] + Sum(m - {k})
  }

  /** The sum does not depend on the key taken out first. */
  lemma {:induction false} SumRemove<K>(m: map<K, nat>, k: K)
    requires k in m
    ensures Sum(m) == m[k] + Sum(m - {k}) && |m - {k}| < |m|
    decreases |m|
  {
    assert (m - {k}).Keys == m.Keys - {k};
    var j := Pick(m);
    assert |m - {j}| < |m| by { assert (m - {j}).Keys == m.Keys - {j}; }
    assert Sum(m) == m[j] + Sum(m - {j});
    if j != k {
      assert (m - {j}).Keys == m.Keys - {j};
      assert (m - {k}).Keys == m.Keys - {k};
      SumRemove(m - {j}, k);
      SumRemove(m - {k}, j);
      assert m - {j} - {k} == m - {k} - {j};
    }
  }

  /** Setting one key: the old value, if any, is replaced by the new one. */
  lemma SumUpdate<K>(m: map<K, nat>, k: K, v: nat)
    ensures Sum(m[k := v]) == Sum(m - {k}) + v
  {
    SumRemove(m[k := v], k);
    assert m[k := v] - {k} == m - {k};
  }

  /** The estimate after `revise_estimate(pkg, modules, subpackages)`: the
      package's own entry is gone, each module pair counts one, and each
      subpackage counts its module files. */
  ghost function Revised(totals: map<Key, nat>, pkg: Entry, modules: seq<(string, string)>, subpackages: set<Entry>): map<Key, nat> {
    map k | k in (totals.Keys - {ItemKey(pkg)}) + ModuleKeys(modules) + SubpackageKeys(subpackages) ::
      if k.ItemKey? && k.entry in subpackages then |Modules(k.entry)|
      else if k in ModuleKeys(modules) then 1
      else totals[k]
  }

  /** A package whose listing is all new to the estimate replaces its own
      count by one per module and the count of each subpackage. */
  lemma ReviseFreshTotal(totals: map<Key, nat>, pkg: Entry, modules: seq<(string, string)>, sub: Entry)
    requires ItemKey(pkg) in totals && ItemKey(sub) !in totals && modules == []
    ensures Sum(Revised(totals, pkg, modules, {sub})) == Sum(totals) - totals[ItemKey(pkg)] + |Modules(sub)|
  {
    var r := Revised(totals, pkg, modules, {sub});
    assert ModuleKeys(modules) == {};
    assert r == (totals - {ItemKey(pkg)})[ItemKey(sub) := |Modules(sub)|];
    SumUpdate(totals - {ItemKey(pkg)}, ItemKey(sub), |Modules(sub)|);
    assert (totals - {ItemKey(pkg)}) - {ItemKey(sub)} == totals - {ItemKey(pkg)};
    SumRemove(totals, ItemKey(pkg));
  }

  /** The estimates `revise_estimate` gives the subpackages. */
  ghost function SubpackageTotals(subpackages: set<Entry>): map<Key, nat> {
    map k | k in SubpackageKeys(subpackages) :: |Modules(k.entry)|
  }

  /** A package whose listing is new to the estimate: the total loses the
      package's own count and gains one per module pair and each
      subpackage's module count. */
  lemma ReviseTotal(totals: map<Key, nat>, pkg: Entry, modules: seq<(string, string)>, subpackages: set<Entry>)
    requires ItemKey(pkg) in totals
    requires ModuleKeys(modules) !! totals.Keys && SubpackageKeys(subpackages) !! totals.Keys
    ensures Sum(Revised(totals, pkg, modules, subpackages)) ==
            Sum(totals) - totals[ItemKey(pkg)] + |ModuleKeys(modules)| + Sum(SubpackageTotals(subpackages))
  {
    var a := totals - {ItemKey(pkg)};
    var b := ModuleTotals(modules);
    var c := SubpackageTotals(subpackages);
    RevisedSplits(totals, pkg, modules, subpackages);
    SumDisjoint(a + b, c);
    SumDisjoint(a, b);
    ModuleTotalsSum(modules);
    SumRemove(totals, ItemKey(pkg));
  }

  /** The estimates `revise_estimate` gives the module pairs. */
  ghost function ModuleTotals(modules: seq<(string, string)>): map<Key, nat> {
    map k | k in ModuleKeys(modules) :: 1
  }

  lemma ModuleTotalsSum(modules: seq<(string, string)>)
    ensures Sum(ModuleTotals(modules)) == |ModuleKeys(modules)|
  {
    var b := ModuleTotals(modules);
    SumOnes(b);
    assert b.Keys == ModuleKeys(modules);
  }

  /** The revised estimate is the old one without the package, joined with
      the module pairs' and the subpackages' estimates. */
  lemma RevisedSplits(totals: map<Key, nat>, pkg: Entry, modules: seq<(string, string)>, subpackages: set<Entry>)
    requires ModuleKeys(modules) !! totals.Keys && SubpackageKeys(subpackages) !! totals.Keys
    ensures var a := totals - {ItemKey(pkg)};
            a.Keys !! ModuleTotals(modules).Keys && (a + ModuleTotals(modules)).Keys !! SubpackageTotals(subpackages).Keys &&
            Revised(totals, pkg, modules, subpackages) == a + ModuleTotals(modules) + SubpackageTotals(subpackages)
  {
    var r := Revised(totals, pkg, modules, subpackages);
    var a := totals - {ItemKey(pkg)};
    var b := ModuleTotals(modules);
    var c := SubpackageTotals(subpackages);
    assert forall k :: k in ModuleKeys(modules) ==> k.ModuleKey?;
    assert forall k :: k in SubpackageKeys(subpackages) ==> k.ItemKey? && k.entry in subpackages;
    assert r.Keys == (a + b + c).Keys;
    forall k | k in r
      ensures r[k] == (a + b + c)[k]
    {
      if k in c.Keys {
      } else if k in b.Keys {
      } else {
        assert k in a;
      }
    }
  }

  /** The sum over keys held by one of two maps is the sum of their sums. */
  lemma {:induction false} SumDisjoint<K>(m: map<K, nat>, n: map<K, nat>)
    requires m.Keys !! n.Keys
    ensures Sum(m + n) == Sum(m) + Sum(n)
    decreases |n|
  {
    if n == map[] {
      assert m + n == m;
    } else {
      var k :| k in n;
      var rest := n - {k};
      assert Sum(n) == n[k] + Sum(rest) && |rest| < |n| by { SumRemove(n, k); }
      assert (m + n) - {k} == m + rest && k in m + n && (m + n)[k] == n[k] && m.Keys !! rest.Keys by {
        UnionRemove(m, n, k);
      }
      assert Sum(m + n) == n[k] + Sum(m + rest) by { SumRemove(m + n, k); }
      SumDisjoint(m, rest);
    }
  }

  lemma UnionRemove<K>(m: map<K, nat>, n: map<K, nat>, k: K)
    requires m.Keys !! n.Keys && k in n
    ensures k in m + n && (m + n)[k] == n[k]
    ensures (m + n) - {k} == m + (n - {k}) && m.Keys !! (n - {k}).Keys
  {
    assert ((m + n) - {k}).Keys == (m + (n - {k})).Keys;
  }

  /** A map that gives every key 1 sums to its number of keys. */
  lemma {:induction false} SumOnes<K>(m: map<K, nat>)
    requires forall k :: k in m ==> m[k] == 1
    ensures Sum(m) == |m.Keys|
    decreases |m|
  {
    if m != map[] {
      var k := Pick(m);
      SumRemove(m, k);
      SumOnes(m - {k});
      assert (m - {k}).Keys == m.Keys - {k};
    } else {
      assert m.Keys == {};
    }
  }

  /** What `float(complete) / total` is, apart from rounding. */
  lemma Quotient(c: nat, t: nat)
    requires t > 0
    ensures (c as real / t as real) * t as real == c as real && c as real / t as real >= 0.0
  {
  }

  /** The keys `revise_estimate` gives the module pairs. */
  ghost function ModuleKeys(modules: seq<(string, string)>): set<Key> {
    set m | m in modules :: ModuleKey(m.0, m.1)
  }

  /** The keys `revise_estimate` gives the subpackages. */
  ghost function SubpackageKeys(subpackages: set<Entry>): set<Key> {
    set e | e in subpackages :: ItemKey(e)
  }

  /** `revise_estimate`'s first loop: each module pair gets estimate 1. */
  method CountModules(totals: map<Key, nat>, modules: seq<(string, string)>) returns (r: map<Key, nat>)
    ensures r.Keys == totals.Keys + ModuleKeys(modules)
    ensures forall k :: k in r ==> r[k] == if k in ModuleKeys(modules) then 1 else totals[k]
  {
    r := totals;
    for j := 0 to |modules|
      invariant r.Keys == totals.Keys + ModuleKeys(modules[..j])
      invariant forall k :: k in r ==> r[k] == if k in ModuleKeys(modules[..j]) then 1 else totals[k]
    {
      r := r[ModuleKey(modules[j].0, modules[j].1) := 1];
      assert modules[..j + 1] == modules[..j] + [modules[j]];
      assert ModuleKeys(modules[..j + 1]) == ModuleKeys(modules[..j]) + {ModuleKey(modules[j].0, modules[j].1)};
    }
    assert modules[..|modules|] == modules;
  }

  /** `revise_estimate`'s second loop: each subpackage gets its module
      count. */
  method CountSubpackages(totals: map<Key, nat>, subpackages: set<Entry>) returns (r: map<Key, nat>)
    ensures r.Keys == totals.Keys + SubpackageKeys(subpackages)
    ensures forall k :: k in r ==> r[k] == if k.ItemKey? && k.entry in subpackages then |Modules(k.entry)| else totals[k]
  {
    r := totals;
    var todo := subpackages;
    while todo != {}
      invariant todo <= subpackages
      invariant r.Keys == totals.Keys + SubpackageKeys(subpackages - todo)
      invariant forall k :: k in r ==>
                  r[k] == if k.ItemKey? && k.entry in subpackages - todo then |Modules(k.entry)| else totals[k]
      decreases todo
    {
      var e :| e in todo;
      var n := EstPkgModules(e);
      r := r[ItemKey(e) := n];
      assert SubpackageKeys(subpackages - (todo - {e})) == SubpackageKeys(subpackages - todo) + {ItemKey(e)};
      todo := todo - {e};
    }
  }

  /** The progress estimator: `est_totals` and `complete`. */
  class ProgressEstimator {
    var estTotals: map<Key, nat>
    var complete: nat

    /** `__init__`: each item starts with its module count when it is a
        package directory and with 1 otherwise. */
    constructor(items: seq<Entry>)
      ensures complete == 0
      ensures estTotals.Keys == set i | i in items :: ItemKey(i)
      ensures forall k :: k in estTotals ==> k.ItemKey? && estTotals[k] == Estimate(k.entry)
    {
      complete := 0;
      var totals: map<Key, nat> := map[];
      for j := 0 to |items|
        invariant totals.Keys == set i | i in items[..j] :: ItemKey(i)
        invariant forall k :: k in totals ==> k.ItemKey? && totals[k] == Estimate(k.entry)
      {
        var n := 1;
        if items[j].PackageDir? {
          n := EstPkgModules(items[j]);
        }
        totals := totals[ItemKey(items[j]) := n];
        assert items[..j + 1] == items[..j] + [items[j]];
      }
      assert items[..|items|] == items;
      estTotals := totals;
    }

    /** `complete += 1`, done by the callers once per item they document. */
    method Tick()
      modifies this`complete
      ensures complete == old(complete) + 1
    {
      complete := complete + 1;
    }

    /** `sum(self.est_totals.values())`. */
    method Total() returns (total: nat)
      ensures total == Sum(estTotals)
    {
      total := 0;
      var rest := estTotals;
      while rest != map[]
        invariant total + Sum(rest) == Sum(estTotals)
        decreases |rest|
      {
        var k :| k in rest;
        SumRemove(rest, k);
        total := total + rest[k];
        rest := rest - {k};
      }
    }

    /** `progress()`: the completed count over the estimated total, or the
        `ZeroDivisionError` an empty estimate raises. */
    method Fraction() returns (r: Result<real>)
      ensures Sum(estTotals) == 0 <==> r == Failure(ZeroDivisionError)
      ensures r.Success? ==> r.value * Sum(estTotals) as real == complete as real && r.value >= 0.0
    {
      var total := Total();
      if total == 0 {
        return Failure(ZeroDivisionError);
      }
      Quotient(complete, total);
      r := Success(complete as real / total as real);
    }

    /** `revise_estimate`: deleting a package that has no estimate raises
        `KeyError` and changes nothing; otherwise the estimate becomes
        `Revised`. */
    method ReviseEstimate(pkg: Entry, modules: seq<(string, string)>, subpackages: set<Entry>) returns (o: Outcome)
      modifies this`estTotals
      ensures ItemKey(pkg) !in old(estTotals) ==> o == Fail(KeyError(pkg.path)) && estTotals == old(estTotals)
      ensures ItemKey(pkg) in old(estTotals) ==> o == Pass && estTotals == Revised(old(estTotals), pkg, modules, subpackages)
    {
      if ItemKey(pkg) !in estTotals {
        return Fail(KeyError(pkg.path));
      }
      var totals := CountModules(estTotals - {ItemKey(pkg)}, modules);
      totals := CountSubpackages(totals, subpackages);
      estTotals := totals;
      o := Pass;
    }
  }
}
