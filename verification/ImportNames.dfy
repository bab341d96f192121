/** The allocation of import names in libcore/gomobile/bind/gengo.go. */
module ImportNames {
  import opened Common

  /** A package: packages are told apart by identity, several may have one name. */
  datatype Package = Package(id: nat, name: string, path: string)

  // ---------------------------------------------------------------- candidates

  /** The i-th name tried for a package. */
  function Candidate(name: string, i: nat): string {
    if i == 0 then name else name + "_" + Itoa(i)
  }

  lemma CandidatesDiffer(name: string, i: nat, j: nat)
    requires i != j
    ensures Candidate(name, i) != Candidate(name, j)
  {
    if i > 0 && j > 0 && Candidate(name, i) == Candidate(name, j) {
      var n := |name| + 1;
      assert Candidate(name, i)[n..] == Itoa(i) && Candidate(name, j)[n..] == Itoa(j);
      ItoaBack(i);
      ItoaBack(j);
    }
  }

  /** The first n candidates. */
  function Tried(name: string, n: nat): set<string> {
    if n == 0 then {} else Tried(name, n - 1) + {Candidate(name, n - 1)}
  }

  lemma {:induction false} TriedCount(name: string, n: nat)
    ensures |Tried(name, n)| == n
    ensures forall i :: i >= n ==> Candidate(name, i) !in Tried(name, n)
  {
    if n > 0 {
      TriedCount(name, n - 1);
      forall i | i >= n ensures Candidate(name, i) !in Tried(name, n) {
        CandidatesDiffer(name, i, n - 1);
      }
    }
  }

  lemma SubsetCount<T>(a: set<T>, b: set<T>)
    requires a <= b
    ensures |a| <= |b|
    decreases a
  {
    if x :| x in a {
      SubsetCount(a - {x}, b - {x});
    }
  }

  /** Only as many candidates can be taken as there are names taken. */
  lemma Pigeonhole(name: string, n: nat, names: set<string>)
    requires Tried(name, n) <= names
    ensures n <= |names|
  {
    TriedCount(name, n);
    SubsetCount(Tried(name, n), names);
  }

  // ---------------------------------------------------------------- allocation

  /** The first candidate that is not taken, given that the first i are. */
  function FirstFree(name: string, i: nat, names: set<string>): (n: nat)
    requires Tried(name, i) <= names
    ensures i <= n && Tried(name, n) <= names && Candidate(name, n) !in names
    decreases |names| + 1 - i
  {
    if Candidate(name, i) !in names then i
    else (Pigeonhole(name, i + 1, names); FirstFree(name, i + 1, names))
  }

  function ImportLine(name: string, pkg: Package): string {
    if name == pkg.name then "\"" + pkg.path + "\"" else name + " \"" + pkg.path + "\""
  }

  /** The tables of the generator. */
  datatype Tables = Tables(names: set<string>, byPackage: map<Package, string>, imports: seq<string>)

  function NewName(t: Tables, pkg: Package): string {
    Candidate(pkg.name, FirstFree(pkg.name, 0, t.names))
  }

  /** The tables once a package has a name. */
  function Named(t: Tables, pkg: Package): Tables {
    if pkg in t.byPackage then t
    else
      var name := NewName(t, pkg);
      Tables(t.names + {name}, t.byPackage[pkg := name], t.imports + [ImportLine(name, pkg)])
  }

  class GoGen {
    var importNames: set<string>
    var importMap: map<Package, string>
    var imports: seq<string>

    constructor ()
      ensures Value() == Tables({}, map[], [])
    {
      importNames, importMap, imports := {}, map[], [];
    }

    function Value(): Tables
      reads this
    {
      Tables(importNames, importMap, imports)
    }

    /** pkgName: the name of a package followed by a dot, allocated on first use. */
    method PkgName(pkg: Option<Package>) returns (name: string)
      modifies this
      ensures pkg == None ==> name == "" && Value() == old(Value())
      ensures pkg.Some? ==> Value() == Named(old(Value()), pkg.value)
      ensures pkg.Some? ==> pkg.value in importMap && name == importMap[pkg.value] + "."
    {
      if pkg == None {
        return "";
      }
      var p := pkg.value;
      if p in importMap {
        return importMap[p] + ".";
      }
      var i: nat := 0;
      name := p.name;
      ghost var n := FirstFree(p.name, 0, importNames);
      while name in importNames
        invariant Value() == old(Value())
        invariant name == Candidate(p.name, i) && Tried(p.name, i) <= importNames
        invariant FirstFree(p.name, i, importNames) == n
        decreases |importNames| + 1 - i
      {
        Pigeonhole(p.name, i + 1, importNames);
        i := i + 1;
        name := p.name + "_" + Itoa(i);
      }
      assert n == i;
      importNames := importNames + {name};
      importMap := importMap[p := name];
      imports := imports + [ImportLine(name, p)];
      name := name + ".";
    }
  }

  // ---------------------------------------------------------------- any calls

  const EMPTY := Tables({}, map[], [])

  function NamedAll(t: Tables, pkgs: seq<Package>): Tables {
    if pkgs == [] then t else Named(NamedAll(t, pkgs[..|pkgs| - 1]), pkgs[|pkgs| - 1])
  }

  ghost predicate Consistent(t: Tables) {
    && (forall p :: p in t.byPackage ==> t.byPackage[p] in t.names)
    && (forall p, q :: p in t.byPackage && q in t.byPackage && p != q ==> t.byPackage[p] != t.byPackage[q])
    && |t.imports| == |t.byPackage| == |t.names|
  }

  lemma NamedKeepsConsistent(t: Tables, pkg: Package)
    requires Consistent(t)
    ensures Consistent(Named(t, pkg))
  {
  }

  lemma {:induction false} AllAreNamed(pkgs: seq<Package>, p: Package)
    ensures p in NamedAll(EMPTY, pkgs).byPackage <==> p in pkgs
  {
    if pkgs != [] {
      var n := |pkgs| - 1;
      AllAreNamed(pkgs[..n], p);
      assert p in pkgs <==> p in pkgs[..n] || p == pkgs[n];
    }
  }

  lemma {:induction false} StaysConsistent(pkgs: seq<Package>)
    ensures Consistent(NamedAll(EMPTY, pkgs))
  {
    if pkgs != [] {
      var before := pkgs[..|pkgs| - 1];
      StaysConsistent(before);
      NamedKeepsConsistent(NamedAll(EMPTY, before), pkgs[|pkgs| - 1]);
    }
  }

  /** However often and in whatever order packages are named: every package named has a name of
      its own, no other name is taken, and there is one import line for each. */
  lemma NamesAreDistinct(pkgs: seq<Package>)
    ensures var t := NamedAll(EMPTY, pkgs);
            Consistent(t) && forall p :: p in t.byPackage <==> p in pkgs
  {
    StaysConsistent(pkgs);
    forall p ensures p in NamedAll(EMPTY, pkgs).byPackage <==> p in pkgs {
      AllAreNamed(pkgs, p);
    }
  }

  /** A name once given stays, and import lines are only added. */
  lemma {:induction false} NamesAreStable(t: Tables, pkgs: seq<Package>)
    ensures var u := NamedAll(t, pkgs);
            && t.imports <= u.imports && t.names <= u.names
            && forall p :: p in t.byPackage ==> p in u.byPackage && u.byPackage[p] == t.byPackage[p]
  {
    if pkgs != [] { NamesAreStable(t, pkgs[..|pkgs| - 1]); }
  }

  /** A new name is the package's own unless that is taken, and otherwise has the least suffix
      that is free. */
  lemma NewNameIsLeast(t: Tables, pkg: Package)
    requires pkg !in t.byPackage
    ensures exists i: nat ::
              && Named(t, pkg).byPackage[pkg] == Candidate(pkg.name, i) && Candidate(pkg.name, i) !in t.names
              && i <= |t.names|
              && forall j :: 0 <= j < i ==> Candidate(pkg.name, j) in t.names
  {
    var i := FirstFree(pkg.name, 0, t.names);
    Pigeonhole(pkg.name, i, t.names);
    forall j | 0 <= j < i ensures Candidate(pkg.name, j) in t.names {
      TriedAll(pkg.name, j, i);
    }
  }

  lemma {:induction false} TriedAll(name: string, j: nat, n: nat)
    requires j < n
    ensures Candidate(name, j) in Tried(name, n)
  {
    if j < n - 1 { TriedAll(name, j, n - 1); }
  }

  /** A package that is named for the first time keeps its own name exactly if no other has taken
      it, and its import line, which is added at the end, gives the alias exactly if it does not. */
  lemma AliasIffRenamed(t: Tables, pkg: Package)
    requires pkg !in t.byPackage
    ensures var u, path := Named(t, pkg), "\"" + pkg.path + "\"";
            && (u.byPackage[pkg] == pkg.name <==> pkg.name !in t.names)
            && u.names == t.names + {u.byPackage[pkg]}
            && u.imports == t.imports + [if pkg.name !in t.names then path else u.byPackage[pkg] + " " + path]
  {
    var i, name, path := FirstFree(pkg.name, 0, t.names), NewName(t, pkg), "\"" + pkg.path + "\"";
    if i > 0 {
      TriedAll(pkg.name, 0, i);
      CandidatesDiffer(pkg.name, 0, i);
    }
    assert name + " \"" + pkg.path + "\"" == name + " " + path;
  }
}
