/**
  find_idl_dependencies: the worklist search over the include graph of IDL files.
*/
module IdlDependencies {
  import opened Collections

  type Path = string
  type Target = string

  /** includes: the targets of the IDL files each file includes, in file order; a file
      that cannot be read is absent. abspath: the <target>_ABSPATH variables. */
  datatype IncludeGraph = IncludeGraph(includes: map<Path, seq<Target>>, abspath: map<Target, Path>)

  /** CMake stops when a file is unreadable or a target has no ABSPATH variable. */
  datatype Result = Failed | Ok(targets: seq<Target>)

  // ---- reference: chains of includes ----

  predicate Includes(g: IncludeGraph, p: Path, q: Path) {
    p in g.includes && exists t :: t in g.includes[p] && t in g.abspath && g.abspath[t] == q
  }

  ghost predicate IsChain(g: IncludeGraph, c: seq<Path>) {
    0 < |c| && forall i :: 0 <= i < |c| - 1 ==> Includes(g, c[i], c[i + 1])
  }

  /** A chain of n includes leads from p to q. */
  ghost predicate ChainOf(g: IncludeGraph, p: Path, q: Path, n: nat) {
    exists c :: IsChain(g, c) && |c| == n + 1 && c[0] == p && c[n] == q
  }

  ghost predicate Reachable(g: IncludeGraph, p: Path, q: Path) {
    exists n :: ChainOf(g, p, q, n)
  }

  /** n is the length of the shortest chain. */
  ghost predicate Distance(g: IncludeGraph, p: Path, q: Path, n: nat) {
    ChainOf(g, p, q, n) && forall k: nat :: k < n ==> !ChainOf(g, p, q, k)
  }

  /** The file can be read and every target it includes is known. */
  predicate Searchable(g: IncludeGraph, p: Path) {
    p in g.includes && AllKnown(g, g.includes[p])
  }

  predicate AllKnown(g: IncludeGraph, targets: seq<Target>) {
    forall t :: t in targets ==> t in g.abspath
  }

  // ---- levels ----

  ghost function Successors(g: IncludeGraph, files: set<Path>): set<Path> {
    set p, t | p in files && p in g.includes && t in g.includes[p] && t in g.abspath :: g.abspath[t]
  }

  /** The files at most n includes away. */
  ghost function Ball(g: IncludeGraph, input: Path, n: nat): set<Path> {
    if n == 0 then {input} else Ball(g, input, n - 1) + Successors(g, Ball(g, input, n - 1))
  }

  lemma {:induction false} BallGrows(g: IncludeGraph, input: Path, m: nat, n: nat)
    requires m <= n
    ensures Ball(g, input, m) <= Ball(g, input, n)
    decreases n
  {
    if m == n {
    } else {
      BallGrows(g, input, m, n - 1);
    }
  }

  lemma {:induction false} ChainToBall(g: IncludeGraph, c: seq<Path>)
    requires IsChain(g, c)
    ensures c[|c| - 1] in Ball(g, c[0], |c| - 1)
    decreases |c|
  {
    var n := |c| - 1;
    if n == 0 {
    } else {
      var front := c[..n];
      forall i | 0 <= i < |front| - 1 ensures Includes(g, front[i], front[i + 1]) {
        assert Includes(g, c[i], c[i + 1]);
      }
      ChainToBall(g, front);
      assert Includes(g, c[n - 1], c[n - 1 + 1]);
    }
  }

  lemma {:induction false} BallToChain(g: IncludeGraph, input: Path, q: Path, n: nat)
    requires q in Ball(g, input, n)
    ensures exists k: nat :: k <= n && ChainOf(g, input, q, k)
    decreases n
  {
    if n == 0 {
      assert IsChain(g, [input]) && [input][0] == q;
      assert ChainOf(g, input, q, 0);
    } else if q in Ball(g, input, n - 1) {
      BallToChain(g, input, q, n - 1);
    } else {
      var p, t :| p in Ball(g, input, n - 1) && p in g.includes && t in g.includes[p] && t in g.abspath && g.abspath[t] == q;
      BallToChain(g, input, p, n - 1);
      var k: nat :| k <= n - 1 && ChainOf(g, input, p, k);
      ChainOfGrows(g, input, p, q, k);
    }
  }

  lemma ChainOfGrows(g: IncludeGraph, input: Path, p: Path, q: Path, n: nat)
    requires ChainOf(g, input, p, n) && Includes(g, p, q)
    ensures ChainOf(g, input, q, n + 1)
  {
    var c :| IsChain(g, c) && |c| == n + 1 && c[0] == input && c[n] == p;
    ChainGrows(g, c, q);
  }

  lemma ChainGrows(g: IncludeGraph, c: seq<Path>, q: Path)
    requires IsChain(g, c) && Includes(g, c[|c| - 1], q)
    ensures IsChain(g, c + [q]) && (c + [q])[0] == c[0] && (c + [q])[|c|] == q
  {
    forall i | 0 <= i < |c| ensures Includes(g, (c + [q])[i], (c + [q])[i + 1]) {
      assert i < |c| - 1 ==> Includes(g, c[i], c[i + 1]);
    }
  }

  /** A ball holds exactly the files that a chain of at most n includes leads to. */
  lemma BallIffChain(g: IncludeGraph, input: Path, q: Path, n: nat)
    ensures q in Ball(g, input, n) <==> exists k: nat :: k <= n && ChainOf(g, input, q, k)
  {
    if q in Ball(g, input, n) {
      BallToChain(g, input, q, n);
    }
    if k: nat :| k <= n && ChainOf(g, input, q, k) {
      var c :| IsChain(g, c) && |c| == k + 1 && c[0] == input && c[k] == q;
      ChainToBall(g, c);
      BallGrows(g, input, k, n);
    }
  }

  /** A level that adds nothing is the last: it holds everything reachable. */
  lemma {:induction false} StableBall(g: IncludeGraph, input: Path, n: nat, m: nat)
    requires Ball(g, input, n + 1) == Ball(g, input, n)
    ensures Ball(g, input, m) <= Ball(g, input, n)
    decreases m
  {
    if m <= n {
      BallGrows(g, input, m, n);
    } else {
      StableBall(g, input, n, m - 1);
      SuccessorsGrow(g, Ball(g, input, m - 1), Ball(g, input, n));
    }
  }

  lemma SuccessorsGrow(g: IncludeGraph, a: set<Path>, b: set<Path>)
    requires a <= b
    ensures Successors(g, a) <= Successors(g, b)
  {
  }

  lemma StableBallIsReachable(g: IncludeGraph, input: Path, n: nat)
    requires Ball(g, input, n + 1) == Ball(g, input, n)
    ensures forall q :: q in Ball(g, input, n) <==> Reachable(g, input, q)
  {
    forall q ensures q in Ball(g, input, n) <==> Reachable(g, input, q) {
      BallIffChain(g, input, q, n);
      if k: nat :| ChainOf(g, input, q, k) {
        BallIffChain(g, input, q, k);
        StableBall(g, input, n, k);
      }
    }
  }

  /** Ordered by balls is ordered by shortest distance. */
  lemma BallsOrderDistances(g: IncludeGraph, input: Path, p: Path, q: Path, m: nat, n: nat)
    requires Distance(g, input, p, m) && Distance(g, input, q, n)
    requires forall k: nat :: Near(g, input, q, k) ==> Near(g, input, p, k)
    ensures m <= n
  {
    assert Near(g, input, q, n) ==> Near(g, input, p, n);
    BallIffChain(g, input, q, n);
    BallIffChain(g, input, p, n);
  }

  // ---- the search ----

  ghost predicate AllSearchable(g: IncludeGraph, files: seq<Path>) {
    forall p :: p in files ==> Searchable(g, p)
  }

  /** search lists the input and then the paths of the returned targets. */
  ghost predicate InStep(g: IncludeGraph, input: Path, returned: seq<Target>, search: seq<Path>) {
    && |search| == |returned| + 1 && search[0] == input
    && forall i :: 0 <= i < |returned| ==> returned[i] in g.abspath && g.abspath[returned[i]] == search[i + 1]
  }

  /** Files nearer to the input come first. */
  ghost predicate InBfsOrder(g: IncludeGraph, input: Path, search: seq<Path>) {
    forall i, j, n: nat :: 0 <= i < j < |search| && Near(g, input, search[j], n) ==> Near(g, input, search[i], n)
  }

  ghost predicate Near(g: IncludeGraph, input: Path, q: Path, n: nat) {
    q in Ball(g, input, n)
  }

  ghost function Elements(s: seq<Path>): set<Path> {
    set p | p in s
  }

  /** The targets that these files include, file after file. */
  ghost function Mentions(g: IncludeGraph, files: seq<Path>): seq<Target> {
    if files == [] then []
    else
      var n := |files| - 1;
      Mentions(g, files[..n]) + if files[n] in g.includes then g.includes[files[n]] else []
  }

  /** Of these targets, the first that stands for each file other than the input. */
  ghost function Firsts(g: IncludeGraph, input: Path, targets: seq<Target>): seq<Target> {
    if targets == [] then []
    else
      var n := |targets| - 1;
      var firsts, t := Firsts(g, input, targets[..n]), targets[n];
      if t in g.abspath && g.abspath[t] != input && g.abspath[t] !in PathsOf(g, firsts) then firsts + [t] else firsts
  }

  ghost function PathsOf(g: IncludeGraph, targets: seq<Target>): set<Path> {
    set t | t in targets && t in g.abspath :: g.abspath[t]
  }

  /** The targets stand for the reachable files other than the input, once each, nearest first and in
      the order in which the files searched first mention them. */
  ghost predicate IsDependencyList(g: IncludeGraph, input: Path, targets: seq<Target>) {
    exists search ::
      && InStep(g, input, targets, search) && NoDuplicates(search) && InBfsOrder(g, input, search)
      && targets == Firsts(g, input, Mentions(g, search))
      && forall q :: q in search <==> Reachable(g, input, q)
  }

  /** When no two targets name the same file, the list is exactly the reachable targets
      other than the input's, without duplicates and by non-decreasing distance. */
  lemma DependenciesAreReachableTargets(g: IncludeGraph, input: Path, targets: seq<Target>)
    requires IsDependencyList(g, input, targets)
    requires forall t, u :: t in g.abspath && u in g.abspath && g.abspath[t] == g.abspath[u] ==> t == u
    ensures NoDuplicates(targets)
    ensures forall t :: t in targets <==> t in g.abspath && g.abspath[t] != input && Reachable(g, input, g.abspath[t])
    ensures forall i, j, m, n ::
              (0 <= i < j < |targets| && Distance(g, input, g.abspath[targets[i]], m) && Distance(g, input, g.abspath[targets[j]], n)
               ==> m <= n)
  {
    var search :| InStep(g, input, targets, search) && NoDuplicates(search) && InBfsOrder(g, input, search)
                  && forall q :: q in search <==> Reachable(g, input, q);
    forall t ensures t in targets <==> t in g.abspath && g.abspath[t] != input && Reachable(g, input, g.abspath[t]) {
      if t in targets {
        var i :| 0 <= i < |targets| && targets[i] == t;
        assert search[i + 1] in search && search[0] != search[i + 1];
      }
      if t in g.abspath && g.abspath[t] != input && Reachable(g, input, g.abspath[t]) {
        var k :| 0 <= k < |search| && search[k] == g.abspath[t];
        assert targets[k - 1] == t;
      }
    }
    forall i, j, m, n | 0 <= i < j < |targets| && Distance(g, input, g.abspath[targets[i]], m)
                        && Distance(g, input, g.abspath[targets[j]], n) ensures m <= n
    {
      assert g.abspath[targets[i]] == search[i + 1] && g.abspath[targets[j]] == search[j + 1];
      BallsOrderDistances(g, input, search[i + 1], search[j + 1], m, n);
    }
    forall i, j | 0 <= i < j < |targets| ensures targets[i] != targets[j] {
      assert search[i + 1] != search[j + 1];
    }
  }

  /** The new files of a level: those found so far that were not known before it. */
  ghost predicate LevelOk(base: seq<Path>, current: seq<Path>, search: seq<Path>, found: set<Path>) {
    search == base + current && NoDuplicates(search) && Elements(current) == found - Elements(base)
  }

  lemma OldFile(base: seq<Path>, current: seq<Path>, search: seq<Path>, found: set<Path>, p: Path)
    requires LevelOk(base, current, search, found) && p in search
    ensures LevelOk(base, current, search, found + {p})
  {
    assert p in base || p in current;
  }

  lemma NewFile(base: seq<Path>, current: seq<Path>, search: seq<Path>, found: set<Path>, p: Path)
    requires LevelOk(base, current, search, found) && p !in search
    ensures LevelOk(base, current + [p], search + [p], found + {p})
  {
    assert Elements(current + [p]) == Elements(current) + {p};
    assert p !in base;
  }

  lemma InStepGrows(g: IncludeGraph, input: Path, returned: seq<Target>, search: seq<Path>, t: Target)
    requires InStep(g, input, returned, search) && t in g.abspath
    ensures InStep(g, input, returned + [t], search + [g.abspath[t]])
  {
  }

  /** Each level adds files, of which there are finitely many, or is the last. */
  lemma LevelsEnd(g: IncludeGraph, input: Path, returned: seq<Target>, base: seq<Path>, current: seq<Path>, search: seq<Path>)
    requires InStep(g, input, returned, search) && search == base + current && NoDuplicates(search)
    ensures current == [] ==> search == base
    ensures current != [] ==> |g.abspath.Values + {input} - Elements(search)| < |g.abspath.Values + {input} - Elements(base)|
  {
    if current != [] {
      var all, p := g.abspath.Values + {input}, current[0];
      assert search[|base|] == p;
      assert forall i :: 0 <= i < |base| ==> search[i] == base[i];
      assert forall i :: 0 <= i < |base| ==> search[i] != search[|base|];
      if |base| > 0 {
        assert g.abspath[returned[|base| - 1]] == search[|base| - 1 + 1];
      }
      assert p in search && p in all && p !in base;
      assert Elements(base) <= Elements(search);
      FewerLeft(all - Elements(search), all - Elements(base), p);
    }
  }

  lemma FewerLeft(a: set<Path>, b: set<Path>, p: Path)
    requires a <= b && p in b && p !in a
    ensures |a| < |b|
  {
    SubsetIsNoLarger(a, b - {p});
  }

  lemma FoundAfterFile(g: IncludeGraph, files: seq<Path>, i: nat)
    requires i < |files| && files[i] in g.includes
    ensures Successors(g, Elements(files[..i])) + PathsOf(g, g.includes[files[i]]) == Successors(g, Elements(files[..i + 1]))
    ensures AllSearchable(g, files[..i]) && Searchable(g, files[i]) ==> AllSearchable(g, files[..i + 1])
  {
    assert Elements(files[..i + 1]) == Elements(files[..i]) + {files[i]};
  }

  lemma OneMoreTarget(g: IncludeGraph, targets: seq<Target>, k: nat)
    requires k < |targets| && targets[k] in g.abspath
    ensures PathsOf(g, targets[..k + 1]) == PathsOf(g, targets[..k]) + {g.abspath[targets[k]]}
    ensures AllKnown(g, targets[..k]) ==> AllKnown(g, targets[..k + 1])
  {
    assert targets[..k + 1] == targets[..k] + [targets[k]];
  }

  /** The files searched before level n. */
  ghost function Inner(g: IncludeGraph, input: Path, n: nat): set<Path> {
    if n == 0 then {} else Ball(g, input, n - 1)
  }

  lemma LevelIsNextBall(g: IncludeGraph, input: Path, n: nat, base: seq<Path>, files: seq<Path>, current: seq<Path>)
    requires Elements(base) == Ball(g, input, n) && Elements(files) == Ball(g, input, n) - Inner(g, input, n)
    requires LevelOk(base, current, base + current, Successors(g, Elements(files))) && InBfsOrder(g, input, base)
    ensures Elements(base + current) == Ball(g, input, n + 1)
    ensures Elements(current) == Ball(g, input, n + 1) - Ball(g, input, n)
    ensures InBfsOrder(g, input, base + current)
  {
    if n > 0 {
      BallGrows(g, input, n - 1, n);
    }
    var ball := Ball(g, input, n);
    assert Successors(g, ball) == Successors(g, Inner(g, input, n)) + Successors(g, Elements(files));
    assert Elements(base + current) == Elements(base) + Elements(current);
    BfsOrderExtends(g, input, n, base, current);
  }

  lemma BfsOrderExtends(g: IncludeGraph, input: Path, n: nat, base: seq<Path>, current: seq<Path>)
    requires InBfsOrder(g, input, base) && Elements(base) <= Ball(g, input, n)
    requires Elements(current) <= Ball(g, input, n + 1) - Ball(g, input, n)
    ensures InBfsOrder(g, input, base + current)
  {
    var search := base + current;
    forall i, j, m: nat | 0 <= i < j < |search| && Near(g, input, search[j], m) ensures Near(g, input, search[i], m) {
      if j < |base| {
        assert Near(g, input, base[j], m) ==> Near(g, input, base[i], m);
      } else {
        assert search[j] in Elements(current) && (search[i] in Elements(base) || search[i] in Elements(current));
        NearFar(g, input, search[i], search[j], n, m);
      }
    }
  }

  lemma NearFar(g: IncludeGraph, input: Path, p: Path, q: Path, n: nat, m: nat)
    requires p in Ball(g, input, n + 1) + Ball(g, input, n) && q !in Ball(g, input, n) && Near(g, input, q, m)
    ensures Near(g, input, p, m)
  {
    if m <= n {
      BallGrows(g, input, m, n);
    } else {
      BallGrows(g, input, n, n + 1);
      BallGrows(g, input, n + 1, m);
    }
  }

  /** The outer loop's state: the files up to n includes away are known, those nearer searched. */
  ghost predicate SearchOk(g: IncludeGraph, input: Path, n: nat, current: seq<Path>, search: seq<Path>) {
    && NoDuplicates(search) && InBfsOrder(g, input, search)
    && Elements(search) == Ball(g, input, n)
    && Elements(current) == Ball(g, input, n) - Inner(g, input, n)
    && forall q :: q in Inner(g, input, n) ==> Searchable(g, q)
  }

  lemma SearchStarts(g: IncludeGraph, input: Path)
    ensures SearchOk(g, input, 0, [input], [input])
  {
    assert Elements([input]) == {input};
  }

  lemma SearchGoesOn(g: IncludeGraph, input: Path, n: nat, base: seq<Path>, files: seq<Path>,
                     current: seq<Path>, search: seq<Path>)
    requires SearchOk(g, input, n, files, base) && AllSearchable(g, files)
    requires LevelOk(base, current, search, Successors(g, Elements(files)))
    ensures SearchOk(g, input, n + 1, current, search)
  {
    LevelIsNextBall(g, input, n, base, files, current);
    forall q | q in Ball(g, input, n) ensures Searchable(g, q) {
      assert q in Inner(g, input, n) || q in Elements(files);
    }
  }

  lemma EmptyLevelIsLast(g: IncludeGraph, input: Path, n: nat)
    requires Ball(g, input, n) - Inner(g, input, n) == {}
    ensures n > 0 && Ball(g, input, n) == Ball(g, input, n - 1)
  {
    assert n == 0 ==> input in Ball(g, input, n) - Inner(g, input, n);
    assert n > 0;
    hide Ball;
    BallGrows(g, input, n - 1, n);
    forall q | q in Ball(g, input, n) ensures q in Ball(g, input, n - 1) {
      assert q !in Ball(g, input, n) - Inner(g, input, n);
    }
  }

  /** The lists: what is found, and what of it was searched before this level. */
  ghost predicate ListsOk(g: IncludeGraph, input: Path, searched: seq<Path>, current: seq<Path>,
                          returned: seq<Target>, search: seq<Path>)
  {
    && InStep(g, input, returned, search)
    && search == searched + current && returned == Firsts(g, input, Mentions(g, searched))
  }

  lemma SearchIsDone(g: IncludeGraph, input: Path, n: nat, searched: seq<Path>, returned: seq<Target>, search: seq<Path>)
    requires SearchOk(g, input, n, [], search) && ListsOk(g, input, searched, [], returned, search)
    ensures IsDependencyList(g, input, returned)
    ensures forall q :: Reachable(g, input, q) ==> Searchable(g, q)
  {
    assert search == searched;
    hide Ball, Successors;
    assert Elements([]) == {};
    EmptyLevelIsLast(g, input, n);
    StableBallIsReachable(g, input, n - 1);
    forall q ensures q in search <==> Reachable(g, input, q) {
      assert q in search <==> q in Elements(search);
    }
    hide *;
    DependencyListFrom(g, input, returned, search);
  }

  lemma DependencyListFrom(g: IncludeGraph, input: Path, returned: seq<Target>, search: seq<Path>)
    requires InStep(g, input, returned, search) && NoDuplicates(search) && InBfsOrder(g, input, search)
    requires returned == Firsts(g, input, Mentions(g, search)) && forall q :: q in search <==> Reachable(g, input, q)
    ensures IsDependencyList(g, input, returned)
  {
  }

  lemma MentionsOfOneMore(g: IncludeGraph, searched: seq<Path>, files: seq<Path>, i: nat)
    requires i < |files| && files[i] in g.includes
    ensures Mentions(g, searched + files[..i + 1]) == Mentions(g, searched + files[..i]) + g.includes[files[i]]
  {
    var all := searched + files[..i + 1];
    assert all[..|all| - 1] == searched + files[..i];
  }

  /** One target more is a first mention iff its file is not on the search list yet. */
  lemma FirstsStep(g: IncludeGraph, input: Path, mentions: seq<Target>, returned: seq<Target>, search: seq<Path>,
                   targets: seq<Target>, k: nat)
    requires k < |targets| && targets[k] in g.abspath && InStep(g, input, returned, search)
    requires returned == Firsts(g, input, mentions + targets[..k])
    ensures Firsts(g, input, mentions + targets[..k + 1])
         == if g.abspath[targets[k]] in search then returned else returned + [targets[k]]
  {
    var all, path := mentions + targets[..k + 1], g.abspath[targets[k]];
    assert all[..|all| - 1] == mentions + targets[..k];
    if path in search {
      var i :| 0 <= i < |search| && search[i] == path;
      assert i > 0 ==> returned[i - 1] in returned && g.abspath[returned[i - 1]] == path;
    }
  }

  /** One pass of the outer loop: search every file of fileList. */
  method SearchLevel(g: IncludeGraph, input: Path, fileList: seq<Path>, returnList: seq<Target>, searchList: seq<Path>,
                     ghost searched: seq<Path>)
    returns (ok: bool, currentList: seq<Path>, returned: seq<Target>, search: seq<Path>)
    requires InStep(g, input, returnList, searchList) && NoDuplicates(searchList)
    requires returnList == Firsts(g, input, Mentions(g, searched))
    ensures ok <==> AllSearchable(g, fileList)
    ensures ok ==> returned == Firsts(g, input, Mentions(g, searched + fileList))
    ensures ok ==> LevelOk(searchList, currentList, search, Successors(g, Elements(fileList)))
    ensures ok ==> InStep(g, input, returned, search)
  {
    hide Firsts, Mentions;
    currentList, returned, search := [], returnList, searchList;
    assert searched + fileList[..0] == searched;
    for i := 0 to |fileList|
      invariant LevelOk(searchList, currentList, search, Successors(g, Elements(fileList[..i])))
      invariant InStep(g, input, returned, search)
      invariant AllSearchable(g, fileList[..i])
      invariant returned == Firsts(g, input, Mentions(g, searched + fileList[..i]))
    {
      var currentFile := fileList[i];
      if currentFile !in g.includes {
        assert !Searchable(g, currentFile);
        return false, [], [], [];
      }
      var includedFiles := g.includes[currentFile];
      ghost var mentions := Mentions(g, searched + fileList[..i]);
      assert mentions + includedFiles[..0] == mentions;
      for k := 0 to |includedFiles|
        invariant LevelOk(searchList, currentList, search,
                          Successors(g, Elements(fileList[..i])) + PathsOf(g, includedFiles[..k]))
        invariant InStep(g, input, returned, search)
        invariant AllKnown(g, includedFiles[..k])
        invariant returned == Firsts(g, input, mentions + includedFiles[..k])
      {
        var target := includedFiles[k];
        if target !in g.abspath {
          assert !Searchable(g, currentFile);
          return false, [], [], [];
        }
        var path := g.abspath[target];
        ghost var found := Successors(g, Elements(fileList[..i])) + PathsOf(g, includedFiles[..k]);
        OneMoreTarget(g, includedFiles, k);
        FirstsStep(g, input, mentions, returned, search, includedFiles, k);
        assert Successors(g, Elements(fileList[..i])) + PathsOf(g, includedFiles[..k + 1]) == found + {path};
        if path !in search {
          NewFile(searchList, currentList, search, found, path);
          InStepGrows(g, input, returned, search, target);
          currentList := currentList + [path];
          returned := returned + [target];
          search := search + [path];
        } else {
          OldFile(searchList, currentList, search, found, path);
        }
      }
      assert includedFiles[..|includedFiles|] == includedFiles;
      FoundAfterFile(g, fileList, i);
      MentionsOfOneMore(g, searched, fileList, i);
    }
    assert fileList[..|fileList|] == fileList;
    ok := true;
  }

  /** find_idl_dependencies. It fails iff some reachable file is unreadable or includes an
      unknown target; otherwise it returns each reachable file but the input exactly
      once, nearest first, in the order of first mention. */
  method FindIdlDependencies(g: IncludeGraph, input: Path) returns (r: Result)
    ensures r.Failed? <==> exists q :: Reachable(g, input, q) && !Searchable(g, q)
    ensures r.Ok? ==> IsDependencyList(g, input, r.targets)
  {
    var currentList, returnList, searchList := [input], [], [input];
    ghost var n, all, searched := 0, g.abspath.Values + {input}, [];
    SearchStarts(g, input);
    assert ListsOk(g, input, searched, currentList, returnList, searchList);
    hide Firsts, Ball, IsDependencyList, Reachable;
    while currentList != []
      invariant SearchOk(g, input, n, currentList, searchList)
      invariant ListsOk(g, input, searched, currentList, returnList, searchList)
      decreases |all - Elements(searchList)|, |currentList|
    {
      ghost var base := searchList;
      var fileList := currentList;
      var ok;
      ok, currentList, returnList, searchList := SearchLevel(g, input, fileList, returnList, searchList, searched);
      if !ok {
        NotSearchable(g, input, n, fileList);
        return Failed;
      }
      SearchGoesOn(g, input, n, base, fileList, currentList, searchList);
      LevelsEnd(g, input, returnList, base, currentList, searchList);
      n, searched := n + 1, base;
    }
    SearchIsDone(g, input, n, searched, returnList, searchList);
    r := Ok(returnList);
  }

  lemma NotSearchable(g: IncludeGraph, input: Path, n: nat, files: seq<Path>)
    requires Elements(files) <= Ball(g, input, n) && !AllSearchable(g, files)
    ensures exists q :: Reachable(g, input, q) && !Searchable(g, q)
  {
    var p :| p in files && !Searchable(g, p);
    assert p in Elements(files);
    BallIffChain(g, input, p, n);
    assert Reachable(g, input, p);
  }

  // ---- the order is the only one ----

  lemma {:induction false} MentionsAppend(g: IncludeGraph, a: seq<Path>, b: seq<Path>)
    ensures Mentions(g, a + b) == Mentions(g, a) + Mentions(g, b)
  {
    if b == [] {
      assert a + b == a;
    } else {
      assert (a + b)[..|a + b| - 1] == a + b[..|b| - 1];
      MentionsAppend(g, a, b[..|b| - 1]);
    }
  }

  lemma {:induction false} FirstsAppend(g: IncludeGraph, input: Path, a: seq<Target>, b: seq<Target>)
    ensures Firsts(g, input, a) <= Firsts(g, input, a + b)
  {
    if b == [] {
      assert a + b == a;
    } else {
      assert (a + b)[..|a + b| - 1] == a + b[..|b| - 1];
      FirstsAppend(g, input, a, b[..|b| - 1]);
    }
  }

  lemma {:induction false} FirstsCover(g: IncludeGraph, input: Path, targets: seq<Target>)
    ensures PathsOf(g, targets) <= {input} + PathsOf(g, Firsts(g, input, targets))
  {
    if targets == [] {
    } else {
      var front, t := targets[..|targets| - 1], targets[|targets| - 1];
      FirstsCover(g, input, front);
      assert PathsOf(g, targets) == PathsOf(g, front) + PathsOf(g, [t]);
      assert PathsOf(g, Firsts(g, input, front)) <= PathsOf(g, Firsts(g, input, targets));
    }
  }

  lemma {:induction false} MentionsCover(g: IncludeGraph, files: seq<Path>)
    ensures Successors(g, Elements(files)) == PathsOf(g, Mentions(g, files))
  {
    if files == [] {
    } else {
      var front, p := files[..|files| - 1], files[|files| - 1];
      var more := if p in g.includes then g.includes[p] else [];
      MentionsCover(g, front);
      assert Elements(files) == Elements(front) + {p};
      assert PathsOf(g, Mentions(g, front) + more) == PathsOf(g, Mentions(g, front)) + PathsOf(g, more);
      assert Successors(g, Elements(files)) == Successors(g, Elements(front)) + PathsOf(g, more);
    }
  }

  /** What the first k files mention first is the beginning of the list. */
  lemma FirstsOfPrefix(g: IncludeGraph, input: Path, search: seq<Path>, k: nat)
    requires k <= |search|
    ensures Firsts(g, input, Mentions(g, search[..k])) <= Firsts(g, input, Mentions(g, search))
  {
    assert search[..k] + search[k..] == search;
    MentionsAppend(g, search[..k], search[k..]);
    FirstsAppend(g, input, Mentions(g, search[..k]), Mentions(g, search[k..]));
  }

  /** As long as a reachable file is missing, the files so far mention the next one. */
  lemma PrefixMentionsNext(g: IncludeGraph, input: Path, targets: seq<Target>, search: seq<Path>, k: nat)
    requires InStep(g, input, targets, search) && NoDuplicates(search) && 0 < k < |search|
    requires targets == Firsts(g, input, Mentions(g, search)) && Reachable(g, input, search[k])
    ensures |Firsts(g, input, Mentions(g, search[..k]))| >= k
  {
    var firsts := Firsts(g, input, Mentions(g, search[..k]));
    FirstsOfPrefix(g, input, search, k);
    if |firsts| < k {
      forall q | q in Successors(g, Elements(search[..k])) ensures q in Elements(search[..k]) {
        MentionsCover(g, search[..k]);
        FirstsCover(g, input, Mentions(g, search[..k]));
        if q != input {
          var i :| 0 <= i < |firsts| && firsts[i] in g.abspath && g.abspath[firsts[i]] == q;
          assert targets[i] == firsts[i] && search[i + 1] == q;
          assert search[..k][i + 1] == q;
        }
      }
      assert search[..k][0] == input;
      var n :| ChainOf(g, input, search[k], n);
      ClosedHoldsReachable(g, input, Elements(search[..k]), search[k], n);
    }
  }

  lemma ClosedHoldsReachable(g: IncludeGraph, input: Path, files: set<Path>, q: Path, n: nat)
    requires input in files && Successors(g, files) <= files && ChainOf(g, input, q, n)
    ensures q in files
  {
    BallIffChain(g, input, q, n);
    ClosedHoldsBall(g, input, files, n);
  }

  lemma {:induction false} ClosedHoldsBall(g: IncludeGraph, input: Path, files: set<Path>, n: nat)
    requires input in files && Successors(g, files) <= files
    ensures Ball(g, input, n) <= files
  {
    if n == 0 {
    } else {
      ClosedHoldsBall(g, input, files, n - 1);
      SuccessorsGrow(g, Ball(g, input, n - 1), files);
    }
  }

  /** The first k files and what they mention agree, so the next file does. */
  lemma NextFileAgrees(g: IncludeGraph, input: Path, a: seq<Target>, b: seq<Target>, x: seq<Path>, y: seq<Path>, k: nat)
    requires InStep(g, input, a, x) && NoDuplicates(x) && a == Firsts(g, input, Mentions(g, x))
    requires InStep(g, input, b, y) && b == Firsts(g, input, Mentions(g, y))
    requires 0 < k < |x| && k < |y| && x[..k] == y[..k] && Reachable(g, input, x[k])
    ensures x[k] == y[k]
  {
    var firsts := Firsts(g, input, Mentions(g, x[..k]));
    PrefixMentionsNext(g, input, a, x, k);
    FirstsOfPrefix(g, input, x, k);
    FirstsOfPrefix(g, input, y, k);
    hide Firsts, Mentions, Reachable;
    assert firsts <= a && firsts <= b && a[k - 1] == firsts[k - 1] == b[k - 1];
    assert g.abspath[a[k - 1]] == x[k - 1 + 1] && g.abspath[b[k - 1]] == y[k - 1 + 1];
  }

  lemma {:induction false} SearchesAgree(g: IncludeGraph, input: Path, a: seq<Target>, b: seq<Target>,
                                         x: seq<Path>, y: seq<Path>, k: nat)
    requires InStep(g, input, a, x) && NoDuplicates(x) && a == Firsts(g, input, Mentions(g, x))
    requires InStep(g, input, b, y) && b == Firsts(g, input, Mentions(g, y))
    requires k <= |x| && k <= |y| && forall q :: q in x ==> Reachable(g, input, q)
    ensures x[..k] == y[..k]
  {
    if k == 0 {
    } else {
      hide Firsts, Mentions, Reachable;
      SearchesAgree(g, input, a, b, x, y, k - 1);
      if k > 1 {
        NextFileAgrees(g, input, a, b, x, y, k - 1);
      }
      assert x[..k] == x[..k - 1] + [x[k - 1]] && y[..k] == y[..k - 1] + [y[k - 1]];
    }
  }

  lemma NextFileIsNew(x: seq<Path>, n: nat)
    requires NoDuplicates(x) && n < |x|
    ensures x[n] !in x[..n] && x[n] in x
  {
  }

  lemma SameFilesSameLength(x: seq<Path>, y: seq<Path>)
    requires NoDuplicates(x) && |y| <= |x| && x[..|y|] == y && forall q :: q in x ==> q in y
    ensures x == y
  {
    if |y| < |x| {
      NextFileIsNew(x, |y|);
      assert false;
    }
  }

  /** There is only one such list. */
  lemma DependencyListIsUnique(g: IncludeGraph, input: Path, a: seq<Target>, b: seq<Target>)
    requires IsDependencyList(g, input, a) && IsDependencyList(g, input, b)
    ensures a == b
  {
    hide Firsts, Mentions, Reachable, InBfsOrder;
    var x :| InStep(g, input, a, x) && NoDuplicates(x) && InBfsOrder(g, input, x)
             && a == Firsts(g, input, Mentions(g, x)) && forall q :: q in x <==> Reachable(g, input, q);
    var y :| InStep(g, input, b, y) && NoDuplicates(y) && InBfsOrder(g, input, y)
             && b == Firsts(g, input, Mentions(g, y)) && forall q :: q in y <==> Reachable(g, input, q);
    if |y| <= |x| {
      SearchesAgree(g, input, a, b, x, y, |y|);
      assert y[..|y|] == y;
      SameFilesSameLength(x, y);
    } else {
      SearchesAgree(g, input, a, b, x, y, |x|);
      assert x[..|x|] == x;
      SameFilesSameLength(y, x);
    }
  }
}
