/**
  AddToDdsArray and RemoveFromDdsArray: a DDS sequence used as a set.
*/
module DdsArray {
  import opened Collections

  // ---- what the two operations do to the contents ----

  function Added<T(==)>(s: seq<T>, x: T): seq<T> {
    if x in s then s else s + [x]
  }

  /** The first match is gone; the overloads differ in how they match. */
  function WithoutFirst<T>(s: seq<T>, matches: T -> bool): seq<T> {
    if s == [] then s
    else if matches(s[0]) then s[1..] else [s[0]] + WithoutFirst(s[1..], matches)
  }

  predicate HasMatch<T>(s: seq<T>, matches: T -> bool) {
    exists i :: 0 <= i < |s| && matches(s[i])
  }

  function Removed<T(==)>(s: seq<T>, x: T): seq<T> {
    WithoutFirst(s, y => y == x)
  }

  /** The first match and no other element goes. */
  lemma {:induction false} WithoutFirstAt<T>(s: seq<T>, matches: T -> bool, k: nat)
    requires k < |s| && matches(s[k]) && forall i :: 0 <= i < k ==> !matches(s[i])
    ensures WithoutFirst(s, matches) == s[..k] + s[k + 1..]
  {
    if k == 0 {
    } else {
      WithoutFirstAt(s[1..], matches, k - 1);
      assert s[..k] == [s[0]] + s[1..][..k - 1];
    }
  }

  lemma {:induction false} WithoutFirstNone<T>(s: seq<T>, matches: T -> bool)
    requires !HasMatch(s, matches)
    ensures WithoutFirst(s, matches) == s
  {
    if s == [] {
    } else {
      assert forall i :: 0 <= i < |s| - 1 ==> s[1..][i] == s[i + 1];
      WithoutFirstNone(s[1..], matches);
    }
  }

  class Sequence<T(==)> {
    var items: seq<T>

    constructor ()
      ensures items == []
    {
      items := [];
    }

    /** length(n): cut off at the end, or filled up with default elements. */
    method SetLength(n: nat, default: T)
      modifies this
      ensures |items| == n && forall i :: 0 <= i < n ==> items[i] == if i < |old(items)| then old(items)[i] else default
    {
      items := if n <= |items| then items[..n] else items + seq(n - |items|, _ => default);
    }

    method AddToDdsArray(toAdd: T)
      modifies this
      ensures items == Added(old(items), toAdd)
    {
      var foundAlready := false;
      var i := 0;
      while i < |items|
        invariant 0 <= i <= |items| && items == old(items) && !foundAlready && toAdd !in items[..i]
      {
        if items[i] == toAdd {
          foundAlready := true;
          break;
        }
        i := i + 1;
      }
      if !foundAlready {
        var oldLength := |items|;
        SetLength(oldLength + 1, toAdd);
        items := items[oldLength := toAdd];
      }
    }

    /** Shift everything after the first match down by one, then cut off the last element. */
    method RemoveFromDdsArray(matches: T -> bool) returns (foundAlready: bool)
      modifies this
      ensures items == WithoutFirst(old(items), matches)
      ensures foundAlready == HasMatch(old(items), matches)
    {
      ghost var s, k := items, 0;
      foundAlready := false;
      for i := 0 to |items|
        invariant |items| == |s|
        invariant !foundAlready ==> items == s && forall j :: 0 <= j < i ==> !matches(s[j])
        invariant foundAlready ==> k < i && matches(s[k]) && forall j :: 0 <= j < k ==> !matches(s[j])
        invariant foundAlready ==> forall j :: k <= j < i - 1 ==> items[j] == s[j + 1]
        invariant foundAlready ==> forall j :: 0 <= j < |s| && !(k <= j < i - 1) ==> items[j] == s[j]
      {
        if foundAlready {
          items := items[i - 1 := items[i]];
        } else if matches(items[i]) {
          foundAlready, k := true, i;
        }
      }
      if foundAlready {
        ghost var shifted := items;
        var last := items[|items| - 1];
        SetLength(|items| - 1, last);
        WithoutFirstAt(s, matches, k);
        assert items == s[..k] + s[k + 1..];
      } else {
        WithoutFirstNone(s, matches);
      }
    }
  }

  // ---- any sequence of operations ----

  datatype Op<T> = Add(x: T) | Remove(x: T)

  function Run<T(==)>(ops: seq<Op<T>>): seq<T> {
    if ops == [] then []
    else
      var s, op := Run(ops[..|ops| - 1]), ops[|ops| - 1];
      if op.Add? then Added(s, op.x) else Removed(s, op.x)
  }

  /** Every element but x, in the same order. */
  function Without<T(==)>(s: seq<T>, x: T): seq<T> {
    if s == [] then []
    else Without(s[..|s| - 1], x) + if s[|s| - 1] == x then [] else [s[|s| - 1]]
  }

  lemma {:induction false} WithoutAbsent<T>(s: seq<T>, x: T)
    requires x !in s
    ensures Without(s, x) == s
  {
    if s == [] {
    } else {
      WithoutAbsent(s[..|s| - 1], x);
    }
  }

  lemma {:induction false} WithoutAppend<T>(s: seq<T>, t: seq<T>, x: T)
    ensures Without(s + t, x) == Without(s, x) + Without(t, x)
  {
    if t == [] {
      assert s + t == s;
    } else {
      assert (s + t)[..|s + t| - 1] == s + t[..|t| - 1];
      WithoutAppend(s, t[..|t| - 1], x);
    }
  }

  lemma {:induction false} WithoutFromFront<T>(s: seq<T>, x: T)
    requires s != []
    ensures Without(s, x) == (if s[0] == x then [] else [s[0]]) + Without(s[1..], x)
  {
    assert s == [s[0]] + s[1..];
    WithoutAppend([s[0]], s[1..], x);
    assert [s[0]][..0] == [];
  }

  /** On an array without duplicates, removing the first match removes the element. */
  lemma {:induction false} RemovedIsWithout<T>(s: seq<T>, x: T)
    requires NoDuplicates(s)
    ensures Removed(s, x) == Without(s, x)
  {
    if s == [] {
    } else {
      WithoutFromFront(s, x);
      if s[0] == x {
        WithoutAbsent(s[1..], x);
      } else {
        RemovedIsWithout(s[1..], x);
      }
    }
  }

  lemma {:induction false} WithoutKeepsDistinct<T>(s: seq<T>, x: T)
    requires NoDuplicates(s)
    ensures NoDuplicates(Without(s, x)) && forall y :: y in Without(s, x) <==> y in s && y != x
  {
    if s == [] {
    } else {
      var n := |s| - 1;
      WithoutKeepsDistinct(s[..n], x);
      assert forall y :: y in s <==> y in s[..n] || y == s[n];
      assert s[n] !in s[..n];
    }
  }

  /** The operation that put an element where it is: not removed later, and not already
      there when it was added. */
  ghost predicate Placed<T(!new)>(ops: seq<Op<T>>, i: int)
    requires 0 <= i < |ops|
  {
    && ops[i].Add?
    && (forall j :: i < j < |ops| ==> ops[j] != Remove(ops[i].x))
    && (forall j :: 0 <= j < i && ops[j] == Add(ops[i].x) ==> exists k :: j < k < i && ops[k] == Remove(ops[i].x))
  }

  /** The elements placed by the first n operations, in the order they were placed. */
  ghost function PlacedBy<T(!new)>(ops: seq<Op<T>>, n: nat): seq<T>
    requires n <= |ops|
  {
    if n == 0 then [] else PlacedBy(ops, n - 1) + PlacedAt(ops, n - 1)
  }

  ghost function PlacedAt<T(!new)>(ops: seq<Op<T>>, i: nat): seq<T>
    requires i < |ops|
  {
    if Placed(ops, i) then [ops[i].x] else []
  }

  /** x was added and not removed since. */
  ghost predicate Present<T(!new)>(ops: seq<Op<T>>, x: T) {
    exists i :: 0 <= i < |ops| && ops[i] == Add(x) && forall j :: i < j < |ops| ==> ops[j] != Remove(x)
  }

  lemma {:induction false} RunIsSet<T(!new)>(ops: seq<Op<T>>)
    ensures NoDuplicates(Run(ops)) && forall x :: x in Run(ops) <==> Present(ops, x)
  {
    if ops == [] {
    } else {
      var front, op := ops[..|ops| - 1], ops[|ops| - 1];
      RunIsSet(front);
      RemovedIsWithout(Run(front), op.x);
      WithoutKeepsDistinct(Run(front), op.x);
      forall x ensures Present(ops, x) <==> op == Add(x) || (Present(front, x) && op != Remove(x)) {
        PresentAfter(ops, x);
      }
    }
  }

  lemma PresentAfter<T(!new)>(ops: seq<Op<T>>, x: T)
    requires ops != []
    ensures var front, op := ops[..|ops| - 1], ops[|ops| - 1];
            Present(ops, x) <==> op == Add(x) || (Present(front, x) && op != Remove(x))
  {
    var n := |ops| - 1;
    var front := ops[..n];
    if i :| 0 <= i < |ops| && ops[i] == Add(x) && forall j :: i < j < |ops| ==> ops[j] != Remove(x) {
      if i < n {
        assert front[i] == Add(x) && forall j :: i < j < n ==> front[j] == ops[j];
      }
    }
    if i :| 0 <= i < n && front[i] == Add(x) && forall j :: i < j < n ==> front[j] != Remove(x) {
      assert ops[i] == Add(x) && forall j :: i < j < n ==> ops[j] == front[j];
    }
  }

  lemma PlacedAfter<T(!new)>(ops: seq<Op<T>>, i: nat)
    requires i < |ops| - 1
    ensures var front, op := ops[..|ops| - 1], ops[|ops| - 1];
            Placed(ops, i) <==> Placed(front, i) && op != Remove(ops[i].x)
  {
    var front := ops[..|ops| - 1];
    assert forall j {:trigger ops[j]} {:trigger front[j]} :: 0 <= j < |front| ==> front[j] == ops[j];
  }

  /** What a last operation does to the elements placed before it. */
  function Filtered<T(==)>(s: seq<T>, op: Op<T>): seq<T> {
    if op.Remove? then Without(s, op.x) else s
  }

  lemma {:induction false} PlacedByAfter<T(!new)>(front: seq<Op<T>>, op: Op<T>, ops: seq<Op<T>>, n: nat)
    requires n <= |front| && ops == front + [op]
    ensures PlacedBy(ops, n) == Filtered(PlacedBy(front, n), op)
  {
    if n == 0 {
    } else {
      PlacedByAfter(front, op, ops, n - 1);
      PlacedAtAfter(front, op, ops, n - 1);
      FilteredAppend(PlacedBy(front, n - 1), PlacedAt(front, n - 1), op);
    }
  }

  lemma FilteredAppend<T>(s: seq<T>, t: seq<T>, op: Op<T>)
    ensures Filtered(s + t, op) == Filtered(s, op) + Filtered(t, op)
  {
    WithoutAppend(s, t, op.x);
  }

  lemma PlacedAtAfter<T(!new)>(front: seq<Op<T>>, op: Op<T>, ops: seq<Op<T>>, i: nat)
    requires i < |front| && ops == front + [op]
    ensures PlacedAt(ops, i) == Filtered(PlacedAt(front, i), op)
  {
    assert ops[..|front|] == front && ops[i] == front[i];
    PlacedAfter(ops, i);
    WithoutOne(front[i].x, op.x);
  }

  lemma WithoutOne<T>(x: T, y: T)
    ensures Without([x], y) == if x == y then [] else [x]
  {
    assert [x][..0] == [];
  }

  lemma {:induction false} RunIsPlacedStep<T(!new)>(front: seq<Op<T>>, op: Op<T>, ops: seq<Op<T>>)
    requires ops == front + [op] && Run(front) == PlacedBy(front, |front|)
    requires NoDuplicates(Run(front)) && forall x :: x in Run(front) <==> Present(front, x)
    ensures Run(ops) == PlacedBy(ops, |ops|)
  {
    var n := |front|;
    assert ops[..n] == front && ops[n] == op;
    PlacedByAfter(front, op, ops, n);
    if op.Remove? {
      RemovedIsWithout(Run(front), op.x);
    } else {
      LastIsPlacedIff(ops);
    }
  }

  lemma {:induction false} RunIsPlaced<T(!new)>(ops: seq<Op<T>>)
    ensures Run(ops) == PlacedBy(ops, |ops|)
  {
    if ops == [] {
    } else {
      var front, op := ops[..|ops| - 1], ops[|ops| - 1];
      RunIsPlaced(front);
      RunIsSet(front);
      RunIsPlacedStep(front, op, ops);
    }
  }

  /** From an empty array, any sequence of adds and removes leaves exactly the elements
      added and not removed since, once each, in the order in which they were placed. */
  lemma {:induction false} ArrayIsInsertionOrderedSet<T(!new)>(ops: seq<Op<T>>)
    ensures Run(ops) == PlacedBy(ops, |ops|)
    ensures NoDuplicates(Run(ops)) && forall x :: x in Run(ops) <==> Present(ops, x)
  {
    RunIsPlaced(ops);
    RunIsSet(ops);
  }

  lemma LastIsPlacedIff<T(!new)>(ops: seq<Op<T>>)
    requires ops != [] && ops[|ops| - 1].Add?
    ensures Placed(ops, |ops| - 1) <==> !Present(ops[..|ops| - 1], ops[|ops| - 1].x)
  {
    var n := |ops| - 1;
    var front, x := ops[..n], ops[n].x;
    assert forall j {:trigger ops[j]} {:trigger front[j]} :: 0 <= j < n ==> front[j] == ops[j];
    if Present(front, x) {
      var i :| 0 <= i < n && front[i] == Add(x) && forall j :: i < j < n ==> front[j] != Remove(x);
      assert ops[i] == Add(x) && forall k :: i < k < n ==> ops[k] != Remove(x);
    } else {
      forall j | 0 <= j < n && ops[j] == Add(x) ensures exists k :: j < k < n && ops[k] == Remove(x) {
        var k :| j < k < n && front[k] == Remove(x);
        assert ops[k] == Remove(x);
      }
    }
  }

  /** Removing an element after adding it restores the array iff it was not there. */
  lemma RemoveUndoesAddIff<T>(s: seq<T>, x: T)
    ensures Removed(Added(s, x), x) == s <==> x !in s
  {
    if x in s {
      var k := FirstIndex(s, x);
      WithoutFirstAt(s, y => y == x, k);
      assert |Removed(s, x)| == |s| - 1;
    } else {
      WithoutFirstAt(s + [x], y => y == x, |s|);
    }
  }

  function FirstIndex<T(==)>(s: seq<T>, x: T): (k: nat)
    requires x in s
    ensures k < |s| && s[k] == x && forall i :: 0 <= i < k ==> s[i] != x
  {
    if s[0] == x then 0 else 1 + FirstIndex(s[1..], x)
  }
}
