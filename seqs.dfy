/**
 * Sequences of groups, read front to back: the order in which a nested
 * `for group in groups: for x in group` loop visits its elements.
 */
module Seqs {

  /** The elements of all groups, group after group, each group in its own order. */
  function Flatten<T>(groups: seq<seq<T>>): seq<T>
  {
    if groups == [] then [] else groups[0] + Flatten(groups[1..])
  }

  /** The position in the flattened sequence at which member `m` of group `g` is visited. */
  function Position<T>(groups: seq<seq<T>>, g: nat, m: nat): nat
    requires g <= |groups|
  {
    |Flatten(groups[..g])| + m
  }

  /** Every element of the flattened sequence comes from one of the groups. */
  lemma {:induction false} FlattenMember<T>(groups: seq<seq<T>>)
    ensures forall x :: x in Flatten(groups) ==> exists g :: g in groups && x in g
  {
    if groups != [] {
      FlattenMember(groups[1..]);
      forall x | x in Flatten(groups)
        ensures exists g :: g in groups && x in g
      {
        if x !in groups[0] {
          assert x in Flatten(groups[1..]);
          var g :| g in groups[1..] && x in g;
          assert g in groups;
        }
      }
    }
  }

  lemma TakeNext<T>(s: seq<T>, n: nat)
    requires n < |s|
    ensures s[..n + 1] == s[..n] + [s[n]]
  {
  }

  lemma ConcatAssoc<T>(a: seq<T>, b: seq<T>, c: seq<T>)
    ensures a + b + c == a + (b + c)
  {
  }

  /** Cutting `s == p + (q + r)` inside `q`, after `n` of its elements. */
  lemma TakeConcat<T>(s: seq<T>, p: seq<T>, q: seq<T>, r: seq<T>, n: nat)
    requires s == p + (q + r) && n <= |q|
    ensures |p| + n <= |s| && (n < |q| ==> |p| + n < |s|)
    ensures s[..|p| + n] == p + q[..n]
    ensures n < |q| ==> s[|p| + n] == q[n]
  {
    assert s == (p + q[..n]) + (q[n..] + r);
  }

  lemma {:induction false} FlattenAppend<T>(a: seq<seq<T>>, b: seq<seq<T>>)
    ensures Flatten(a + b) == Flatten(a) + Flatten(b)
  {
    if a == [] {
      assert a + b == b;
    } else {
      assert (a + b)[1..] == a[1..] + b;
      FlattenAppend(a[1..], b);
    }
  }

  lemma {:induction false} FlattenSingleton<T>(x: seq<T>)
    ensures Flatten([x]) == x
  {
    assert [x][1..] == [];
  }

  /** Splitting the groups at `g`: the earlier groups, then group `g`, then the later ones. */
  lemma {:induction false} FlattenSplit<T>(groups: seq<seq<T>>, g: nat)
    requires g < |groups|
    ensures Flatten(groups) == Flatten(groups[..g]) + groups[g] + Flatten(groups[g + 1..])
    ensures Flatten(groups[..g + 1]) == Flatten(groups[..g]) + groups[g]
  {
    var front, back := groups[..g], groups[g..];
    assert groups == front + back;
    FlattenAppend(front, back);
    assert back != [] && back[0] == groups[g] && back[1..] == groups[g + 1..];
    assert Flatten(back) == groups[g] + Flatten(groups[g + 1..]);
    assert groups[..g + 1] == front + [groups[g]];
    FlattenAppend(front, [groups[g]]);
    FlattenSingleton(groups[g]);
  }

  /** Member `m` of group `g` stands at `Position(groups, g, m)` of the flattened sequence. */
  lemma {:induction false} FlattenAt<T>(groups: seq<seq<T>>, g: nat, m: nat)
    requires g < |groups| && m < |groups[g]|
    ensures Position(groups, g, m) < |Flatten(groups)|
    ensures Flatten(groups)[Position(groups, g, m)] == groups[g][m]
  {
    FlattenSplit(groups, g);
  }

  /** Groups are visited in order, and the members of one group in order. */
  lemma {:induction false} PositionOrder<T>(groups: seq<seq<T>>, g1: nat, m1: nat, g2: nat, m2: nat)
    requires g1 < |groups| && m1 < |groups[g1]| && g2 < |groups|
    requires g1 < g2 || (g1 == g2 && m1 < m2)
    ensures Position(groups, g1, m1) < Position(groups, g2, m2)
  {
    if g1 < g2 {
      FlattenSplit(groups, g2 - 1);
      if g1 < g2 - 1 {
        PositionOrder(groups, g1, m1, g2 - 1, 0);
      }
    }
  }

  /** Every position of the flattened sequence belongs to exactly one (group, member) pair. */
  lemma {:induction false} Locate<T>(groups: seq<seq<T>>, j: nat) returns (g: nat, m: nat)
    requires j < |Flatten(groups)|
    ensures g < |groups| && m < |groups[g]|
    ensures Position(groups, g, m) == j
  {
    var n := |groups| - 1;
    assert groups != [];
    assert groups[..n + 1] == groups;
    FlattenSplit(groups, n);
    if j < |Flatten(groups[..n])| {
      g, m := Locate(groups[..n], j);
      assert groups[..n][..g] == groups[..g];
    } else {
      g, m := n, j - |Flatten(groups[..n])|;
    }
  }
}
