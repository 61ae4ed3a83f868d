/**
 * The two rewrites both optimizer versions share: order-preserving column
 * deduplication (`list(dict.fromkeys(columns))`) and the bottom-up,
 * cost-based swap of LOGIC children (`reorder_conditions`). Each version
 * supplies its own cost estimate.
 */
module Passes {
  import opened Ast

  // ---------------------------------------------------------------------
  // Column deduplication

  predicate NoDuplicates(s: seq<string>)
  {
    forall i, j :: 0 <= i < j < |s| ==> s[i] != s[j]
  }

  /** `dict.fromkeys` fed `s` after the keys in `seen`: a key already present is skipped. */
  function FromKeys(s: seq<string>, seen: set<string>): seq<string>
  {
    if s == [] then []
    else if s[0] in seen then FromKeys(s[1..], seen)
    else [s[0]] + FromKeys(s[1..], seen + {s[0]})
  }

  function Dedup(columns: seq<string>): seq<string>
  {
    FromKeys(columns, {})
  }

  function Elems(s: seq<string>): set<string>
  {
    set x | x in s
  }

  /** The keys kept are those of `s` not seen before, and no kept key repeats or was seen. */
  lemma {:induction false} FromKeysMembers(s: seq<string>, seen: set<string>)
    ensures forall x :: x in FromKeys(s, seen) <==> x in s && x !in seen
    ensures NoDuplicates(FromKeys(s, seen))
  {
    if s != [] {
      if s[0] in seen {
        FromKeysMembers(s[1..], seen);
      } else {
        FromKeysMembers(s[1..], seen + {s[0]});
        var rest := FromKeys(s[1..], seen + {s[0]});
        assert FromKeys(s, seen) == [s[0]] + rest;
        assert forall i :: 0 <= i < |rest| ==> rest[i] in rest;
      }
      assert forall x :: x in s <==> x == s[0] || x in s[1..];
    }
  }

  /** Deduplication keeps the same set of names and leaves no duplicates. */
  lemma DedupSameNames(columns: seq<string>)
    ensures forall x :: x in Dedup(columns) <==> x in columns
    ensures NoDuplicates(Dedup(columns))
  {
    FromKeysMembers(columns, {});
  }

  /** Feeding `p` then `q` is deduplicating `p`, then feeding `q` after the names of `p`. */
  lemma {:induction false} FromKeysSplit(p: seq<string>, q: seq<string>, seen: set<string>)
    ensures FromKeys(p + q, seen) == FromKeys(p, seen) + FromKeys(q, seen + Elems(p))
  {
    if p == [] {
      assert p + q == q;
      assert Elems(p) == {};
      assert seen + Elems(p) == seen;
    } else {
      assert (p + q)[0] == p[0];
      assert (p + q)[1..] == p[1..] + q;
      assert Elems(p) == {p[0]} + Elems(p[1..]);
      if p[0] in seen {
        FromKeysSplit(p[1..], q, seen);
        assert seen + Elems(p[1..]) == seen + Elems(p);
      } else {
        FromKeysSplit(p[1..], q, seen + {p[0]});
        assert seen + {p[0]} + Elems(p[1..]) == seen + Elems(p);
      }
    }
  }

  /**
   * Deduplication keeps each name at its first occurrence, in the original
   * order: one more column adds itself at the end exactly when it is new.
   */
  lemma DedupExtend(columns: seq<string>, x: string)
    ensures Dedup(columns + [x]) == Dedup(columns) + (if x in columns then [] else [x])
  {
    FromKeysSplit(columns, [x], {});
    assert x in Elems(columns) <==> x in columns;
    assert FromKeys([x], Elems(columns))
           == if x in Elems(columns) then FromKeys([], Elems(columns)) else [x] + FromKeys([], Elems(columns) + {x});
  }

  /** A list without duplicates comes back unchanged. */
  lemma {:induction false} FromKeysDistinct(s: seq<string>, seen: set<string>)
    requires NoDuplicates(s)
    requires forall x :: x in s ==> x !in seen
    ensures FromKeys(s, seen) == s
  {
    if s != [] {
      assert s[0] in s;
      assert NoDuplicates(s[1..]) by {
        forall i, j | 0 <= i < j < |s| - 1
          ensures s[1..][i] != s[1..][j]
        {
          assert s[1..][i] == s[i + 1] && s[1..][j] == s[j + 1];
        }
      }
      forall x | x in s[1..]
        ensures x !in seen + {s[0]}
      {
        var k :| 0 <= k < |s[1..]| && s[1..][k] == x;
        assert s[k + 1] == x;
      }
      FromKeysDistinct(s[1..], seen + {s[0]});
    }
  }

  lemma DedupIdempotent(columns: seq<string>)
    ensures Dedup(Dedup(columns)) == Dedup(columns)
  {
    DedupSameNames(columns);
    FromKeysDistinct(Dedup(columns), {});
  }

  /** Deduplication shortens the list exactly when some name repeats. */
  lemma {:induction false} DedupShortens(columns: seq<string>)
    ensures |Dedup(columns)| <= |columns|
    ensures |Dedup(columns)| < |columns| <==> !NoDuplicates(columns)
  {
    FromKeysLength(columns, {});
    if NoDuplicates(columns) {
      FromKeysDistinct(columns, {});
    } else {
      var i, j :| 0 <= i < j < |columns| && columns[i] == columns[j];
      var p, q := columns[..j], columns[j..];
      assert columns == p + q;
      FromKeysSplit(p, q, {});
      assert {} + Elems(p) == Elems(p);
      assert columns[i] in Elems(p) by { assert p[i] == columns[i]; }
      assert q[0] == columns[j];
      assert FromKeys(q, Elems(p)) == FromKeys(q[1..], Elems(p));
      FromKeysLength(p, {});
      FromKeysLength(q[1..], Elems(p));
    }
  }

  lemma {:induction false} FromKeysLength(s: seq<string>, seen: set<string>)
    ensures |FromKeys(s, seen)| <= |s|
  {
    if s != [] {
      FromKeysLength(s[1..], if s[0] in seen then seen else seen + {s[0]});
    }
  }

  // ---------------------------------------------------------------------
  // Cost-based reordering of LOGIC children

  /**
   * `reorder_conditions`: a non-LOGIC node is returned as it is; a LOGIC
   * node has both children reordered first, and they are swapped when the
   * left one costs more than the right one. The operator is kept.
   */
  function Reorder(n: Node, cost: Node -> int): Node
  {
    if !n.Logic? then n
    else
      var l := Reorder(n.left, cost);
      var r := Reorder(n.right, cost);
      if cost(l) > cost(r) then Logic(n.op, r, l) else Logic(n.op, l, r)
  }

  /** Every LOGIC node has its cheaper child (or an equally cheap one) on the left. */
  predicate Ordered(n: Node, cost: Node -> int)
  {
    n.Logic? ==> Ordered(n.left, cost) && Ordered(n.right, cost) && cost(n.left) <= cost(n.right)
  }

  /** The operators of the LOGIC nodes of a tree. */
  function Ops(n: Node): multiset<string>
  {
    if n.Logic? then multiset{n.op} + Ops(n.left) + Ops(n.right) else multiset{}
  }

  /** After reordering, every LOGIC node has cost(left) <= cost(right). */
  lemma {:induction false} ReorderOrdered(n: Node, cost: Node -> int)
    ensures Ordered(Reorder(n, cost), cost)
  {
    if n.Logic? {
      ReorderOrdered(n.left, cost);
      ReorderOrdered(n.right, cost);
    }
  }

  /** Reordering keeps the multiset of leaves. */
  lemma {:induction false} ReorderKeepsLeaves(n: Node, cost: Node -> int)
    ensures Leaves(Reorder(n, cost)) == Leaves(n)
  {
    if n.Logic? {
      ReorderKeepsLeaves(n.left, cost);
      ReorderKeepsLeaves(n.right, cost);
      var l, r := Reorder(n.left, cost), Reorder(n.right, cost);
      assert Leaves(Logic(n.op, r, l)) == Leaves(r) + Leaves(l);
      assert Leaves(Logic(n.op, l, r)) == Leaves(l) + Leaves(r);
    }
  }

  /** Reordering keeps the multiset of LOGIC operators. */
  lemma {:induction false} ReorderKeepsOps(n: Node, cost: Node -> int)
    ensures Ops(Reorder(n, cost)) == Ops(n)
  {
    if n.Logic? {
      ReorderKeepsOps(n.left, cost);
      ReorderKeepsOps(n.right, cost);
      var l, r := Reorder(n.left, cost), Reorder(n.right, cost);
      var m := multiset{n.op};
      assert Ops(Logic(n.op, r, l)) == m + Ops(r) + Ops(l);
      assert Ops(Logic(n.op, l, r)) == m + Ops(l) + Ops(r);
      assert m + Ops(r) + Ops(l) == m + Ops(l) + Ops(r);
    }
  }

  /** A tree already in order is left exactly as it is. */
  lemma {:induction false} OrderedUnchanged(n: Node, cost: Node -> int)
    requires Ordered(n, cost)
    ensures Reorder(n, cost) == n
  {
    if n.Logic? {
      OrderedUnchanged(n.left, cost);
      OrderedUnchanged(n.right, cost);
    }
  }

  /** Reordering a second time changes nothing, and a tree is its own reordering exactly when it is in order. */
  lemma ReorderIdempotent(n: Node, cost: Node -> int)
    ensures Reorder(Reorder(n, cost), cost) == Reorder(n, cost)
    ensures Reorder(n, cost) == n <==> Ordered(n, cost)
  {
    ReorderOrdered(n, cost);
    OrderedUnchanged(Reorder(n, cost), cost);
    if Ordered(n, cost) {
      OrderedUnchanged(n, cost);
    }
  }

  /** A parser-built tree stays parser-built. */
  lemma {:induction false} ReorderParserShaped(n: Node, cost: Node -> int)
    requires ParserShaped(n)
    ensures ParserShaped(Reorder(n, cost))
  {
    if n.Logic? {
      ReorderParserShaped(n.left, cost);
      ReorderParserShaped(n.right, cost);
    }
  }
}
