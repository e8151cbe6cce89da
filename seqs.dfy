/**
 * Sequence operations behind the database queries: filtering by a `where`
 * clause, the newest-first order, `skip`/`take` paging and first-match lookup.
 * Tables are kept in insertion order, so "newest first" is the reverse of a table.
 */
module Seqs {
  import opened Common

  /** The elements of `s` that satisfy `p`, in their order in `s`. */
  function Filter<T(!new)>(s: seq<T>, p: T -> bool): (r: seq<T>)
    ensures |r| <= |s|
    ensures forall x :: x in r <==> x in s && p(x)
  {
    if s == [] then []
    else Filter(s[..|s| - 1], p) + (if p(s[|s| - 1]) then [s[|s| - 1]] else [])
  }

  /** Newest first: the reverse of insertion order. */
  function Reverse<T>(s: seq<T>): (r: seq<T>)
    ensures |r| == |s|
    ensures forall i :: 0 <= i < |s| ==> r[i] == s[|s| - 1 - i]
  {
    if s == [] then [] else Reverse(s[1..]) + [s[0]]
  }

  lemma ReverseSameElements<T(!new)>(s: seq<T>)
    ensures forall x :: x in Reverse(s) <==> x in s
  {
    var r := Reverse(s);
    forall x ensures x in r <==> x in s {
      if x in s {
        var i :| 0 <= i < |s| && s[i] == x;
        assert r[|s| - 1 - i] == x;
      }
    }
  }

  function Min(a: int, b: int): int
  {
    if a <= b then a else b
  }

  /** Prisma's `skip: offset, take: limit`: at most `limit` elements starting at `offset`. */
  function Page<T>(s: seq<T>, offset: nat, limit: nat): (r: seq<T>)
    ensures |r| == if offset >= |s| then 0 else Min(limit, |s| - offset)
    ensures forall i :: 0 <= i < |r| ==> r[i] == s[offset + i]
  {
    if offset >= |s| then [] else s[offset..offset + Min(limit, |s| - offset)]
  }

  /** The index of the first element of `s` that satisfies `p`, if any. */
  function IndexWhere<T(!new)>(s: seq<T>, p: T -> bool): (r: Option<nat>)
    ensures r.Some? ==> r.value < |s| && p(s[r.value])
    ensures r.Some? ==> forall j :: 0 <= j < r.value ==> !p(s[j])
    ensures r.None? <==> forall x :: x in s ==> !p(x)
  {
    if s == [] then None
    else if p(s[0]) then Some(0)
    else match IndexWhere(s[1..], p)
      case None => None
      case Some(k) => Some(k + 1)
  }

  /** A lookup only depends on which positions satisfy its predicate. */
  lemma {:induction false} IndexWhereAgrees<T(!new)>(s: seq<T>, t: seq<T>, p: T -> bool)
    requires |s| == |t| && forall j :: 0 <= j < |s| ==> p(s[j]) == p(t[j])
    ensures IndexWhere(s, p) == IndexWhere(t, p)
  {
    if s != [] && !p(s[0]) {
      IndexWhereAgrees(s[1..], t[1..], p);
    }
  }
}
