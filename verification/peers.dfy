/**
 * The node's peer list and the choice of fan-out targets.  The list is kept
 * in insertion order and that order is the order in which requests fan out.
 */
module Peers {
  import opened Common

  /** No element occurs twice. */
  ghost predicate NoDup(s: seq<Name>)
  {
    forall i, j :: 0 <= i < j < |s| ==> s[i] != s[j]
  }

  /** The position of the first occurrence of x. */
  function IndexOf(s: seq<Name>, x: Name): (i: nat)
    requires x in s
    ensures i < |s| && s[i] == x && x !in s[..i]
  {
    if s[0] == x then 0 else 1 + IndexOf(s[1..], x)
  }

  /** addPeer: the list once the name is registered.  It is then present, the
      old list is an unchanged prefix, nothing else is added, and a list
      without duplicates stays without duplicates. */
  function WithPeer(ps: seq<Name>, n: Name): (r: seq<Name>)
    ensures n in r
    ensures forall x :: x in r <==> x in ps || x == n
    ensures |ps| <= |r| <= |ps| + 1 && r[..|ps|] == ps
    ensures NoDup(ps) ==> NoDup(r)
  {
    if n in ps then ps else ps + [n]
  }

  /** Registering a name twice is the same as registering it once. */
  lemma WithPeerIdempotent(ps: seq<Name>, n: Name)
    ensures WithPeer(WithPeer(ps, n), n) == WithPeer(ps, n)
  {
  }

  /** removePeer (Python's list.remove behind an `in` guard): the list without
      the first occurrence of n, everything else in its old order; a list
      without n is returned unchanged. */
  function RemoveFirst(s: seq<Name>, n: Name): (r: seq<Name>)
    ensures n in s ==> r == s[..IndexOf(s, n)] + s[IndexOf(s, n) + 1..]
    ensures n !in s ==> r == s
  {
    if s == [] then []
    else if s[0] == n then s[1..]
    else
      assert s == [s[0]] + s[1..];
      [s[0]] + RemoveFirst(s[1..], n)
  }

  /** In a list without duplicates, removePeer removes the name for good,
      keeps every other name, and keeps the list free of duplicates. */
  lemma RemoveFirstNoDup(s: seq<Name>, n: Name)
    requires NoDup(s)
    ensures NoDup(RemoveFirst(s, n))
    ensures forall x :: x in RemoveFirst(s, n) <==> x in s && x != n
  {
    if n in s {
      var i := IndexOf(s, n);
      assert RemoveFirst(s, n) == s[..i] + s[i + 1..];
      DropAtNoDup(s, i);
    }
  }

  /** Dropping position i of a duplicate-free list drops exactly the name
      held there and leaves no duplicates. */
  lemma DropAtNoDup(s: seq<Name>, i: nat)
    requires NoDup(s) && i < |s|
    ensures NoDup(s[..i] + s[i + 1..])
    ensures forall x :: x in s[..i] + s[i + 1..] <==> x in s && x != s[i]
  {
    var r := s[..i] + s[i + 1..];
    // position a of r holds position a of s before i and a + 1 from i on
    assert forall a :: 0 <= a < |r| ==> r[a] == s[if a < i then a else a + 1];
    forall x | x in r ensures x in s && x != s[i] {
      var a :| 0 <= a < |r| && r[a] == x;
    }
    forall x | x in s && x != s[i] ensures x in r {
      var k :| 0 <= k < |s| && s[k] == x;
      assert r[if k < i then k else k - 1] == x;
    }
  }

  /** The fan-out targets: the peers other than `excluded`, in list order
      (the `continue` of the fan-out loops). */
  function Eligible(ps: seq<Name>, excluded: Name): (r: seq<Name>)
    ensures forall x :: x in r <==> x in ps && x != excluded
    ensures |r| <= |ps|
  {
    if ps == [] then []
    else if ps[0] == excluded then Eligible(ps[1..], excluded)
    else [ps[0]] + Eligible(ps[1..], excluded)
  }

  /** Filtering a list in two pieces filters each piece; the fan-out loops
      rely on this one peer at a time. */
  lemma {:induction false} EligibleAppend(a: seq<Name>, b: seq<Name>, excluded: Name)
    ensures Eligible(a + b, excluded) == Eligible(a, excluded) + Eligible(b, excluded)
  {
    if a == [] {
      assert a + b == b;
    } else {
      assert (a + b)[1..] == a[1..] + b;
      EligibleAppend(a[1..], b, excluded);
    }
  }

  /** The targets among the first i + 1 peers are those among the first i,
      followed by peer i unless it is the excluded one. */
  lemma EligibleStep(ps: seq<Name>, i: nat, excluded: Name)
    requires i < |ps|
    ensures Eligible(ps[..i + 1], excluded) ==
      Eligible(ps[..i], excluded) + (if ps[i] == excluded then [] else [ps[i]])
  {
    assert ps[..i + 1] == ps[..i] + [ps[i]];
    EligibleAppend(ps[..i], [ps[i]], excluded);
  }

  /** On a duplicate-free peer list the fan-out targets are exactly the list
      with the excluded name taken out: every other peer once, in list order. */
  lemma {:induction false} EligibleIsRemoveFirst(ps: seq<Name>, excluded: Name)
    requires NoDup(ps)
    ensures Eligible(ps, excluded) == RemoveFirst(ps, excluded)
  {
    if ps != [] {
      assert NoDup(ps[1..]) by {
        forall i, j | 0 <= i < j < |ps[1..]| ensures ps[1..][i] != ps[1..][j] {
          assert ps[1..][i] == ps[i + 1] && ps[1..][j] == ps[j + 1];
        }
      }
      if ps[0] == excluded {
        assert excluded !in ps[1..] by {
          forall k | 0 <= k < |ps[1..]| ensures ps[1..][k] != ps[0] {
            assert ps[1..][k] == ps[k + 1];
          }
        }
        assert Eligible(ps[1..], excluded) == ps[1..] by {
          EligibleOfAbsent(ps[1..], excluded);
        }
      } else {
        EligibleIsRemoveFirst(ps[1..], excluded);
      }
    }
  }

  /** Excluding a name that is not in the list excludes nothing. */
  lemma {:induction false} EligibleOfAbsent(ps: seq<Name>, excluded: Name)
    requires excluded !in ps
    ensures Eligible(ps, excluded) == ps
  {
    if ps != [] {
      assert excluded !in ps[1..];
      EligibleOfAbsent(ps[1..], excluded);
    }
  }
}
