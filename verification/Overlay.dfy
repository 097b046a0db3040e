/** The neighbour table, kept and iterated in the order of node ids. */
module Overlay {
  import opened Domain

  /** Byte-wise lexicographic order. */
  predicate Below(a: Bytes, b: Bytes) {
    b != [] && (a == [] || a[0] < b[0] || (a[0] == b[0] && Below(a[1..], b[1..])))
  }

  lemma {:induction false} BelowIrreflexive(a: Bytes)
    ensures !Below(a, a)
  {
    if a != [] {
      BelowIrreflexive(a[1..]);
    }
  }

  lemma {:induction false} BelowTransitive(a: Bytes, b: Bytes, c: Bytes)
    requires Below(a, b) && Below(b, c)
    ensures Below(a, c)
  {
    if a != [] && a[0] == b[0] == c[0] {
      BelowTransitive(a[1..], b[1..], c[1..]);
    }
  }

  lemma {:induction false} BelowTotal(a: Bytes, b: Bytes)
    ensures a == b || Below(a, b) || Below(b, a)
  {
    if a != [] && b != [] && a[0] == b[0] {
      BelowTotal(a[1..], b[1..]);
      assert a == [a[0]] + a[1..] && b == [b[0]] + b[1..];
    }
  }

  ghost predicate Sorted(nbrs: seq<Neighbor>) {
    forall i, j :: 0 <= i < j < |nbrs| ==> Below(nbrs[i].id.bytes, nbrs[j].id.bytes)
  }

  /** Insert a neighbour at its place. */
  function Placed(nbrs: seq<Neighbor>, nb: Neighbor): (r: seq<Neighbor>)
    ensures |r| == |nbrs| + 1
    ensures forall x :: x in r <==> x in nbrs || x == nb
  {
    if nbrs == [] || Below(Last(nbrs).id.bytes, nb.id.bytes) then nbrs + [nb]
    else
      assert nbrs == Front(nbrs) + [Last(nbrs)];
      Placed(Front(nbrs), nb) + [Last(nbrs)]
  }

  lemma {:induction false} PlacedSorted(nbrs: seq<Neighbor>, nb: Neighbor)
    requires Sorted(nbrs) && forall x :: x in nbrs ==> x.id != nb.id
    ensures Sorted(Placed(nbrs, nb))
  {
    if nbrs != [] {
      var front, last := Front(nbrs), Last(nbrs);
      assert last in nbrs;
      BelowTotal(last.id.bytes, nb.id.bytes);
      if Below(last.id.bytes, nb.id.bytes) {
        AllBelow(nbrs, nb);
      } else {
        assert forall x :: x in front ==> x in nbrs;
        PlacedSorted(front, nb);
        var r := Placed(front, nb);
        forall i | 0 <= i < |r|
          ensures Below(r[i].id.bytes, last.id.bytes)
        {
          assert r[i] in r;
          if r[i] != nb {
            var k :| 0 <= k < |front| && front[k] == r[i];
            assert nbrs[k] == r[i];
          }
        }
      }
    }
  }

  lemma AllBelow(nbrs: seq<Neighbor>, nb: Neighbor)
    requires nbrs != [] && Sorted(nbrs) && Below(Last(nbrs).id.bytes, nb.id.bytes)
    ensures forall i :: 0 <= i < |nbrs| ==> Below(nbrs[i].id.bytes, nb.id.bytes)
  {
    forall i | 0 <= i < |nbrs| - 1
      ensures Below(nbrs[i].id.bytes, nb.id.bytes)
    {
      BelowTransitive(nbrs[i].id.bytes, Last(nbrs).id.bytes, nb.id.bytes);
    }
  }

  /** A neighbour beyond all others goes last, and is not among them. */
  lemma PlacedLast(nbrs: seq<Neighbor>)
    requires nbrs != [] && Sorted(nbrs)
    ensures Sorted(Front(nbrs)) && Placed(Front(nbrs), Last(nbrs)) == nbrs
    ensures forall x :: x in Front(nbrs) ==> x.id != Last(nbrs).id
  {
    forall x | x in Front(nbrs)
      ensures x.id != Last(nbrs).id
    {
      var i :| 0 <= i < |nbrs| - 1 && nbrs[i] == x;
      BelowIrreflexive(x.id.bytes);
    }
  }
}
