/** The sorted, duplicate-free `Vec<AccountId>` that holds the approvals of a
    recovery attempt: `binary_search` to find an element or the place to put
    it, `Vec::insert` to put it there, and a reference definition of the
    ordered-set insert that the two together implement. */
module SortedVec {

  predicate Sorted(s: seq<nat>) {
    forall i, j :: 0 <= i < j < |s| ==> s[i] <= s[j]
  }

  /** Sorted with no duplicates. */
  predicate StrictlySorted(s: seq<nat>) {
    forall i, j :: 0 <= i < j < |s| ==> s[i] < s[j]
  }

  function Elems(s: seq<nat>): set<nat> {
    set x | x in s
  }

  /** Reference definition of inserting into an ordered set: `x` goes in front
      of the first larger element, and an element already present leaves the
      sequence as it is. */
  function Insert(s: seq<nat>, x: nat): seq<nat> {
    if s == [] then [x]
    else if x < s[0] then [x] + s
    else if x == s[0] then s
    else [s[0]] + Insert(s[1..], x)
  }

  /** `Vec::insert(pos, x)`: shifts `s[pos..]` one place to the right. */
  function InsertAt(s: seq<nat>, pos: nat, x: nat): (r: seq<nat>)
    requires pos <= |s|
    ensures |r| == |s| + 1
    ensures r[pos] == x
    ensures forall i :: 0 <= i < pos ==> r[i] == s[i]
    ensures forall i :: pos <= i < |s| ==> r[i + 1] == s[i]
  {
    s[..pos] + [x] + s[pos..]
  }

  /** `binary_search`: `Ok(index)` or `Err(insertion point)`. */
  datatype SearchResult = Found(index: nat) | NotFound(insertAt: nat)

  /** `slice::binary_search` on a sorted slice. */
  method BinarySearch(s: seq<nat>, x: nat) returns (r: SearchResult)
    requires Sorted(s)
    ensures r.Found? <==> x in s
    ensures r.Found? ==> r.index < |s| && s[r.index] == x
    ensures r.NotFound? ==> r.insertAt <= |s|
    ensures r.NotFound? ==> forall i :: 0 <= i < r.insertAt ==> s[i] < x
    ensures r.NotFound? ==> forall i :: r.insertAt <= i < |s| ==> x < s[i]
  {
    var lo, hi := 0, |s|;
    while lo < hi
      invariant 0 <= lo <= hi <= |s|
      invariant forall i :: 0 <= i < lo ==> s[i] < x
      invariant forall i :: hi <= i < |s| ==> x < s[i]
    {
      var mid := lo + (hi - lo) / 2;
      if s[mid] < x {
        lo := mid + 1;
      } else if x < s[mid] {
        hi := mid;
      } else {
        return Found(mid);
      }
    }
    return NotFound(lo);
  }

  lemma ElemsCons(a: nat, s: seq<nat>)
    ensures Elems([a] + s) == {a} + Elems(s)
  {
    forall y ensures y in [a] + s <==> y == a || y in s {
      assert ([a] + s)[1..] == s;
    }
  }

  lemma {:induction false} InsertKeepsStrictlySorted(s: seq<nat>, x: nat)
    requires StrictlySorted(s)
    ensures StrictlySorted(Insert(s, x))
    ensures Elems(Insert(s, x)) == Elems(s) + {x}
    ensures x in s ==> Insert(s, x) == s
    ensures x !in s ==> |Insert(s, x)| == |s| + 1
  {
    if s == [] {
      assert Insert(s, x) == [x];
    } else if x < s[0] {
      assert Insert(s, x) == [x] + s;
      InsertInFront(s, x);
    } else if x == s[0] {
      assert Insert(s, x) == s;
    } else {
      InsertKeepsStrictlySorted(s[1..], x);
      InsertBehindHead(s, x);
    }
  }

  /** The inductive step of InsertKeepsStrictlySorted: from what the
      insert does to the tail, what it does to the whole sequence. */
  lemma InsertBehindHead(s: seq<nat>, x: nat)
    requires StrictlySorted(s) && s != [] && s[0] < x
    requires StrictlySorted(Insert(s[1..], x))
    requires Elems(Insert(s[1..], x)) == Elems(s[1..]) + {x}
    requires x in s[1..] ==> Insert(s[1..], x) == s[1..]
    requires x !in s[1..] ==> |Insert(s[1..], x)| == |s[1..]| + 1
    ensures StrictlySorted(Insert(s, x))
    ensures Elems(Insert(s, x)) == Elems(s) + {x}
    ensures x in s ==> Insert(s, x) == s
    ensures x !in s ==> |Insert(s, x)| == |s| + 1
  {
    var t := s[1..];
    var u := Insert(t, x);
    assert s == [s[0]] + t;
    assert Insert(s, x) == [s[0]] + u;
    assert StrictlySorted([s[0]] + u) by {
      InsertHeadBelow(s, x, u);
    }
    assert Elems([s[0]] + u) == Elems(s) + {x} by {
      ElemsCons(s[0], t);
      ElemsCons(s[0], u);
    }
    assert x in s <==> x in t;
  }

  /** The base case of InsertKeepsStrictlySorted: an element below the head
      goes in front. */
  lemma InsertInFront(s: seq<nat>, x: nat)
    requires StrictlySorted(s) && s != [] && x < s[0]
    ensures StrictlySorted([x] + s)
    ensures Elems([x] + s) == Elems(s) + {x}
    ensures x !in s
  {
    forall j | 0 <= j < |s| ensures x < s[j] {
      if j > 0 { assert s[0] < s[j]; }
    }
    ElemsCons(x, s);
  }

  /** The inductive step of InsertKeepsStrictlySorted: the head of `s`, being
      below `x` and below the rest of `s`, stays below everything in `u`. */
  lemma InsertHeadBelow(s: seq<nat>, x: nat, u: seq<nat>)
    requires StrictlySorted(s) && s != [] && s[0] < x
    requires StrictlySorted(u) && Elems(u) == Elems(s[1..]) + {x}
    ensures StrictlySorted([s[0]] + u)
  {
    var r := [s[0]] + u;
    forall i, j | 0 <= i < j < |r| ensures r[i] < r[j] {
      var y := u[j - 1];
      assert r[j] == y;
      assert y in Elems(u);
      if y != x {
        var k :| 0 <= k < |s[1..]| && s[1..][k] == y;
        assert s[k + 1] == y;
      }
      if i > 0 { assert r[i] == u[i - 1]; }
    }
  }

  /** A strictly sorted sequence is determined by its elements. */
  lemma {:induction false} StrictlySortedUnique(s: seq<nat>, t: seq<nat>)
    requires StrictlySorted(s) && StrictlySorted(t)
    requires Elems(s) == Elems(t)
    ensures s == t
  {
    assert s != [] ==> s[0] in Elems(s);
    assert t != [] ==> t[0] in Elems(t);
    if s == [] || t == [] {
    } else {
      assert s[0] in Elems(t);
      var k :| 0 <= k < |t| && t[k] == s[0];
      assert t[0] in Elems(s);
      var m :| 0 <= m < |s| && s[m] == t[0];
      assert s[0] <= s[m] && t[0] <= t[k];
      assert s[0] == t[0];
      var s', t' := s[1..], t[1..];
      assert Elems(s') == Elems(s) - {s[0]} by {
        assert s == [s[0]] + s';
        forall y ensures y in s' <==> y in s && y != s[0] {
          if y in s' {
            var i :| 0 <= i < |s'| && s'[i] == y;
            assert s[i + 1] == y;
          }
        }
      }
      assert Elems(t') == Elems(t) - {t[0]} by {
        assert t == [t[0]] + t';
        forall y ensures y in t' <==> y in t && y != t[0] {
          if y in t' {
            var i :| 0 <= i < |t'| && t'[i] == y;
            assert t[i + 1] == y;
          }
        }
      }
      StrictlySortedUnique(s', t');
      assert s == [s[0]] + s' && t == [t[0]] + t';
    }
  }

  /** The order in which two elements are inserted does not matter. */
  lemma {:induction false} InsertCommutes(s: seq<nat>, a: nat, b: nat)
    requires StrictlySorted(s)
    ensures Insert(Insert(s, a), b) == Insert(Insert(s, b), a)
  {
    InsertTwice(s, a, b);
    InsertTwice(s, b, a);
    assert {a} + {b} == {b} + {a};
    StrictlySortedUnique(Insert(Insert(s, a), b), Insert(Insert(s, b), a));
  }

  lemma InsertTwice(s: seq<nat>, a: nat, b: nat)
    requires StrictlySorted(s)
    ensures StrictlySorted(Insert(Insert(s, a), b))
    ensures Elems(Insert(Insert(s, a), b)) == Elems(s) + {a} + {b}
  {
    InsertKeepsStrictlySorted(s, a);
    InsertKeepsStrictlySorted(Insert(s, a), b);
  }

  /** `Vec::insert` at the point `binary_search` reports for an absent
      element is the ordered-set insert. */
  lemma {:induction false} InsertAtSearchPoint(s: seq<nat>, pos: nat, x: nat)
    requires StrictlySorted(s)
    requires pos <= |s|
    requires forall i :: 0 <= i < pos ==> s[i] < x
    requires forall i :: pos <= i < |s| ==> x < s[i]
    ensures InsertAt(s, pos, x) == Insert(s, x)
  {
    if pos == 0 {
      assert InsertAt(s, pos, x) == [x] + s;
    } else {
      assert Insert(s, x) == [s[0]] + Insert(s[1..], x);
      InsertAtSearchPoint(s[1..], pos - 1, x);
      InsertAtTail(s, pos, x);
    }
  }

  /** Inserting behind the head is inserting into the tail. */
  lemma InsertAtTail(s: seq<nat>, pos: nat, x: nat)
    requires 0 < pos <= |s|
    ensures InsertAt(s, pos, x) == [s[0]] + InsertAt(s[1..], pos - 1, x)
  {
    assert s[..pos] == [s[0]] + s[1..][..pos - 1];
    assert s[pos..] == s[1..][pos - 1..];
  }
}
