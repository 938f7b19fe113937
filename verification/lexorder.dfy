/**
  The order in which JavaScript's default `Array.prototype.sort()` places strings:
  character by character, with a proper prefix first. Used for the sorted chart labels
  and for the sorted parameter string of a signed upload.
*/
module LexOrder {

  /** `a` sorts no later than `b`. */
  predicate Le(a: string, b: string)
    decreases |a|
  {
    |a| == 0 || (|b| > 0 && (a[0] < b[0] || (a[0] == b[0] && Le(a[1..], b[1..]))))
  }

  /** `a` sorts strictly before `b`. */
  predicate Lt(a: string, b: string) {
    Le(a, b) && a != b
  }

  /** Every element sorts strictly before every later one (so there are no duplicates). */
  predicate StrictlySorted(r: seq<string>) {
    forall i, j :: 0 <= i < j < |r| ==> Lt(r[i], r[j])
  }

  /** `m` is the element of `keys` that sorts first. */
  predicate IsLeast(m: string, keys: set<string>) {
    m in keys && forall x :: x in keys ==> Le(m, x)
  }

  lemma {:induction false} LeReflexive(a: string)
    ensures Le(a, a)
    decreases |a|
  {
    if |a| > 0 {
      LeReflexive(a[1..]);
    }
  }

  lemma {:induction false} LeTotal(a: string, b: string)
    ensures Le(a, b) || Le(b, a)
    decreases |a|
  {
    if |a| > 0 && |b| > 0 && a[0] == b[0] {
      LeTotal(a[1..], b[1..]);
    }
  }

  lemma {:induction false} LeAntisymmetric(a: string, b: string)
    requires Le(a, b) && Le(b, a)
    ensures a == b
    decreases |a|
  {
    if |a| > 0 {
      LeAntisymmetric(a[1..], b[1..]);
      assert a == [a[0]] + a[1..];
      assert b == [b[0]] + b[1..];
    }
  }

  lemma {:induction false} LeTransitive(a: string, b: string, c: string)
    requires Le(a, b) && Le(b, c)
    ensures Le(a, c)
    decreases |a|
  {
    if |a| > 0 && a[0] == b[0] && b[0] == c[0] {
      LeTransitive(a[1..], b[1..], c[1..]);
    }
  }

  /** A finite non-empty set of strings has an element that sorts first. */
  lemma {:induction false} LeastExists(keys: set<string>)
    requires keys != {}
    ensures exists m :: IsLeast(m, keys)
    decreases |keys|
  {
    var y :| y in keys;
    LeReflexive(y);
    if keys != {y} {
      var rest := keys - {y};
      LeastExists(rest);
      var m :| IsLeast(m, rest);
      LeTotal(m, y);
      if Le(m, y) {
        assert IsLeast(m, keys);
      } else {
        forall x | x in rest
          ensures Le(y, x)
        {
          LeTransitive(y, m, x);
        }
        assert IsLeast(y, keys);
      }
    } else {
      assert IsLeast(y, keys);
    }
  }

  lemma LeastUnique(keys: set<string>)
    ensures forall m, m' :: IsLeast(m, keys) && IsLeast(m', keys) ==> m == m'
  {
    forall m, m' | IsLeast(m, keys) && IsLeast(m', keys)
      ensures m == m'
    {
      LeAntisymmetric(m, m');
    }
  }

  /** The keys of a set in ascending order (`Object.keys(..).sort()` for string-keyed records). */
  function SortedKeys(keys: set<string>): (r: seq<string>)
    ensures |r| == |keys|
    ensures forall i :: 0 <= i < |r| ==> r[i] in keys
    ensures forall k :: k in keys ==> k in r
    ensures StrictlySorted(r)
    decreases |keys|
  {
    if keys == {} then []
    else
      LeastExists(keys);
      LeastUnique(keys);
      var m :| IsLeast(m, keys);
      var tail := SortedKeys(keys - {m});
      assert forall j :: 0 <= j < |tail| ==> Lt(m, tail[j]);
      [m] + tail
  }

  /** Two strictly sorted sequences with the same elements are equal: the sorted order is unique. */
  lemma {:induction false} SortedUnique(a: seq<string>, b: seq<string>)
    requires StrictlySorted(a) && StrictlySorted(b)
    requires |a| == |b|
    requires forall x :: x in a <==> x in b
    ensures a == b
    decreases |a|
  {
    if |a| > 0 {
      assert a[0] in b;
      assert b[0] in a;
      if a[0] != b[0] {
        var k :| 0 <= k < |a| && a[k] == b[0];
        var k' :| 0 <= k' < |b| && b[k'] == a[0];
        assert Lt(a[0], a[k]) && Lt(b[0], b[k']);
        LeAntisymmetric(a[0], b[0]);
      }
      forall x
        ensures x in a[1..] <==> x in b[1..]
      {
        if x in a[1..] {
          var k :| 1 <= k < |a| && a[k] == x;
          assert Lt(a[0], a[k]);
          assert x in b;
        }
        if x in b[1..] {
          var k :| 1 <= k < |b| && b[k] == x;
          assert Lt(b[0], b[k]);
          assert x in a;
        }
      }
      SortedUnique(a[1..], b[1..]);
      assert a == [a[0]] + a[1..];
      assert b == [b[0]] + b[1..];
    }
  }
}
