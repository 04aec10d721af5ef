/**
  The order in which the pretty-printer lists an object's keys. Swift leaves a dictionary's
  iteration order unspecified; the model fixes ascending lexicographic order of code points,
  so that each key appears exactly once and the output is a function of the value.
*/
module KeyOrder {

  /** Lexicographic order by code point; a proper prefix comes first. */
  predicate Below(a: string, b: string)
    decreases |a|
  {
    if a == [] then true
    else if b == [] then false
    else if a[0] != b[0] then a[0] < b[0]
    else Below(a[1..], b[1..])
  }

  lemma {:induction false} BelowTotal(a: string, b: string)
    ensures Below(a, b) || Below(b, a)
    decreases |a|
  {
    if a != [] && b != [] && a[0] == b[0] {
      BelowTotal(a[1..], b[1..]);
    }
  }

  lemma {:induction false} BelowAntisymmetric(a: string, b: string)
    requires Below(a, b) && Below(b, a)
    ensures a == b
    decreases |a|
  {
    if a != [] {
      BelowAntisymmetric(a[1..], b[1..]);
      assert a == [a[0]] + a[1..] && b == [b[0]] + b[1..];
    }
  }

  lemma {:induction false} BelowTransitive(a: string, b: string, c: string)
    requires Below(a, b) && Below(b, c)
    ensures Below(a, c)
    decreases |a|
  {
    if a != [] && b != [] && c != [] && a[0] == b[0] && b[0] == c[0] {
      BelowTransitive(a[1..], b[1..], c[1..]);
    }
  }

  predicate IsLeast(k: string, keys: set<string>) {
    k in keys && forall j :: j in keys ==> Below(k, j)
  }

  /** Every finite non-empty set of keys has a least element. */
  lemma {:induction false} LeastExists(keys: set<string>)
    requires keys != {}
    ensures exists k :: IsLeast(k, keys)
    decreases |keys|
  {
    var x :| x in keys;
    var rest := keys - {x};
    if rest == {} {
      assert keys == {x};
      BelowTotal(x, x);
      assert IsLeast(x, keys);
    } else {
      LeastExists(rest);
      var y :| IsLeast(y, rest);
      BelowTotal(x, y);
      if Below(x, y) {
        forall j | j in keys ensures Below(x, j) {
          if j != x {
            BelowTransitive(x, y, j);
          } else {
            BelowTotal(x, x);
          }
        }
        assert IsLeast(x, keys);
      } else {
        assert IsLeast(y, keys);
      }
    }
  }

  lemma LeastUnique(k1: string, k2: string, keys: set<string>)
    requires IsLeast(k1, keys) && IsLeast(k2, keys)
    ensures k1 == k2
  {
    BelowAntisymmetric(k1, k2);
  }

  /** The keys of a dictionary in ascending order: the least key, then the others. */
  ghost function SortedKeys(keys: set<string>): (r: seq<string>)
    ensures |r| == |keys|
    decreases |keys|
  {
    if keys == {} then []
    else
      LeastExists(keys);
      var k :| IsLeast(k, keys);
      [k] + SortedKeys(keys - {k})
  }

  /** Taking the least key first and sorting the rest gives the sorted keys. */
  lemma SortedKeysStep(keys: set<string>, k: string)
    requires IsLeast(k, keys)
    ensures SortedKeys(keys) == [k] + SortedKeys(keys - {k})
  {
    var r := SortedKeys(keys);
    assert IsLeast(r[0], keys);
    LeastUnique(r[0], k, keys);
  }

  /** The sorted keys are exactly the keys. */
  lemma {:induction false} SortedKeysAreTheKeys(keys: set<string>)
    ensures forall i :: 0 <= i < |SortedKeys(keys)| ==> SortedKeys(keys)[i] in keys
    ensures forall k :: k in keys ==> k in SortedKeys(keys)
    decreases |keys|
  {
    if keys != {} {
      var r := SortedKeys(keys);
      var k := r[0];
      assert IsLeast(k, keys);
      SortedKeysStep(keys, k);
      SortedKeysAreTheKeys(keys - {k});
      assert r[1..] == SortedKeys(keys - {k});
    }
  }

  /** Each key appears once, and the keys ascend. */
  lemma {:induction false} SortedKeysAscend(keys: set<string>)
    ensures forall i, j :: 0 <= i < j < |SortedKeys(keys)| ==>
      Below(SortedKeys(keys)[i], SortedKeys(keys)[j]) && SortedKeys(keys)[i] != SortedKeys(keys)[j]
    decreases |keys|
  {
    if keys != {} {
      var r := SortedKeys(keys);
      var k := r[0];
      assert IsLeast(k, keys);
      SortedKeysStep(keys, k);
      var rest := SortedKeys(keys - {k});
      SortedKeysAscend(keys - {k});
      SortedKeysAreTheKeys(keys - {k});
      assert r[1..] == rest;
      forall i, j | 0 <= i < j < |r| ensures Below(r[i], r[j]) && r[i] != r[j] {
        if i == 0 {
          assert r[j] == rest[j - 1] && r[j] in keys - {k};
        } else {
          assert r[i] == rest[i - 1] && r[j] == rest[j - 1];
        }
      }
    }
  }

  /** The keys in ascending order, found by repeatedly taking the least key not yet taken. */
  method OrderedKeys(keys: set<string>) returns (sorted: seq<string>)
    ensures sorted == SortedKeys(keys)
  {
    sorted := [];
    var remaining := keys;
    while remaining != {}
      invariant sorted + SortedKeys(remaining) == SortedKeys(keys)
      decreases |remaining|
    {
      LeastExists(remaining);
      var key :| key in remaining && IsLeast(key, remaining);
      SortedKeysStep(remaining, key);
      ghost var rest := SortedKeys(remaining - {key});
      assert (sorted + [key]) + rest == sorted + ([key] + rest);
      sorted := sorted + [key];
      remaining := remaining - {key};
    }
  }
}
