/**
 * Lists of records identified by a string id, and the id-keyed operations the
 * stores build every action from: `findIndex`, `find`, `filter` on the id and
 * `map` that replaces the entries with an id.
 */
module Keyed {
  import opened Options

  /** The ids of a list, in list order. */
  function Keys<T>(s: seq<T>, key: T -> string): (ks: seq<string>)
    ensures |ks| == |s|
    ensures forall i :: 0 <= i < |s| ==> ks[i] == key(s[i])
  {
    if s == [] then [] else [key(s[0])] + Keys(s[1..], key)
  }

  /** No two entries share an id. */
  predicate Unique(ks: seq<string>) {
    forall i, j :: 0 <= i < j < |ks| ==> ks[i] != ks[j]
  }

  /** `s.findIndex(x => key(x) === k)`: the first index with that id, or -1. */
  function IndexOf<T>(s: seq<T>, key: T -> string, k: string): (i: int)
    ensures -1 <= i < |s|
    ensures i == -1 <==> k !in Keys(s, key)
    ensures 0 <= i ==> key(s[i]) == k && forall j :: 0 <= j < i ==> key(s[j]) != k
  {
    if s == [] then -1
    else if key(s[0]) == k then 0
    else
      var j := IndexOf(s[1..], key, k);
      assert Keys(s, key) == [key(s[0])] + Keys(s[1..], key);
      if j == -1 then -1 else j + 1
  }

  /** `s.find(x => key(x) === k)`: the first entry with that id. */
  function Find<T>(s: seq<T>, key: T -> string, k: string): (r: Option<T>)
    ensures r.None? <==> k !in Keys(s, key)
    ensures r.Some? ==> key(r.value) == k && r.value == s[IndexOf(s, key, k)]
  {
    var i := IndexOf(s, key, k);
    if i == -1 then None else Some(s[i])
  }

  /** `s.filter(x => key(x) !== k)` */
  function Without<T>(s: seq<T>, key: T -> string, k: string): (r: seq<T>)
    ensures |r| <= |s|
    ensures forall i :: 0 <= i < |r| ==> r[i] in s && key(r[i]) != k
    ensures forall i :: 0 <= i < |s| && key(s[i]) != k ==> s[i] in r
    ensures k !in Keys(r, key)
  {
    if s == [] then []
    else if key(s[0]) == k then Without(s[1..], key, k)
    else [s[0]] + Without(s[1..], key, k)
  }

  /** `s.map(x => key(x) === k ? v : x)` */
  function ReplaceAll<T>(s: seq<T>, key: T -> string, k: string, v: T): (r: seq<T>)
    ensures |r| == |s|
    ensures forall i :: 0 <= i < |s| ==> r[i] == if key(s[i]) == k then v else s[i]
  {
    seq(|s|, i requires 0 <= i < |s| => if key(s[i]) == k then v else s[i])
  }

  /** Filtering out an id no entry carries changes nothing. */
  lemma {:induction false} WithoutAbsent<T>(s: seq<T>, key: T -> string, k: string)
    requires k !in Keys(s, key)
    ensures Without(s, key, k) == s
  {
    if s != [] {
      assert Keys(s, key) == [key(s[0])] + Keys(s[1..], key);
      WithoutAbsent(s[1..], key, k);
    }
  }

  /** Filtering distributes over concatenation: the survivors keep their relative order. */
  lemma {:induction false} WithoutAppend<T>(a: seq<T>, b: seq<T>, key: T -> string, k: string)
    ensures Without(a + b, key, k) == Without(a, key, k) + Without(b, key, k)
  {
    if a != [] {
      assert (a + b)[1..] == a[1..] + b;
      WithoutAppend(a[1..], b, key, k);
    } else {
      assert a + b == b;
    }
  }

  /** Filtering is idempotent. */
  lemma WithoutTwice<T>(s: seq<T>, key: T -> string, k: string)
    ensures Without(Without(s, key, k), key, k) == Without(s, key, k)
  {
    WithoutAbsent(Without(s, key, k), key, k);
  }

  /** With unique ids, filtering out a present id removes exactly one entry. */
  lemma {:induction false} WithoutUniqueLength<T>(s: seq<T>, key: T -> string, k: string)
    requires Unique(Keys(s, key))
    ensures |Without(s, key, k)| == if k in Keys(s, key) then |s| - 1 else |s|
  {
    if s == [] {
    } else {
      var ks := Keys(s, key);
      assert ks == [key(s[0])] + Keys(s[1..], key);
      assert Unique(Keys(s[1..], key)) by {
        forall i, j | 0 <= i < j < |s| - 1 ensures Keys(s[1..], key)[i] != Keys(s[1..], key)[j] {
          assert ks[i + 1] != ks[j + 1];
        }
      }
      WithoutUniqueLength(s[1..], key, k);
      if key(s[0]) == k {
        assert k !in Keys(s[1..], key) by {
          forall i | 0 <= i < |s| - 1 ensures Keys(s[1..], key)[i] != k {
            assert ks[0] != ks[i + 1];
          }
        }
      } else {
        assert k in Keys(s, key) <==> k in Keys(s[1..], key);
      }
    }
  }

  /** Filtering keeps ids unique. */
  lemma {:induction false} WithoutKeepsUnique<T>(s: seq<T>, key: T -> string, k: string)
    requires Unique(Keys(s, key))
    ensures Unique(Keys(Without(s, key, k), key))
  {
    if s != [] {
      var ks := Keys(s, key);
      assert Unique(Keys(s[1..], key)) by {
        forall i, j | 0 <= i < j < |s| - 1 ensures Keys(s[1..], key)[i] != Keys(s[1..], key)[j] {
          assert ks[i + 1] != ks[j + 1];
        }
      }
      WithoutKeepsUnique(s[1..], key, k);
      var rest := Without(s[1..], key, k);
      if key(s[0]) != k {
        assert key(s[0]) !in Keys(rest, key) by {
          forall i | 0 <= i < |rest| ensures key(rest[i]) != key(s[0]) {
            assert rest[i] in s[1..];
            var j :| 0 <= j < |s| - 1 && s[1..][j] == rest[i];
            assert ks[0] != ks[j + 1];
          }
        }
        UniqueCons(key(s[0]), Keys(rest, key));
        assert Keys([s[0]] + rest, key) == [key(s[0])] + Keys(rest, key);
      }
    }
  }

  lemma UniqueCons(k: string, ks: seq<string>)
    requires Unique(ks) && k !in ks
    ensures Unique([k] + ks)
  {
    var r := [k] + ks;
    forall i, j | 0 <= i < j < |r| ensures r[i] != r[j] {
      if i == 0 {
        assert r[j] == ks[j - 1];
      } else {
        assert r[i] == ks[i - 1] && r[j] == ks[j - 1];
      }
    }
  }

  /** Replacing an id no entry carries changes nothing. */
  lemma ReplaceAbsent<T>(s: seq<T>, key: T -> string, k: string, v: T)
    requires k !in Keys(s, key)
    ensures ReplaceAll(s, key, k, v) == s
  {
    assert forall i :: 0 <= i < |s| ==> Keys(s, key)[i] != k;
  }

  /** Replacing by a value with the same id keeps the list's ids, and is idempotent. */
  lemma ReplaceSameKey<T>(s: seq<T>, key: T -> string, v: T)
    ensures Keys(ReplaceAll(s, key, key(v), v), key) == Keys(s, key)
    ensures ReplaceAll(ReplaceAll(s, key, key(v), v), key, key(v), v) == ReplaceAll(s, key, key(v), v)
  {
  }
}
