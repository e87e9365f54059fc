/** Sequence helpers mirroring the JavaScript array methods the front end uses:
    `filter`, `find` and `includes`, plus the optional value that `find` returns. */
module Lists {

  /** A value that may be missing (`undefined` or `null` in the front end). */
  datatype Option<+T> = None | Some(value: T) {
    /** `x ?? d` */
    function GetOr(default: T): T {
      match this
      case Some(v) => v
      case None => default
    }
  }

  /** `sub` is an order-preserving sublist of `s`. */
  ghost predicate IsSubsequence<T>(sub: seq<T>, s: seq<T>)
    decreases |s|
  {
    if sub == [] then true
    else if s == [] then false
    else if sub[0] == s[0] then IsSubsequence(sub[1..], s[1..])
    else IsSubsequence(sub, s[1..])
  }

  /** No element occurs twice. */
  ghost predicate NoDuplicates<T>(s: seq<T>) {
    forall i, j :: 0 <= i < j < |s| ==> s[i] != s[j]
  }

  /** `s.filter(keep)`: the elements satisfying `keep`, in their original order
      and with their original multiplicity. */
  function Filter<T(!new)>(s: seq<T>, keep: T -> bool): (r: seq<T>)
    ensures |r| <= |s|
    ensures forall x :: x in r <==> x in s && keep(x)
    ensures IsSubsequence(r, s)
  {
    if s == [] then []
    else
      var rest := Filter(s[1..], keep);
      assert s == [s[0]] + s[1..];
      if keep(s[0]) then
        assert ([s[0]] + rest)[1..] == rest;
        [s[0]] + rest
      else
        assert rest != [] ==> rest[0] != s[0] by {
          if rest != [] { assert rest[0] in rest; }
        }
        rest
  }

  /** Filtering keeps every kept element as often as it occurs and drops the rest. */
  lemma {:induction false} FilterMultiset<T(!new)>(s: seq<T>, keep: T -> bool)
    ensures forall x :: multiset(Filter(s, keep))[x] == if keep(x) then multiset(s)[x] else 0
  {
    if s != [] {
      FilterMultiset(s[1..], keep);
      assert s == [s[0]] + s[1..];
    }
  }

  /** Filtering with a condition every element meets returns the sequence itself. */
  lemma {:induction false} FilterAll<T(!new)>(s: seq<T>, keep: T -> bool)
    requires forall x :: x in s ==> keep(x)
    ensures Filter(s, keep) == s
  {
    if s != [] {
      assert s[0] in s;
      assert forall x :: x in s[1..] ==> x in s;
      FilterAll(s[1..], keep);
      assert s == [s[0]] + s[1..];
    }
  }

  /** Filtering with a condition no element meets returns nothing. */
  lemma {:induction false} FilterNone<T(!new)>(s: seq<T>, keep: T -> bool)
    requires forall x :: x in s ==> !keep(x)
    ensures Filter(s, keep) == []
  {
    if s != [] {
      assert s[0] in s;
      assert forall x :: x in s[1..] ==> x in s;
      FilterNone(s[1..], keep);
    }
  }

  /** Filtering a concatenation filters each part. */
  lemma {:induction false} FilterAppend<T(!new)>(s: seq<T>, t: seq<T>, keep: T -> bool)
    ensures Filter(s + t, keep) == Filter(s, keep) + Filter(t, keep)
  {
    if s != [] {
      var st := s + t;
      assert st[1..] == s[1..] + t;
      assert st[0] == s[0];
      FilterAppend(s[1..], t, keep);
      if keep(s[0]) {
        assert Filter(st, keep) == [s[0]] + Filter(st[1..], keep);
        assert Filter(s, keep) == [s[0]] + Filter(s[1..], keep);
      } else {
        assert Filter(st, keep) == Filter(st[1..], keep);
        assert Filter(s, keep) == Filter(s[1..], keep);
      }
    } else {
      assert s + t == t;
    }
  }

  /** Filtering keeps no duplicates if there were none. */
  lemma {:induction false} FilterNoDuplicates<T(!new)>(s: seq<T>, keep: T -> bool)
    requires NoDuplicates(s)
    ensures NoDuplicates(Filter(s, keep))
  {
    if s != [] {
      assert NoDuplicates(s[1..]) by {
        forall i, j | 0 <= i < j < |s[1..]| ensures s[1..][i] != s[1..][j] {
          assert s[1..][i] == s[i + 1] && s[1..][j] == s[j + 1];
        }
      }
      FilterNoDuplicates(s[1..], keep);
      var rest := Filter(s[1..], keep);
      if keep(s[0]) {
        assert s[0] !in s[1..] by {
          forall k | 0 <= k < |s[1..]| ensures s[1..][k] != s[0] {
            assert s[1..][k] == s[k + 1];
          }
        }
        assert s[0] !in rest;
        var r := [s[0]] + rest;
        forall i, j | 0 <= i < j < |r| ensures r[i] != r[j] {
          if i == 0 {
            assert r[j] == rest[j - 1];
            assert rest[j - 1] in rest;
          } else {
            assert r[i] == rest[i - 1] && r[j] == rest[j - 1];
          }
        }
      }
    }
  }

  /** The index that `findIndex` returns: the first position whose element satisfies `p`. */
  function FirstIndex<T>(s: seq<T>, p: T -> bool): (r: Option<nat>)
    ensures r.Some? ==> r.value < |s| && p(s[r.value]) && forall j :: 0 <= j < r.value ==> !p(s[j])
    ensures r.None? ==> forall j :: 0 <= j < |s| ==> !p(s[j])
  {
    if s == [] then None
    else if p(s[0]) then Some(0)
    else
      match FirstIndex(s[1..], p)
      case None =>
        assert forall j :: 1 <= j < |s| ==> s[j] == s[1..][j - 1];
        None
      case Some(k) =>
        assert forall j :: 1 <= j <= k ==> s[j] == s[1..][j - 1];
        Some(k + 1)
  }

  /** `s.find(p)`: the first element that satisfies `p`, or nothing. */
  function Find<T>(s: seq<T>, p: T -> bool): (r: Option<T>)
    ensures r.None? <==> forall j :: 0 <= j < |s| ==> !p(s[j])
    ensures r.Some? ==> exists i :: 0 <= i < |s| && s[i] == r.value && p(s[i]) && forall j :: 0 <= j < i ==> !p(s[j])
  {
    match FirstIndex(s, p)
    case None => None
    case Some(i) => Some(s[i])
  }

  /** Whatever `find` returns satisfies the predicate and is an element of the sequence. */
  lemma FindFound<T>(s: seq<T>, p: T -> bool)
    requires Find(s, p).Some?
    ensures Find(s, p).value in s && p(Find(s, p).value)
  {
    var i :| 0 <= i < |s| && s[i] == Find(s, p).value && p(s[i]) && forall j :: 0 <= j < i ==> !p(s[j]);
  }

  /** `find` returns the element at position `i` when no earlier element satisfies `p`. */
  lemma FindAt<T>(s: seq<T>, p: T -> bool, i: nat)
    requires i < |s| && p(s[i])
    requires forall j :: 0 <= j < i ==> !p(s[j])
    ensures Find(s, p) == Some(s[i])
  {
    var k := FirstIndex(s, p).value;
    assert !(k < i) && !(i < k);
  }

  /** `find` returns the first element of `filter` under the same predicate. */
  lemma {:induction false} FindIsFirstOfFilter<T(!new)>(s: seq<T>, p: T -> bool)
    ensures Find(s, p).None? <==> Filter(s, p) == []
    ensures Find(s, p).Some? ==> Find(s, p).value == Filter(s, p)[0]
  {
    if s != [] {
      FindIsFirstOfFilter(s[1..], p);
      if !p(s[0]) {
        match FirstIndex(s[1..], p)
        case None =>
        case Some(k) => assert s[k + 1] == s[1..][k];
      }
    }
  }
}
