/** Sequence vocabulary shared by the modules. */
module Seqs {

  datatype Option<+T> = None | Some(value: T)

  function Filter<T>(s: seq<T>, p: T -> bool): seq<T> {
    if s == [] then []
    else (if p(s[0]) then [s[0]] else []) + Filter(s[1..], p)
  }

  function Flatten<T>(s: seq<seq<T>>): seq<T> {
    if s == [] then [] else s[0] + Flatten(s[1..])
  }

  predicate Ascending(s: seq<int>) {
    forall i, j :: 0 <= i < j < |s| ==> s[i] < s[j]
  }

  lemma FilterHead<T>(s: seq<T>, p: T -> bool)
    requires s != []
    ensures p(s[0]) ==> Filter(s, p) != [] && Filter(s, p)[0] == s[0] && Filter(s, p)[1..] == Filter(s[1..], p)
    ensures !p(s[0]) ==> Filter(s, p) == Filter(s[1..], p)
  {
  }

  lemma {:induction false} FilterAppend<T>(a: seq<T>, b: seq<T>, p: T -> bool)
    ensures Filter(a + b, p) == Filter(a, p) + Filter(b, p)
  {
    if a == [] {
      assert a + b == b;
    } else {
      var t := a[1..];
      FilterAppend(t, b, p);
      assert (a + b)[1..] == t + b && (a + b)[0] == a[0];
      var h := if p(a[0]) then [a[0]] else [];
      assert h + (Filter(t, p) + Filter(b, p)) == (h + Filter(t, p)) + Filter(b, p);
    }
  }

  lemma {:induction false} FilterMembers<T>(s: seq<T>, p: T -> bool)
    ensures forall x :: x in Filter(s, p) <==> x in s && p(x)
    ensures |Filter(s, p)| <= |s|
  {
    if s != [] {
      FilterMembers(s[1..], p);
      assert s == [s[0]] + s[1..];
    }
  }

  lemma {:induction false} FilterAll<T>(s: seq<T>, p: T -> bool)
    requires forall x :: x in s ==> p(x)
    ensures Filter(s, p) == s
  {
    if s != [] {
      FilterAll(s[1..], p);
      assert s == [s[0]] + s[1..];
    }
  }

  lemma {:induction false} FilterNone<T>(s: seq<T>, p: T -> bool)
    requires forall x :: x in s ==> !p(x)
    ensures Filter(s, p) == []
  {
    if s != [] {
      FilterNone(s[1..], p);
    }
  }

  // ---- sorted key lists ----

  lemma SetHasMember(s: set<int>)
    ensures s == {} || exists x :: x in s
  {
    if forall x :: x !in s {
      assert s == {};
    }
  }

  lemma SeqHasMember(s: seq<int>)
    ensures s == [] || exists x :: x in s
  {
    if s != [] {
      var x := s[0];
      assert x in s;
    }
  }

  lemma {:induction false} LeastExists(s: set<int>)
    requires s != {}
    ensures exists m :: m in s && forall x :: x in s ==> m <= x
  {
    SetHasMember(s);
    var x: int :| x in s;
    var rest := s - {x};
    assert s == rest + {x};
    if rest == {} {
      assert forall y :: y in s ==> x <= y;
    } else {
      LeastExists(rest);
      var m :| m in rest && forall y :: y in rest ==> m <= y;
      var least := if m <= x then m else x;
      assert least in s;
      forall y | y in s ensures least <= y {
        assert y == x || y in rest;
      }
    }
  }

  /** The keys of a dictionary in ascending order: `sorted(d)`. */
  ghost function Sorted(s: set<int>): (r: seq<int>)
    ensures Ascending(r)
    ensures forall x :: x in r <==> x in s
  {
    if s == {} then []
    else
      LeastExists(s);
      var m :| m in s && forall x :: x in s ==> m <= x;
      [m] + Sorted(s - {m})
  }

  lemma TailMembers(a: seq<int>, x: int)
    requires a != [] && Ascending(a)
    ensures x in a[1..] <==> x in a && x != a[0]
  {
    assert a == [a[0]] + a[1..];
    if x in a[1..] {
      var i :| 0 <= i < |a[1..]| && a[1..][i] == x;
      assert a[0] < a[i + 1];
    }
  }

  /** An ascending list is determined by its elements. */
  lemma {:induction false} AscendingUnique(a: seq<int>, b: seq<int>)
    requires Ascending(a) && Ascending(b)
    requires forall x :: x in a <==> x in b
    ensures a == b
  {
    if a == [] {
      SeqHasMember(b);
    } else {
      assert a[0] in b && b != [];
      assert b[0] in a;
      assert a[0] == b[0];
      forall x ensures x in a[1..] <==> x in b[1..] {
        assert x in a[1..] <==> x in a && x != a[0] by { TailMembers(a, x); }
        assert x in b[1..] <==> x in b && x != b[0] by { TailMembers(b, x); }
      }
      AscendingUnique(a[1..], b[1..]);
    }
  }

  /** The keys that lie in `keep`, in order. */
  ghost function Restrict(keys: seq<int>, keep: set<int>): seq<int> {
    if keys == [] then []
    else (if keys[0] in keep then [keys[0]] else []) + Restrict(keys[1..], keep)
  }

  lemma {:induction false} RestrictAscending(keys: seq<int>, keep: set<int>)
    requires Ascending(keys)
    ensures Ascending(Restrict(keys, keep))
    ensures forall x :: x in Restrict(keys, keep) <==> x in keys && x in keep
  {
    if keys != [] {
      var t := Restrict(keys[1..], keep);
      RestrictAscending(keys[1..], keep);
      assert keys == [keys[0]] + keys[1..];
      forall j | 0 <= j < |t| ensures keys[0] < t[j] {
        assert t[j] in t;
        var k :| 0 <= k < |keys[1..]| && keys[1..][k] == t[j];
        assert keys[k + 1] == t[j];
      }
    }
  }

  /** The keys of a smaller dictionary are the larger one's, restricted. */
  lemma SortedSubset(small: set<int>, large: set<int>)
    requires small <= large
    ensures Sorted(small) == Restrict(Sorted(large), small)
  {
    RestrictAscending(Sorted(large), small);
    AscendingUnique(Sorted(small), Restrict(Sorted(large), small));
  }

  // ---- dictionaries filled in a loop ----

  function AtKey<V>(m: map<string, V>, k: string): Option<V> {
    if k in m then Some(m[k]) else None
  }

  function Put<V>(m: map<string, V>, k: string, v: Option<V>): map<string, V> {
    if v.Some? then m[k := v.value] else m
  }

  /** The dictionary after the first `n` rounds of a loop that may store a
      value in each. */
  function PutFirst<V>(ids: seq<string>, vs: seq<Option<V>>, n: nat): map<string, V>
    requires n <= |ids| == |vs|
  {
    if n == 0 then map[] else Put(PutFirst(ids, vs, n - 1), ids[n - 1], vs[n - 1])
  }

  lemma PutLookup<V>(m: map<string, V>, k: string, v: Option<V>, id: string)
    ensures AtKey(Put(m, k, v), id) == if id == k && v.Some? then v else AtKey(m, id)
  {
  }

  lemma {:induction false} PutFirstAbsent<V>(ids: seq<string>, vs: seq<Option<V>>, n: nat, id: string)
    requires n <= |ids| == |vs| && forall k :: 0 <= k < n ==> ids[k] != id
    ensures AtKey(PutFirst(ids, vs, n), id) == None
  {
    if n > 0 {
      PutFirstAbsent(ids, vs, n - 1, id);
      PutLookup(PutFirst(ids, vs, n - 1), ids[n - 1], vs[n - 1], id);
    }
  }

  /** With distinct keys each round's value is found again. */
  lemma {:induction false} PutFirstLookup<V>(ids: seq<string>, vs: seq<Option<V>>, n: nat, i: nat)
    requires i < n <= |ids| == |vs| && forall k :: 0 <= k < n && k != i ==> ids[k] != ids[i]
    ensures AtKey(PutFirst(ids, vs, n), ids[i]) == vs[i]
  {
    PutLookup(PutFirst(ids, vs, n - 1), ids[n - 1], vs[n - 1], ids[i]);
    if i == n - 1 {
      PutFirstAbsent(ids, vs, n - 1, ids[i]);
    } else {
      PutFirstLookup(ids, vs, n - 1, i);
    }
  }

  /** Only the first `n` rounds matter. */
  lemma {:induction false} PutFirstPrefix<V>(ids: seq<string>, vs: seq<Option<V>>, more: seq<string>, mores: seq<Option<V>>, n: nat)
    requires n <= |ids| == |vs| && n <= |more| == |mores|
    requires ids[..n] == more[..n] && vs[..n] == mores[..n]
    ensures PutFirst(ids, vs, n) == PutFirst(more, mores, n)
  {
    if n > 0 {
      assert ids[n - 1] == ids[..n][n - 1] && vs[n - 1] == vs[..n][n - 1];
      assert ids[..n][..n - 1] == ids[..n - 1] && more[..n][..n - 1] == more[..n - 1];
      assert vs[..n][..n - 1] == vs[..n - 1] && mores[..n][..n - 1] == mores[..n - 1];
      PutFirstPrefix(ids, vs, more, mores, n - 1);
    }
  }

  lemma PutFirstSnoc<V>(ids: seq<string>, vs: seq<Option<V>>, id: string, v: Option<V>)
    requires |ids| == |vs|
    ensures PutFirst(ids + [id], vs + [v], |ids| + 1) == Put(PutFirst(ids, vs, |ids|), id, v)
  {
    assert (ids + [id])[..|ids|] == ids == ids[..|ids|] && (vs + [v])[..|vs|] == vs == vs[..|vs|];
    PutFirstPrefix(ids, vs, ids + [id], vs + [v], |ids|);
  }

  lemma PutAbsent<V>(m: map<string, V>, k: string, v: Option<V>)
    requires k !in m
    ensures |Put(m, k, v)| == |m| + if v.Some? then 1 else 0
  {
  }

  // ---- counting ----

  function Elements<T>(s: seq<T>): set<T> { set x | x in s }

  /** A list has as many elements as positions exactly when it repeats none. */
  lemma {:induction false} CountDistinct<T>(s: seq<T>)
    ensures |Elements(s)| <= |s|
    ensures |Elements(s)| == |s| <==> forall i, j :: 0 <= i < j < |s| ==> s[i] != s[j]
    decreases |s|
  {
    if s != [] {
      var front, x := s[..|s| - 1], s[|s| - 1];
      CountDistinct(front);
      assert s == front + [x];
      assert Elements(s) == Elements(front) + {x};
      if x in front {
        assert Elements(s) == Elements(front);
        var i :| 0 <= i < |front| && front[i] == x;
        assert s[i] == s[|s| - 1];
      } else {
        assert forall i :: 0 <= i < |front| ==> front[i] in front;
      }
    }
  }

  /** How many of the flags are up. */
  function Count(flags: seq<bool>): nat { |set i | 0 <= i < |flags| && flags[i]| }

  lemma CountSnoc(flags: seq<bool>, n: nat)
    requires n < |flags|
    ensures Count(flags[..n + 1]) == Count(flags[..n]) + if flags[n] then 1 else 0
  {
    var before, after := flags[..n], flags[..n + 1];
    var a, b := (set i | 0 <= i < |before| && before[i]), (set i | 0 <= i < |after| && after[i]);
    assert b == a + if flags[n] then {n as int} else {};
  }

  /** A one-to-one correspondence between two sets. */
  lemma {:induction false} SameSize<A, B>(a: set<A>, b: set<B>, f: map<A, B>)
    requires f.Keys == a && f.Values == b
    requires forall x, y :: x in f && y in f && f[x] == f[y] ==> x == y
    ensures |a| == |b|
  {
    if a == {} {
      assert b == {};
    } else {
      var x :| x in a;
      var rest := f - {x};
      forall y ensures y in rest.Values <==> y in b - {f[x]} {
        if y in b - {f[x]} {
          var z :| z in f && f[z] == y;
          assert z in rest && rest[z] == y;
        }
      }
      assert rest.Values == b - {f[x]};
      SameSize(a - {x}, b - {f[x]}, rest);
    }
  }
}
