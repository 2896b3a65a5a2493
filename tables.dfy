/** Table operations the engine relies on, stated once for any row type:
    summing, de-duplication in first-appearance order, a group-by that sums one
    column, a row filter and a left merge. */
module Tables {
  import opened Wrappers

  ghost predicate Distinct<K>(s: seq<K>) {
    forall i, j :: 0 <= i < j < |s| ==> s[i] != s[j]
  }

  function Sum(xs: seq<real>): real {
    if xs == [] then 0.0 else Sum(xs[..|xs| - 1]) + xs[|xs| - 1]
  }

  lemma {:induction false} SumAppend(xs: seq<real>, ys: seq<real>)
    ensures Sum(xs + ys) == Sum(xs) + Sum(ys)
  {
    if ys != [] {
      var init := ys[..|ys| - 1];
      assert (xs + ys)[..|xs + ys| - 1] == xs + init;
      SumAppend(xs, init);
    } else {
      assert xs + ys == xs;
    }
  }

  /** The group sums listed one per group add up to `GroupTotal`. */
  lemma {:induction false} GroupTotalIsSum<K>(groups: seq<K>, keys: seq<K>, vals: seq<real>)
    requires |keys| == |vals|
    ensures GroupTotal(groups, keys, vals)
         == Sum(seq(|groups|, j requires 0 <= j < |groups| => SumWhere(keys, vals, groups[j])))
  {
    if groups != [] {
      var init := groups[..|groups| - 1];
      GroupTotalIsSum(init, keys, vals);
      var s := seq(|groups|, j requires 0 <= j < |groups| => SumWhere(keys, vals, groups[j]));
      assert s[..|s| - 1] == seq(|init|, j requires 0 <= j < |init| => SumWhere(keys, vals, init[j]));
    }
  }

  /** The sum of `vals` over the positions whose key is `k`. */
  function SumWhere<K(==)>(keys: seq<K>, vals: seq<real>, k: K): real
    requires |keys| == |vals|
  {
    if keys == [] then 0.0
    else
      SumWhere(keys[..|keys| - 1], vals[..|vals| - 1], k)
      + (if keys[|keys| - 1] == k then vals[|vals| - 1] else 0.0)
  }

  /** The distinct keys, in order of first appearance. */
  function Dedup<K(==)>(keys: seq<K>): (d: seq<K>)
    ensures Distinct(d)
    ensures forall i :: 0 <= i < |d| ==> d[i] in keys
    ensures forall i :: 0 <= i < |keys| ==> keys[i] in d
    ensures |d| <= |keys|
  {
    if keys == [] then []
    else
      var p := Dedup(keys[..|keys| - 1]);
      assert keys == keys[..|keys| - 1] + [keys[|keys| - 1]];
      if keys[|keys| - 1] in p then p else p + [keys[|keys| - 1]]
  }

  /** The sum, over the given groups, of each group's `SumWhere`. */
  function GroupTotal<K(==)>(groups: seq<K>, keys: seq<K>, vals: seq<real>): real
    requires |keys| == |vals|
  {
    if groups == [] then 0.0
    else GroupTotal(groups[..|groups| - 1], keys, vals) + SumWhere(keys, vals, groups[|groups| - 1])
  }

  lemma {:induction false} SumWhereAbsent<K>(keys: seq<K>, vals: seq<real>, k: K)
    requires |keys| == |vals| && k !in keys
    ensures SumWhere(keys, vals, k) == 0.0
  {
    if keys != [] {
      assert keys[..|keys| - 1] <= keys;
      SumWhereAbsent(keys[..|keys| - 1], vals[..|vals| - 1], k);
    }
  }

  lemma SumWhereSnoc<K>(keys: seq<K>, vals: seq<real>, k: K, v: real, g: K)
    requires |keys| == |vals|
    ensures SumWhere(keys + [k], vals + [v], g) == SumWhere(keys, vals, g) + (if k == g then v else 0.0)
  {
    assert (keys + [k])[..|keys|] == keys;
    assert (vals + [v])[..|vals|] == vals;
  }

  lemma {:induction false} GroupTotalSnoc<K>(groups: seq<K>, keys: seq<K>, vals: seq<real>, k: K, v: real)
    requires |keys| == |vals| && Distinct(groups)
    ensures GroupTotal(groups, keys + [k], vals + [v])
         == GroupTotal(groups, keys, vals) + (if k in groups then v else 0.0)
  {
    if groups != [] {
      var init, g := groups[..|groups| - 1], groups[|groups| - 1];
      assert groups == init + [g];
      GroupTotalSnoc(init, keys, vals, k, v);
      SumWhereSnoc(keys, vals, k, v, g);
    }
  }

  /** Grouping conserves the column total: the group sums add up to the sum of
      every row. */
  lemma {:induction false} GroupConservation<K>(keys: seq<K>, vals: seq<real>)
    requires |keys| == |vals|
    ensures GroupTotal(Dedup(keys), keys, vals) == Sum(vals)
  {
    if keys != [] {
      var kp, vp := keys[..|keys| - 1], vals[..|vals| - 1];
      var k, v := keys[|keys| - 1], vals[|vals| - 1];
      assert keys == kp + [k] && vals == vp + [v];
      var d := Dedup(kp);
      GroupConservation(kp, vp);
      assert Sum(vals) == Sum(vp) + v;
      GroupTotalSnoc(d, kp, vp, k, v);
      DedupSnoc(kp, k);
      if k !in d {
        GroupConservationNewKey(d, kp, vp, k, v);
      }
    }
  }

  /** The step of `GroupConservation` for a key not seen before. */
  lemma GroupConservationNewKey<K>(d: seq<K>, kp: seq<K>, vp: seq<real>, k: K, v: real)
    requires |kp| == |vp| && d == Dedup(kp) && k !in d
    ensures GroupTotal(d + [k], kp + [k], vp + [v]) == GroupTotal(d, kp + [k], vp + [v]) + v
  {
    assert k !in kp;
    SumWhereAbsent(kp, vp, k);
    SumWhereSnoc(kp, vp, k, v, k);
    assert (d + [k])[..|d|] == d;
  }

  lemma DedupSnoc<K>(keys: seq<K>, k: K)
    ensures Dedup(keys + [k]) == if k in Dedup(keys) then Dedup(keys) else Dedup(keys) + [k]
  {
    assert (keys + [k])[..|keys|] == keys;
  }

  /** What the group-by loop keeps: the groups of the rows seen so far, with
      their sums. */
  ghost predicate Grouped<K>(ks: seq<K>, vs: seq<real>, groups: seq<K>, sums: seq<real>)
    requires |ks| == |vs|
  {
    groups == Dedup(ks) && |sums| == |groups| &&
    forall m :: 0 <= m < |groups| ==> sums[m] == SumWhere(ks, vs, groups[m])
  }

  /** One row of the group-by loop, when its key already has a group: the
      row's value is added to that group. */
  lemma GroupSumStepOld<K>(ks: seq<K>, vs: seq<real>, groups: seq<K>, sums: seq<real>, k: K, v: real, j: int)
    requires |ks| == |vs| && Grouped(ks, vs, groups, sums)
    requires 0 <= j < |groups| && groups[j] == k
    ensures Grouped(ks + [k], vs + [v], groups, sums[j := sums[j] + v])
  {
    assert Dedup(ks + [k]) == groups by {
      DedupSnoc(ks, k);
      assert groups[j] == k;
    }
    var s2 := sums[j := sums[j] + v];
    forall m | 0 <= m < |groups|
      ensures s2[m] == SumWhere(ks + [k], vs + [v], groups[m])
    {
      GroupSumStepOldAt(ks, vs, groups, sums, k, v, j, m);
    }
  }

  lemma GroupSumStepOldAt<K>(ks: seq<K>, vs: seq<real>, groups: seq<K>, sums: seq<real>, k: K, v: real, j: int, m: int)
    requires |ks| == |vs| && |sums| == |groups| && Distinct(groups)
    requires 0 <= j < |groups| && groups[j] == k && 0 <= m < |groups|
    requires sums[m] == SumWhere(ks, vs, groups[m])
    ensures sums[j := sums[j] + v][m] == SumWhere(ks + [k], vs + [v], groups[m])
  {
    SumWhereSnoc(ks, vs, k, v, groups[m]);
    if m < j {
      assert groups[m] != k;
    } else if m > j {
      assert groups[j] != groups[m];
    }
  }

  /** One row of the group-by loop, when its key is new: a group is appended
      holding the row's value. */
  lemma GroupSumStepNew<K>(ks: seq<K>, vs: seq<real>, groups: seq<K>, sums: seq<real>, k: K, v: real)
    requires |ks| == |vs| && Grouped(ks, vs, groups, sums)
    requires forall m :: 0 <= m < |groups| ==> groups[m] != k
    ensures Grouped(ks + [k], vs + [v], groups + [k], sums + [v])
  {
    DedupSnoc(ks, k);
    assert k !in ks;
    SumWhereAbsent(ks, vs, k);
    forall m | 0 <= m < |groups| + 1
      ensures (sums + [v])[m] == SumWhere(ks + [k], vs + [v], (groups + [k])[m])
    {
      SumWhereSnoc(ks, vs, k, v, (groups + [k])[m]);
    }
  }

  /** Row `i` of the group-by loop on a key that has a group. */
  lemma GroupSumRowOld<K>(keys: seq<K>, vals: seq<real>, i: int, groups: seq<K>, sums: seq<real>, j: int)
    requires |keys| == |vals| && 0 <= i < |keys| && Grouped(keys[..i], vals[..i], groups, sums)
    requires 0 <= j < |groups| && groups[j] == keys[i]
    ensures Grouped(keys[..i + 1], vals[..i + 1], groups, sums[j := sums[j] + vals[i]])
  {
    assert keys[..i + 1] == keys[..i] + [keys[i]] && vals[..i + 1] == vals[..i] + [vals[i]];
    GroupSumStepOld(keys[..i], vals[..i], groups, sums, keys[i], vals[i], j);
  }

  /** Row `i` of the group-by loop on a key that has no group yet. */
  lemma GroupSumRowNew<K>(keys: seq<K>, vals: seq<real>, i: int, groups: seq<K>, sums: seq<real>)
    requires |keys| == |vals| && 0 <= i < |keys| && Grouped(keys[..i], vals[..i], groups, sums)
    requires forall m :: 0 <= m < |groups| ==> groups[m] != keys[i]
    ensures Grouped(keys[..i + 1], vals[..i + 1], groups + [keys[i]], sums + [vals[i]])
  {
    assert keys[..i + 1] == keys[..i] + [keys[i]] && vals[..i + 1] == vals[..i] + [vals[i]];
    GroupSumStepNew(keys[..i], vals[..i], groups, sums, keys[i], vals[i]);
  }

  /** The position of `k` in `s`, or `|s|` when it is absent. */
  method IndexOf<K(==)>(s: seq<K>, k: K) returns (j: nat)
    ensures j <= |s|
    ensures j < |s| ==> s[j] == k
    ensures forall m :: 0 <= m < j ==> s[m] != k
  {
    j := 0;
    while j < |s| && s[j] != k
      invariant j <= |s|
      invariant forall m :: 0 <= m < j ==> s[m] != k
    {
      j := j + 1;
    }
  }

  /** Group-by with a summed column: one entry per distinct key, in order of
      first appearance, holding the sum of that key's values. */
  method GroupSum<K(==)>(keys: seq<K>, vals: seq<real>) returns (groups: seq<K>, sums: seq<real>)
    requires |keys| == |vals|
    ensures groups == Dedup(keys)
    ensures |sums| == |groups|
    ensures forall j :: 0 <= j < |groups| ==> sums[j] == SumWhere(keys, vals, groups[j])
  {
    groups, sums := [], [];
    var i := 0;
    while i < |keys|
      invariant 0 <= i <= |keys|
      invariant Grouped(keys[..i], vals[..i], groups, sums)
    {
      groups, sums := AddRow(keys, vals, i, groups, sums);
      i := i + 1;
    }
    GroupedAll(keys, vals, groups, sums);
  }

  /** One pass of the group-by loop: row `i` is added to its key's group,
      or opens a new group at the end. */
  method AddRow<K(==)>(keys: seq<K>, vals: seq<real>, i: int, groups: seq<K>, sums: seq<real>)
    returns (groups': seq<K>, sums': seq<real>)
    requires |keys| == |vals| && 0 <= i < |keys| && Grouped(keys[..i], vals[..i], groups, sums)
    ensures Grouped(keys[..i + 1], vals[..i + 1], groups', sums')
  {
    var k := keys[i];
    var j := IndexOf(groups, k);
    if j < |groups| {
      GroupSumRowOld(keys, vals, i, groups, sums, j);
      groups', sums' := groups, sums[j := sums[j] + vals[i]];
    } else {
      GroupSumRowNew(keys, vals, i, groups, sums);
      groups', sums' := groups + [k], sums + [vals[i]];
    }
  }

  lemma GroupedAll<K>(keys: seq<K>, vals: seq<real>, groups: seq<K>, sums: seq<real>)
    requires |keys| == |vals| && Grouped(keys[..|keys|], vals[..|vals|], groups, sums)
    ensures groups == Dedup(keys) && |sums| == |groups|
    ensures forall j :: 0 <= j < |groups| ==> sums[j] == SumWhere(keys, vals, groups[j])
  {
    assert keys[..|keys|] == keys && vals[..|vals|] == vals;
  }

  /** The rows that satisfy `p`, in their order. */
  function Filter<T>(s: seq<T>, p: T -> bool): (r: seq<T>)
    ensures forall i :: 0 <= i < |r| ==> r[i] in s && p(r[i])
    ensures forall i :: 0 <= i < |s| && p(s[i]) ==> s[i] in r
    ensures |r| <= |s|
  {
    if s == [] then []
    else (if p(s[0]) then [s[0]] else []) + Filter(s[1..], p)
  }

  /** A filter every element passes keeps the whole sequence. */
  lemma {:induction false} FilterAll<T>(s: seq<T>, p: T -> bool)
    requires forall i :: 0 <= i < |s| ==> p(s[i])
    ensures Filter(s, p) == s
  {
    if s != [] {
      FilterAll(s[1..], p);
      assert s == [s[0]] + s[1..];
    }
  }

  /** Filtering keeps distinct rows distinct. */
  lemma {:induction false} FilterDistinct<T>(s: seq<T>, p: T -> bool)
    requires Distinct(s)
    ensures Distinct(Filter(s, p))
  {
    if s != [] {
      var rest := s[1..];
      assert Distinct(rest) by {
        forall i, j | 0 <= i < j < |rest| ensures rest[i] != rest[j] {
          assert rest[i] == s[i + 1] && rest[j] == s[j + 1];
        }
      }
      FilterDistinct(rest, p);
      var fr := Filter(rest, p);
      assert s[0] !in rest by {
        forall i | 0 <= i < |rest| ensures rest[i] != s[0] {
          assert rest[i] == s[i + 1];
        }
      }
      assert s[0] !in fr;
    }
  }

  /** The right-hand rows whose key is `k`, in their order. */
  function Matches<R, K(==)>(right: seq<R>, rk: R -> K, k: K): (m: seq<R>)
    ensures forall i :: 0 <= i < |m| ==> m[i] in right && rk(m[i]) == k
    ensures forall i :: 0 <= i < |right| && rk(right[i]) == k ==> right[i] in m
  {
    Filter(right, (x: R) => rk(x) == k)
  }

  /** No two rows of `right` share a key. */
  ghost predicate KeysDistinct<R, K>(right: seq<R>, rk: R -> K) {
    forall x, y :: 0 <= x < y < |right| ==> rk(right[x]) != rk(right[y])
  }

  /** A key no row carries has no match. */
  lemma {:induction false} NoMatches<R, K>(right: seq<R>, rk: R -> K, k: K)
    requires forall x :: 0 <= x < |right| ==> rk(right[x]) != k
    ensures Matches(right, rk, k) == []
  {
    if right != [] {
      NoMatches(right[1..], rk, k);
    }
  }

  /** Under distinct keys a key has at most one match. */
  lemma {:induction false} MatchesAtMostOne<R, K>(right: seq<R>, rk: R -> K, k: K)
    requires KeysDistinct(right, rk)
    ensures |Matches(right, rk, k)| <= 1
  {
    if right != [] {
      var rest := right[1..];
      assert KeysDistinct(rest, rk) by {
        forall x, y | 0 <= x < y < |rest| ensures rk(rest[x]) != rk(rest[y]) {
          assert rest[x] == right[x + 1] && rest[y] == right[y + 1];
        }
      }
      MatchesAtMostOne(rest, rk, k);
      if rk(right[0]) == k {
        assert forall x :: 0 <= x < |rest| ==> rk(rest[x]) != k by {
          forall x | 0 <= x < |rest| ensures rk(rest[x]) != k {
            assert rest[x] == right[x + 1];
          }
        }
        NoMatches(rest, rk, k);
      }
    }
  }

  /** The rows a left merge makes of one left row: one per match, or the row
      alone with an empty right side. */
  function Expand<L, R, K(==)>(l: L, right: seq<R>, lk: L -> K, rk: R -> K): seq<(L, Option<R>)> {
    var m := Matches(right, rk, lk(l));
    if m == [] then [(l, None)]
    else seq(|m|, i requires 0 <= i < |m| => (l, Some(m[i])))
  }

  /** `pd.merge(left, right, on=key, how='left')`: the left rows in order, each
      repeated once per matching right row (in the right table's order). */
  function LeftJoin<L, R, K(==)>(left: seq<L>, right: seq<R>, lk: L -> K, rk: R -> K): seq<(L, Option<R>)> {
    if left == [] then []
    else Expand(left[0], right, lk, rk) + LeftJoin(left[1..], right, lk, rk)
  }

  lemma {:induction false} LeftJoinAppend<L, R, K>(a: seq<L>, b: seq<L>, right: seq<R>, lk: L -> K, rk: R -> K)
    ensures LeftJoin(a + b, right, lk, rk) == LeftJoin(a, right, lk, rk) + LeftJoin(b, right, lk, rk)
  {
    if a != [] {
      assert (a + b)[0] == a[0] && (a + b)[1..] == a[1..] + b;
      LeftJoinAppend(a[1..], b, right, lk, rk);
      var e := Expand(a[0], right, lk, rk);
      var x, y := LeftJoin(a[1..], right, lk, rk), LeftJoin(b, right, lk, rk);
      assert LeftJoin(a + b, right, lk, rk) == e + LeftJoin(a[1..] + b, right, lk, rk);
      assert LeftJoin(a, right, lk, rk) == e + x;
      ConcatAssoc(e, x, y);
    } else {
      assert a + b == b;
    }
  }

  lemma ConcatAssoc<T>(e: seq<T>, x: seq<T>, y: seq<T>)
    ensures e + (x + y) == (e + x) + y
  {
  }

  /** A left merge never drops a left row, and every output row comes from a
      left row; a left row with no match comes out once with an empty right
      side, and a matched one carries a matching right row. */
  lemma {:induction false} LeftJoinKeepsLeft<L, R, K>(left: seq<L>, right: seq<R>, lk: L -> K, rk: R -> K)
    ensures |LeftJoin(left, right, lk, rk)| >= |left|
    ensures forall l :: l in left ==> exists o :: o in LeftJoin(left, right, lk, rk) && o.0 == l
    ensures forall o :: o in LeftJoin(left, right, lk, rk) ==>
              o.0 in left &&
              (o.1.None? <==> Matches(right, rk, lk(o.0)) == []) &&
              (o.1.Some? ==> o.1.value in right && rk(o.1.value) == lk(o.0))
  {
    if left != [] {
      LeftJoinKeepsLeft(left[1..], right, lk, rk);
      var e := Expand(left[0], right, lk, rk);
      var out := LeftJoin(left, right, lk, rk);
      assert out == e + LeftJoin(left[1..], right, lk, rk);
      assert e[0] in out;
      forall l | l in left ensures exists o :: o in out && o.0 == l {
        if l == left[0] { assert e[0].0 == l; } else { assert l in left[1..]; }
      }
      forall o | o in e
        ensures o.0 in left &&
                (o.1.None? <==> Matches(right, rk, lk(o.0)) == []) &&
                (o.1.Some? ==> o.1.value in right && rk(o.1.value) == lk(o.0))
      {
        var m := Matches(right, rk, lk(left[0]));
        if m != [] {
          var i :| 0 <= i < |m| && e[i] == o;
          assert m[i] in m;
        }
      }
    }
  }

  /** Index form of the above: left row `i` appears at some output position. */
  lemma LeftJoinKeepsRow<L, R, K>(left: seq<L>, right: seq<R>, lk: L -> K, rk: R -> K, i: int)
    requires 0 <= i < |left|
    ensures exists k :: 0 <= k < |LeftJoin(left, right, lk, rk)| && LeftJoin(left, right, lk, rk)[k].0 == left[i]
  {
    LeftJoinKeepsLeft(left, right, lk, rk);
    assert left[i] in left;
  }

  /** The single match of key `k`, if there is one. */
  function FirstMatch<R, K(==)>(right: seq<R>, rk: R -> K, k: K): Option<R> {
    var m := Matches(right, rk, k);
    if m == [] then None else Some(m[0])
  }

  /** When no left row has more than one match, the left merge keeps the left
      table's shape: row i of the output is row i of the left table with its
      match (or nothing). */
  lemma {:induction false} LeftJoinAtMostOne<L, R, K>(left: seq<L>, right: seq<R>, lk: L -> K, rk: R -> K)
    requires forall i :: 0 <= i < |left| ==> |Matches(right, rk, lk(left[i]))| <= 1
    ensures |LeftJoin(left, right, lk, rk)| == |left|
    ensures forall i :: 0 <= i < |left| ==>
              LeftJoin(left, right, lk, rk)[i] == (left[i], FirstMatch(right, rk, lk(left[i])))
  {
    if left != [] {
      var rest := left[1..];
      assert forall i :: 0 <= i < |rest| ==> rest[i] == left[i + 1];
      LeftJoinAtMostOne(rest, right, lk, rk);
      var e := Expand(left[0], right, lk, rk);
      assert |e| == 1 && e[0] == (left[0], FirstMatch(right, rk, lk(left[0])));
      var out := LeftJoin(left, right, lk, rk);
      assert out == e + LeftJoin(rest, right, lk, rk);
    }
  }

  /** How many rows a left merge makes: each left row once per match, and
      once when it has none. */
  function Copies<L, R, K(==)>(left: seq<L>, right: seq<R>, lk: L -> K, rk: R -> K): nat {
    if left == [] then 0
    else
      var n := |Matches(right, rk, lk(left[0]))|;
      (if n == 0 then 1 else n) + Copies(left[1..], right, lk, rk)
  }

  /** The left merge has exactly `Copies` rows. */
  lemma {:induction false} LeftJoinSize<L, R, K>(left: seq<L>, right: seq<R>, lk: L -> K, rk: R -> K)
    ensures |LeftJoin(left, right, lk, rk)| == Copies(left, right, lk, rk)
  {
    if left != [] {
      LeftJoinSize(left[1..], right, lk, rk);
    }
  }

  /** Output row `k` of a left merge: the left row it comes from, and its right
      side, which is a matching right row or empty when no right row
      matches. */
  lemma LeftJoinRow<L, R, K>(left: seq<L>, right: seq<R>, lk: L -> K, rk: R -> K, k: int) returns (i: int)
    requires 0 <= k < |LeftJoin(left, right, lk, rk)|
    ensures 0 <= i < |left| && LeftJoin(left, right, lk, rk)[k].0 == left[i]
    ensures LeftJoin(left, right, lk, rk)[k].1.None? ==> forall x :: 0 <= x < |right| ==> rk(right[x]) != lk(left[i])
    ensures LeftJoin(left, right, lk, rk)[k].1.Some? ==>
              LeftJoin(left, right, lk, rk)[k].1.value in right &&
              rk(LeftJoin(left, right, lk, rk)[k].1.value) == lk(left[i])
  {
    var j := LeftJoin(left, right, lk, rk);
    LeftJoinKeepsLeft(left, right, lk, rk);
    assert j[k] in j;
    i :| 0 <= i < |left| && left[i] == j[k].0;
  }

  /** The number of positions whose key is `k`. */
  function Count<K(==)>(keys: seq<K>, k: K): nat {
    if keys == [] then 0
    else Count(keys[..|keys| - 1], k) + (if keys[|keys| - 1] == k then 1 else 0)
  }

  /** A key that occurs is counted at least once. */
  lemma {:induction false} CountPositive<K>(keys: seq<K>, k: K)
    requires k in keys
    ensures Count(keys, k) >= 1
  {
    var init := keys[..|keys| - 1];
    if keys[|keys| - 1] != k {
      assert keys == init + [keys[|keys| - 1]];
      CountPositive(init, k);
    }
  }

  /** When every value of key `k` is `c`, their sum is `c` times their count. */
  lemma {:induction false} SumWhereConst<K>(keys: seq<K>, vals: seq<real>, k: K, c: real)
    requires |keys| == |vals|
    requires forall i :: 0 <= i < |keys| && keys[i] == k ==> vals[i] == c
    ensures SumWhere(keys, vals, k) == c * Count(keys, k) as real
  {
    if keys != [] {
      var n := |keys| - 1;
      assert forall i :: 0 <= i < n ==> keys[..n][i] == keys[i] && vals[..n][i] == vals[i];
      SumWhereConst(keys[..n], vals[..n], k, c);
    }
  }

  /** When only position `i` has key `k`, the sum of `k` is the value at `i`
      and its count is one. */
  lemma {:induction false} SumWhereSingle<K>(keys: seq<K>, vals: seq<real>, k: K, i: int)
    requires |keys| == |vals| && 0 <= i < |keys| && keys[i] == k
    requires forall x :: 0 <= x < |keys| && x != i ==> keys[x] != k
    ensures SumWhere(keys, vals, k) == vals[i]
    ensures Count(keys, k) == 1
  {
    var n := |keys| - 1;
    var init, vinit := keys[..n], vals[..n];
    if i == n {
      assert k !in init by {
        forall x | 0 <= x < n ensures init[x] != k {
          assert init[x] == keys[x];
        }
      }
      SumWhereAbsent(init, vinit, k);
      CountAbsent(init, k);
    } else {
      assert forall x :: 0 <= x < n ==> init[x] == keys[x] && vinit[x] == vals[x];
      SumWhereSingle(init, vinit, k, i);
    }
  }

  lemma {:induction false} CountAbsent<K>(keys: seq<K>, k: K)
    requires k !in keys
    ensures Count(keys, k) == 0
  {
    if keys != [] {
      assert keys[..|keys| - 1] <= keys;
      CountAbsent(keys[..|keys| - 1], k);
    }
  }
}
