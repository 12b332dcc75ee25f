/** Row order as the services see it: the rows of a table in insertion (id)
    order, a stable sort by a timestamp key, newest first (`ORDER BY ... DESC`
    and JavaScript's `Array.prototype.sort` with `(a, b) => b - a`), and the
    `LIMIT`/`OFFSET`/`slice` window applied afterwards. */
module Ordering {
  import opened Wrappers
  import opened Models

  predicate StrictlyAscending(s: seq<Id>) {
    forall i, j :: 0 <= i < j < |s| ==> s[i] < s[j]
  }

  /** The least element of a non-empty set of ids. */
  function Least(s: set<Id>): (m: Id)
    requires s != {}
    ensures m in s && forall x :: x in s ==> m <= x
  {
    LeastExists(s);
    var m :| m in s && forall x :: x in s ==> m <= x;
    m
  }

  lemma LeastExists(s: set<Id>)
    requires s != {}
    ensures exists m :: m in s && forall x :: x in s ==> m <= x
  {
    var m := LeastWitness(s);
  }

  lemma {:induction false} LeastWitness(s: set<Id>) returns (m: Id)
    requires s != {}
    ensures m in s && forall x :: x in s ==> m <= x
    decreases |s|
  {
    var y :| y in s;
    var rest := s - {y};
    if rest == {} {
      m := y;
    } else {
      var k := LeastWitness(rest);
      m := if y < k then y else k;
    }
    forall x | x in s ensures m <= x {
      assert x == y || x in rest;
    }
  }

  /** The ids of a set in ascending order (the insertion order of SERIAL keys). */
  function AscendingIds(s: set<Id>): (r: seq<Id>)
    ensures StrictlyAscending(r)
    ensures forall x :: x in r <==> x in s
    ensures |r| == |s|
    decreases |s|
  {
    if s == {} then []
    else
      var m := Least(s);
      var rest := AscendingIds(s - {m});
      ConsAscending(m, rest);
      [m] + rest
  }

  lemma ConsAscending(m: Id, rest: seq<Id>)
    requires StrictlyAscending(rest)
    requires forall x :: x in rest ==> m < x
    ensures StrictlyAscending([m] + rest)
  {
    var r := [m] + rest;
    forall i, j | 0 <= i < j < |r| ensures r[i] < r[j] {
      if i == 0 {
        assert r[j] == rest[j - 1];
        assert r[j] in rest;
      } else {
        assert r[i] == rest[i - 1] && r[j] == rest[j - 1];
      }
    }
  }

  /** The first id, in ascending order, whose row satisfies `p`: what
      `rows[0]` of a lookup by a non-key column reads. */
  function FirstWhere<T>(m: map<Id, T>, p: T -> bool): (r: Option<Id>)
    ensures r.Some? ==> r.value in m && p(m[r.value])
    ensures r.Some? ==> forall k :: k in m && p(m[k]) ==> r.value <= k
    ensures r.None? <==> forall k :: k in m ==> !p(m[k])
  {
    var ks := set k | k in m && p(m[k]);
    if ks == {} then
      assert forall k :: k in m && p(m[k]) ==> k in ks;
      None
    else
      var k := Least(ks);
      assert forall j :: j in m && p(m[j]) ==> k <= j by {
        forall j | j in m && p(m[j]) ensures k <= j {
          assert j in ks;
        }
      }
      Some(k)
  }

  predicate SortedDesc<T>(s: seq<T>, key: T -> int) {
    forall i, j :: 0 <= i < j < |s| ==> key(s[i]) >= key(s[j])
  }

  /** Places `x` before the first element whose key is not larger, so that
      `x` precedes the elements whose keys equal its own. */
  function InsertDesc<T>(x: T, s: seq<T>, key: T -> int): (r: seq<T>)
    requires SortedDesc(s, key)
    ensures SortedDesc(r, key)
    ensures multiset(r) == multiset(s) + multiset{x}
    ensures |r| == |s| + 1
    ensures forall y :: y in r ==> y == x || y in s
  {
    if s == [] then [x]
    else if key(s[0]) <= key(x) then
      HeadBound(s, key);
      [x] + s
    else
      var t := InsertDesc(x, s[1..], key);
      HeadBound(s, key);
      assert s == [s[0]] + s[1..];
      ConsSorted(s[0], t, key);
      [s[0]] + t
  }

  lemma HeadBound<T>(s: seq<T>, key: T -> int)
    requires SortedDesc(s, key) && s != []
    ensures forall y :: y in s ==> key(y) <= key(s[0])
  {
    forall y | y in s ensures key(y) <= key(s[0]) {
      var i :| 0 <= i < |s| && s[i] == y;
    }
  }

  lemma ConsSorted<T>(h: T, t: seq<T>, key: T -> int)
    requires SortedDesc(t, key)
    requires forall y :: y in t ==> key(y) <= key(h)
    ensures SortedDesc([h] + t, key)
  {
    var r := [h] + t;
    forall i, j | 0 <= i < j < |r| ensures key(r[i]) >= key(r[j]) {
      assert r[j] == t[j - 1];
      assert r[j] in t;
      if i > 0 {
        assert r[i] == t[i - 1];
      }
    }
  }

  /** Insertion sort, largest key first. Each element is inserted ahead of
      the later elements with the same key, so equal keys keep their order
      (`Array.prototype.sort` is stable). */
  function SortDesc<T>(s: seq<T>, key: T -> int): (r: seq<T>)
    ensures SortedDesc(r, key)
    ensures multiset(r) == multiset(s)
    ensures |r| == |s|
  {
    if s == [] then []
    else
      assert s == [s[0]] + s[1..];
      InsertDesc(s[0], SortDesc(s[1..], key), key)
  }

  function Take<T>(s: seq<T>, n: nat): (r: seq<T>)
    ensures |r| == if |s| < n then |s| else n
    ensures forall i :: 0 <= i < |r| ==> r[i] == s[i]
  {
    if |s| <= n then s else s[..n]
  }

  function Drop<T>(s: seq<T>, n: nat): (r: seq<T>)
    ensures |r| == if |s| < n then 0 else |s| - n
    ensures forall i :: 0 <= i < |r| ==> r[i] == s[i + n]
  {
    if |s| <= n then [] else s[n..]
  }

  /** The number of rows `OFFSET offset LIMIT limit` keeps of `n`. */
  function WindowLength(n: nat, offset: nat, limit: nat): (k: nat)
    ensures k <= limit && (k == 0 || k + offset <= n)
  {
    if n <= offset then 0 else if n - offset < limit then n - offset else limit
  }

  /** `OFFSET offset LIMIT limit` (no `LIMIT` when `limit` is None). */
  function Window<T>(s: seq<T>, offset: nat, limit: Option<nat>): (r: seq<T>)
    ensures limit.Some? ==> |r| == WindowLength(|s|, offset, limit.value) && |r| <= limit.value
    ensures forall i :: 0 <= i < |r| ==> i + offset < |s| && r[i] == s[i + offset]
    ensures limit.None? ==> |r| == if |s| < offset then 0 else |s| - offset
  {
    var d := Drop(s, offset);
    if limit.Some? then Take(d, limit.value) else d
  }

  lemma {:induction false} SortedTakeSorted<T>(s: seq<T>, n: nat, key: T -> int)
    requires SortedDesc(s, key)
    ensures SortedDesc(Take(s, n), key)
  {
  }

  /** Cutting a sorted sequence after `n` elements splits it into the
      kept part and the rest, and nothing in the rest outranks what is kept. */
  lemma TakeOutranksDrop<T>(s: seq<T>, n: nat, key: T -> int)
    requires SortedDesc(s, key)
    ensures s == Take(s, n) + Drop(s, n)
    ensures forall x, y :: x in multiset(Drop(s, n)) && y in Take(s, n) ==> key(x) <= key(y)
  {
    var t, d := Take(s, n), Drop(s, n);
    assert s == t + d;
    forall x, y | x in multiset(d) && y in t ensures key(x) <= key(y) {
      assert x in d;
      var i :| 0 <= i < |t| && t[i] == y;
      var j :| 0 <= j < |d| && d[j] == x;
      assert s[i] == y && s[j + n] == x;
    }
  }

  lemma WindowKeepsOrder<T>(s: seq<T>, offset: nat, limit: Option<nat>, key: T -> int)
    requires SortedDesc(s, key)
    ensures SortedDesc(Window(s, offset, limit), key)
  {
    var r := Window(s, offset, limit);
    forall i, j | 0 <= i < j < |r| ensures key(r[i]) >= key(r[j]) {
      assert r[i] == s[i + offset] && r[j] == s[j + offset];
    }
  }

  /** The ids of a map's rows, newest first by `ts` (ties in id order). */
  function NewestFirst<T>(m: map<Id, T>, ts: T -> int): (r: seq<Id>)
    ensures |r| == |m|
    ensures forall k :: k in r <==> k in m
    ensures forall i, j :: 0 <= i < j < |r| ==> r[i] in m && r[j] in m && ts(m[r[i]]) >= ts(m[r[j]])
  {
    var key := (k: Id) => if k in m then ts(m[k]) else 0;
    var ids := AscendingIds(m.Keys);
    var r := SortDesc(ids, key);
    assert forall k :: k in r <==> k in multiset(ids);
    assert forall i :: 0 <= i < |r| ==> r[i] in m by {
      forall i | 0 <= i < |r| ensures r[i] in m {
        assert r[i] in multiset(r);
      }
    }
    r
  }

  /** NewestFirst lists each row once. */
  lemma NewestFirstDistinct<T>(m: map<Id, T>, ts: T -> int)
    ensures var r := NewestFirst(m, ts);
      forall i, j :: 0 <= i < j < |r| ==> r[i] != r[j]
  {
    DistinctWhenCovering(NewestFirst(m, ts), m.Keys);
  }

  function Elements(s: seq<Id>): set<Id> {
    set x | x in s
  }

  /** A sequence has no more distinct elements than it has positions. */
  lemma {:induction false} CardOfElements(s: seq<Id>)
    ensures |Elements(s)| <= |s|
  {
    if s != [] {
      CardOfElements(s[1..]);
      var rest := Elements(s[1..]);
      assert Elements(s) == {s[0]} + rest;
      if s[0] in rest {
        assert Elements(s) == rest;
      } else {
        assert |Elements(s)| == |rest| + 1;
      }
    }
  }

  /** A sequence as long as the set of ids it lists lists each id once. */
  lemma {:induction false} DistinctWhenCovering(s: seq<Id>, keys: set<Id>)
    requires |s| == |keys|
    requires forall x :: x in s <==> x in keys
    ensures forall i, j :: 0 <= i < j < |s| ==> s[i] != s[j]
  {
    if s != [] {
      var t := s[1..];
      if s[0] in t {
        assert Elements(t) == keys;
        CardOfElements(t);
        assert false;
      }
      assert forall x :: x in t <==> x in keys - {s[0]};
      DistinctWhenCovering(t, keys - {s[0]});
      forall i, j | 0 <= i < j < |s| ensures s[i] != s[j] {
        assert s[j] == t[j - 1];
        if i > 0 {
          assert s[i] == t[i - 1];
        }
      }
    }
  }

  /** `r` is the run of `order` that starts at `offset`: its i-th id is the
      (i + offset)-th id of `order`. */
  predicate RunOf(r: seq<Id>, order: seq<Id>, offset: nat) {
    forall i :: 0 <= i < |r| ==> i + offset < |order| && r[i] == order[i + offset]
  }

  /** The ids in `s` are rows of `m`, ordered by `ts` from largest to smallest. */
  predicate NewestOrder<T>(s: seq<Id>, m: map<Id, T>, ts: T -> int) {
    && (forall i :: 0 <= i < |s| ==> s[i] in m)
    && (forall i, j :: 0 <= i < j < |s| ==> ts(m[s[i]]) >= ts(m[s[j]]))
  }

  lemma WindowKeepsNewestOrder<T>(s: seq<Id>, m: map<Id, T>, ts: T -> int, offset: nat, limit: Option<nat>)
    requires NewestOrder(s, m, ts)
    requires forall i :: 0 <= i < |s| ==> s[i] in m
    ensures NewestOrder(Window(s, offset, limit), m, ts)
    ensures forall i :: 0 <= i < |Window(s, offset, limit)| ==> Window(s, offset, limit)[i] in m
  {
    var r := Window(s, offset, limit);
    forall i | 0 <= i < |r| ensures r[i] in m {
      assert r[i] == s[i + offset];
    }
    forall i, j | 0 <= i < j < |r| ensures ts(m[r[i]]) >= ts(m[r[j]]) {
      assert r[i] == s[i + offset] && r[j] == s[j + offset];
    }
  }

  /** The order carries over to a map that agrees on the listed rows. */
  lemma NewestOrderWider<T>(s: seq<Id>, sub: map<Id, T>, m: map<Id, T>, ts: T -> int)
    requires NewestOrder(s, sub, ts)
    requires forall k :: k in sub ==> k in m && m[k] == sub[k]
    ensures NewestOrder(s, m, ts)
  {
    forall i, j | 0 <= i < j < |s| ensures ts(m[s[i]]) >= ts(m[s[j]]) {
      assert ts(sub[s[i]]) >= ts(sub[s[j]]);
      assert m[s[i]] == sub[s[i]] && m[s[j]] == sub[s[j]];
    }
  }

  /** Row `k` of `m` is no newer than any row of `r`. */
  predicate NoNewerThan<T>(k: Id, r: seq<Id>, m: map<Id, T>, ts: T -> int) {
    k in m && forall i :: 0 <= i < |r| && r[i] in m ==> ts(m[k]) <= ts(m[r[i]])
  }

  /** Row `k` of `m` is no older than any row of `r`. */
  predicate NoOlderThan<T>(k: Id, r: seq<Id>, m: map<Id, T>, ts: T -> int) {
    k in m && forall i :: 0 <= i < |r| && r[i] in m ==> ts(m[k]) >= ts(m[r[i]])
  }

  /** A page of a map's rows, newest first: `ORDER BY ... DESC OFFSET offset
      LIMIT limit`. It holds as many rows as the window admits, and a row it
      leaves out was skipped by the offset (so is no older than the page) or
      comes after it (so is no newer); with no offset, every row left out is
      no newer than the page. */
  function NewestPage<T>(m: map<Id, T>, ts: T -> int, offset: nat, limit: Option<nat>): (r: seq<Id>)
    ensures forall i :: 0 <= i < |r| ==> r[i] in m
    ensures NewestOrder(r, m, ts)
    ensures limit.Some? ==> |r| == WindowLength(|m|, offset, limit.value) && |r| <= limit.value
    ensures limit.None? ==> |r| == if |m| < offset then 0 else |m| - offset
    ensures RunOf(r, NewestFirst(m, ts), offset)
    ensures forall k :: k in m && k !in r ==> (offset > 0 && NoOlderThan(k, r, m, ts)) || NoNewerThan(k, r, m, ts)
    ensures offset == 0 && limit.None? ==> r == NewestFirst(m, ts)
    ensures offset == 0 && (limit.None? || |m| <= limit.value) ==> forall k :: k in r <==> k in m
  {
    PageShape(m, ts, offset, limit);
    OmittedRowsOutsideWindow(m, ts, offset, limit);
    WholeFirstPage(m, ts, limit);
    Window(NewestFirst(m, ts), offset, limit)
  }

  /** A window of the newest-first order: rows of the map, newest first, each
      at its place in the order. */
  lemma PageShape<T>(m: map<Id, T>, ts: T -> int, offset: nat, limit: Option<nat>)
    ensures var r := Window(NewestFirst(m, ts), offset, limit);
      && (forall i :: 0 <= i < |r| ==> r[i] in m)
      && NewestOrder(r, m, ts)
      && RunOf(r, NewestFirst(m, ts), offset)
  {
    NewestFirstOrder(m, ts);
    WindowKeepsNewestOrder(NewestFirst(m, ts), m, ts, offset, limit);
  }

  /** With no offset and room for every row, the page is the whole order. */
  lemma WholeFirstPage<T>(m: map<Id, T>, ts: T -> int, limit: Option<nat>)
    ensures limit.None? || |m| <= limit.value ==> Window(NewestFirst(m, ts), 0, limit) == NewestFirst(m, ts)
  {
    var ordered := NewestFirst(m, ts);
    var r := Window(ordered, 0, limit);
    if limit.None? || |m| <= limit.value {
      assert |r| == |ordered|;
      assert forall i :: 0 <= i < |r| ==> r[i] == ordered[i];
    }
  }

  /** A page of a selection, seen in the whole table the selection was drawn
      from: still newest first, and a selected row it leaves out was skipped
      by the offset or comes after it. */
  lemma NewestPageWider<T>(sel: map<Id, T>, m: map<Id, T>, ts: T -> int, offset: nat, limit: Option<nat>)
    requires forall k :: k in sel ==> k in m && m[k] == sel[k]
    ensures var r := NewestPage(sel, ts, offset, limit);
      && NewestOrder(r, m, ts)
      && forall k :: k in sel && k !in r ==> (offset > 0 && NoOlderThan(k, r, m, ts)) || NoNewerThan(k, r, m, ts)
  {
    var r := NewestPage(sel, ts, offset, limit);
    NewestOrderWider(r, sel, m, ts);
    OmittedRowsWider(r, sel, m, ts, offset);
  }

  /** Rows of a selection that lie before or after `r` in the selection
      still do so in the table the selection was drawn from. */
  lemma OmittedRowsWider<T>(r: seq<Id>, sel: map<Id, T>, m: map<Id, T>, ts: T -> int, offset: nat)
    requires forall k :: k in sel ==> k in m && m[k] == sel[k]
    requires forall i :: 0 <= i < |r| ==> r[i] in sel
    requires forall k :: k in sel && k !in r ==> (offset > 0 && NoOlderThan(k, r, sel, ts)) || NoNewerThan(k, r, sel, ts)
    ensures forall k :: k in sel && k !in r ==> (offset > 0 && NoOlderThan(k, r, m, ts)) || NoNewerThan(k, r, m, ts)
  {
    forall k | k in sel && k !in r
      ensures (offset > 0 && NoOlderThan(k, r, m, ts)) || NoNewerThan(k, r, m, ts)
    {
      if NoNewerThan(k, r, sel, ts) {
        forall i | 0 <= i < |r| && r[i] in m ensures ts(m[k]) <= ts(m[r[i]]) {
          assert r[i] in sel;
        }
      } else {
        forall i | 0 <= i < |r| && r[i] in m ensures ts(m[k]) >= ts(m[r[i]]) {
          assert r[i] in sel;
        }
      }
    }
  }

  /** The rows a window of the newest-first order leaves out lie before it
      (only when there is an offset) or after it. */
  lemma OmittedRowsOutsideWindow<T>(m: map<Id, T>, ts: T -> int, offset: nat, limit: Option<nat>)
    ensures var r := Window(NewestFirst(m, ts), offset, limit);
      forall k :: k in m && k !in r ==> (offset > 0 && NoOlderThan(k, r, m, ts)) || NoNewerThan(k, r, m, ts)
  {
    var ordered := NewestFirst(m, ts);
    var r := Window(ordered, offset, limit);
    forall k | k in m && k !in r
      ensures (offset > 0 && NoOlderThan(k, r, m, ts)) || NoNewerThan(k, r, m, ts)
    {
      assert k in ordered;
      var j :| 0 <= j < |ordered| && ordered[j] == k;
      OutsideWindowIndex(ordered, offset, limit, j);
      RankAgainstWindow(m, ts, offset, limit, j);
    }
  }

  /** An element a window leaves out sits before its start or past its end. */
  lemma OutsideWindowIndex<T>(s: seq<T>, offset: nat, limit: Option<nat>, j: nat)
    requires j < |s| && s[j] !in Window(s, offset, limit)
    ensures j < offset || j >= offset + |Window(s, offset, limit)|
  {
  }

  /** The row at position `j` of the newest-first order is no older than a
      window starting after it and no newer than one ending before it. */
  lemma RankAgainstWindow<T>(m: map<Id, T>, ts: T -> int, offset: nat, limit: Option<nat>, j: nat)
    requires j < |NewestFirst(m, ts)|
    ensures var ordered := NewestFirst(m, ts);
      var r := Window(ordered, offset, limit);
      && (j < offset ==> NoOlderThan(ordered[j], r, m, ts))
      && (j >= offset + |r| ==> NoNewerThan(ordered[j], r, m, ts))
  {
    var ordered := NewestFirst(m, ts);
    var r := Window(ordered, offset, limit);
    assert ordered[j] in ordered;
    forall i | 0 <= i < |r| && r[i] in m
      ensures j < offset ==> ts(m[ordered[j]]) >= ts(m[r[i]])
      ensures j >= offset + |r| ==> ts(m[ordered[j]]) <= ts(m[r[i]])
    {
      assert r[i] == ordered[i + offset];
    }
  }

  /** NewestFirst lists rows of the map, newest first. */
  lemma NewestFirstOrder<T>(m: map<Id, T>, ts: T -> int)
    ensures NewestOrder(NewestFirst(m, ts), m, ts)
  {
    var r := NewestFirst(m, ts);
    forall i | 0 <= i < |r| ensures r[i] in m {
      assert r[i] in r;
    }
  }

  /** `OFFSET offset LIMIT limit` of the newest-first rows: rows of the map,
      still newest first, as many as the window admits; a first page at least
      as long as the map holds all of it. */
  lemma NewestWindow<T>(sel: map<Id, T>, ts: T -> int, offset: nat, limit: nat)
    ensures var ids := Window(NewestFirst(sel, ts), offset, Some(limit));
      && (forall i :: 0 <= i < |ids| ==> ids[i] in sel)
      && NewestOrder(ids, sel, ts)
      && |ids| == WindowLength(|sel|, offset, limit)
      && (forall i :: 0 <= i < |ids| ==> i + offset < |sel| && ids[i] == NewestFirst(sel, ts)[i + offset])
      && (forall k :: k in sel && k !in ids ==> (offset > 0 && NoOlderThan(k, ids, sel, ts)) || NoNewerThan(k, ids, sel, ts))
      && (offset == 0 && |sel| <= limit ==> forall k :: k in ids <==> k in sel)
  {
    OmittedRowsOutsideWindow(sel, ts, offset, Some(limit));
    var ordered := NewestFirst(sel, ts);
    NewestFirstOrder(sel, ts);
    WindowKeepsNewestOrder(ordered, sel, ts, offset, Some(limit));
    var ids := Window(ordered, offset, Some(limit));
    assert NewestOrder(ids, sel, ts);
    assert |ids| == WindowLength(|sel|, offset, limit);
    if offset == 0 && |sel| <= limit {
      FirstPageHoldsAll(sel, ts, limit);
    }
  }

  /** The window after a full window continues it: no row of the earlier
      window is in the later one, and each is no older than all of them. */
  lemma AdjacentWindows<T>(sel: map<Id, T>, ts: T -> int, offset: nat, limit: nat)
    ensures var a := Window(NewestFirst(sel, ts), offset, Some(limit));
      var b := Window(NewestFirst(sel, ts), offset + limit, Some(limit));
      forall i :: 0 <= i < |a| ==> a[i] !in b && NoOlderThan(a[i], b, sel, ts)
  {
    NewestFirstDistinct(sel, ts);
    AdjacentWindowsOf(NewestFirst(sel, ts), sel, ts, offset, limit);
  }

  lemma AdjacentWindowsOf<T>(s: seq<Id>, sel: map<Id, T>, ts: T -> int, offset: nat, limit: nat)
    requires forall i, j :: 0 <= i < j < |s| ==> s[i] in sel && s[j] in sel && ts(sel[s[i]]) >= ts(sel[s[j]])
    requires forall i, j :: 0 <= i < j < |s| ==> s[i] != s[j]
    requires forall k :: k in s ==> k in sel
    ensures var a := Window(s, offset, Some(limit));
      var b := Window(s, offset + limit, Some(limit));
      forall i :: 0 <= i < |a| ==> a[i] !in b && NoOlderThan(a[i], b, sel, ts)
  {
    var a, b := Window(s, offset, Some(limit)), Window(s, offset + limit, Some(limit));
    forall i | 0 <= i < |a|
      ensures a[i] !in b && NoOlderThan(a[i], b, sel, ts)
    {
      var x := i + offset;
      assert a[i] == s[x] && s[x] in sel;
      forall j | 0 <= j < |b|
        ensures a[i] != b[j] && a[i] in sel && b[j] in sel && ts(sel[a[i]]) >= ts(sel[b[j]])
      {
        var y := j + (offset + limit);
        assert b[j] == s[y];
        EarlierPosition(s, sel, ts, x, y);
      }
    }
  }

  lemma EarlierPosition<T>(s: seq<Id>, sel: map<Id, T>, ts: T -> int, x: nat, y: nat)
    requires forall i, j :: 0 <= i < j < |s| ==> s[i] in sel && s[j] in sel && ts(sel[s[i]]) >= ts(sel[s[j]])
    requires forall i, j :: 0 <= i < j < |s| ==> s[i] != s[j]
    requires x < y < |s|
    ensures s[x] in sel && s[y] in sel && s[x] != s[y] && ts(sel[s[x]]) >= ts(sel[s[y]])
  {
  }

  /** A first page at least as long as the selection holds every row of it. */
  lemma FirstPageHoldsAll<T>(sel: map<Id, T>, ts: T -> int, limit: nat)
    requires |sel| <= limit
    ensures forall k :: k in Window(NewestFirst(sel, ts), 0, Some(limit)) <==> k in sel
  {
    var ordered := NewestFirst(sel, ts);
    var r := Window(ordered, 0, Some(limit));
    assert |r| == |ordered|;
    assert forall i :: 0 <= i < |r| ==> r[i] == ordered[i];
    assert r == ordered;
  }

  /** The ids in `s` are rows of `m`, ordered by `ts` from smallest to largest. */
  predicate OldestOrder<T>(s: seq<Id>, m: map<Id, T>, ts: T -> int) {
    && (forall i :: 0 <= i < |s| ==> s[i] in m)
    && (forall i, j :: 0 <= i < j < |s| ==> ts(m[s[i]]) <= ts(m[s[j]]))
  }

  lemma OldestOrderWider<T>(s: seq<Id>, sub: map<Id, T>, m: map<Id, T>, ts: T -> int)
    requires OldestOrder(s, sub, ts)
    requires forall k :: k in sub ==> k in m && m[k] == sub[k]
    ensures OldestOrder(s, m, ts)
  {
    forall i, j | 0 <= i < j < |s| ensures ts(m[s[i]]) <= ts(m[s[j]]) {
      assert ts(sub[s[i]]) <= ts(sub[s[j]]);
      assert m[s[i]] == sub[s[i]] && m[s[j]] == sub[s[j]];
    }
  }

  /** The same ids, oldest first (`ORDER BY created_at ASC`). */
  function OldestFirst<T>(m: map<Id, T>, ts: T -> int): (r: seq<Id>)
    ensures |r| == |m|
    ensures forall k :: k in r <==> k in m
    ensures OldestOrder(r, m, ts)
  {
    var neg := Negated(ts);
    var r := NewestFirst(m, neg);
    assert NewestOrder(r, m, neg);
    NegatedOrder(r, m, ts);
    r
  }

  function Negated<T>(ts: T -> int): T -> int {
    (t: T) => -ts(t)
  }

  /** Largest first by the negated key is smallest first by the key. */
  lemma NegatedOrder<T>(s: seq<Id>, m: map<Id, T>, ts: T -> int)
    requires NewestOrder(s, m, Negated(ts))
    ensures OldestOrder(s, m, ts)
  {
    var neg := Negated(ts);
    forall i, j | 0 <= i < j < |s| ensures ts(m[s[i]]) <= ts(m[s[j]]) {
      assert neg(m[s[i]]) >= neg(m[s[j]]);
      assert neg(m[s[i]]) == -ts(m[s[i]]) && neg(m[s[j]]) == -ts(m[s[j]]);
    }
  }
}
