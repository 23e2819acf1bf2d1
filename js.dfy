/**
 * JavaScript values as the web client's code sees them: the primitive values, arrays and
 * plain objects, with truthiness, property reads (which throw on null and undefined),
 * strict equality, object spread and the numeric coercions the validators rely on.
 */
module Js {
  import opened Wrappers
  import opened Text

  /** A JavaScript value. Numbers are reals; NaN is kept apart. Objects are plain records. */
  datatype Val =
    | Undefined
    | Null
    | Bool(b: bool)
    | Num(n: real)
    | NaN
    | Str(s: string)
    | Arr(items: seq<Val>)
    | Obj(fields: Object)

  /** A plain object: its own enumerable properties. */
  type Object = map<string, Val>

  predicate Nullish(v: Val) {
    v.Undefined? || v.Null?
  }

  /** JavaScript's ToBoolean. */
  predicate Truthy(v: Val) {
    match v
    case Undefined => false
    case Null => false
    case Bool(b) => b
    case Num(n) => n != 0.0
    case NaN => false
    case Str(s) => s != ""
    case Arr(_) => true
    case Obj(_) => true
  }

  /** Reading a property of an object: a missing property reads as undefined. */
  function Get(o: Object, k: string): Val {
    if k in o then o[k] else Undefined
  }

  /** `v.k`: None when `v` is null or undefined (a TypeError); undefined on other non-objects. */
  function Prop(v: Val, k: string): (r: Option<Val>)
    ensures r.None? <==> Nullish(v)
  {
    if Nullish(v) then None
    else if v.Obj? then Some(Get(v.fields, k))
    else Some(Undefined)
  }

  /** `v?.k`: optional chaining never throws. */
  function OptProp(v: Val, k: string): Val {
    if v.Obj? then Get(v.fields, k) else Undefined
  }

  /**
   * `a === b`. Objects and arrays compare by identity, which values cannot express; the model
   * treats two of them as never identical. NaN is never equal to anything.
   */
  predicate StrictEq(a: Val, b: Val) {
    a == b && !a.NaN? && !a.Arr? && !a.Obj?
  }

  /** `{...o, ...p}`: later properties win. */
  function Spread(o: Object, p: Object): (r: Object)
    ensures r.Keys == o.Keys + p.Keys
    ensures forall k :: k in p ==> r[k] == p[k]
    ensures forall k :: k in o && k !in p ==> r[k] == o[k]
  {
    o + p
  }

  /** `{...(x && {k: v})}`: contributes {k: v} when x is truthy, nothing otherwise. */
  function SpreadIf(x: Val, k: string, v: Val): (r: Object)
  {
    if Truthy(x) then map[k := v] else map[]
  }

  /**
   * The numeric readings of a string that JavaScript performs: Number(s) (also used by isNaN
   * and by relational comparisons), parseInt(s) and parseFloat(s). None stands for NaN.
   * They are left as parameters: every property proved holds whatever they are.
   */
  datatype Coercion = Coercion(
    number: string -> Option<real>,
    parseInt: string -> Option<int>,
    parseFloat: string -> Option<real>)

  /**
   * ToNumber on a value. Arrays and objects read as NaN; an empty or one-element array, which
   * JavaScript converts through its string form (`Number([])` is 0), is not modelled.
   */
  function ToNumber(c: Coercion, v: Val): Option<real> {
    match v
    case Undefined => None
    case Null => Some(0.0)
    case Bool(b) => Some(if b then 1.0 else 0.0)
    case Num(n) => Some(n)
    case NaN => None
    case Str(s) => c.number(s)
    case Arr(_) => None
    case Obj(_) => None
  }

  predicate IsNaN(c: Coercion, v: Val) {
    ToNumber(c, v).None?
  }

  /** `v < x` for a number x; a NaN comparison is false. */
  predicate Below(c: Coercion, v: Val, x: real) {
    var n := ToNumber(c, v); n.Some? && n.value < x
  }

  /** `v > x` for a number x; a NaN comparison is false. */
  predicate Above(c: Coercion, v: Val, x: real) {
    var n := ToNumber(c, v); n.Some? && n.value > x
  }

  function Truncate(r: real): int {
    if r >= 0.0 then r.Floor else -((-r).Floor)
  }

  /**
   * parseInt(v): numbers are truncated, strings read by the oracle, other values give NaN.
   * JavaScript reads a number through its string form, so exponent forms such as 1e21 (read
   * as 1) differ from the truncation; the callers pass strings or plain integers.
   */
  function ParseInt(c: Coercion, v: Val): Option<int> {
    match v
    case Num(n) => Some(Truncate(n))
    case Str(s) => c.parseInt(s)
    case _ => None
  }

  /** A parseInt result as a value. */
  function IntVal(n: Option<int>): Val {
    if n.Some? then Num(n.value as real) else NaN
  }

  /**
   * `!v || v.trim() === ''`: true for falsy values and blank strings; None when `v` is a
   * truthy non-string, whose missing `trim` method throws a TypeError.
   */
  function MissingOrBlank(v: Val): (r: Option<bool>)
    ensures r.None? <==> Truthy(v) && !v.Str?
    ensures r == Some(false) <==> v.Str? && Trim(v.s) != ""
  {
    if !Truthy(v) then Some(true)
    else if v.Str? then Some(Trim(v.s) == "")
    else None
  }

  /** `String(v || '').trim()` is empty: falsy values and blank strings. */
  predicate BlankInput(v: Val) {
    !Truthy(v) || (v.Str? && Trim(v.s) == "")
  }

  /** `v.key === target` as the callbacks of find/filter evaluate it; false on a nullish `v`. */
  predicate Matches(v: Val, key: string, target: Val) {
    !Nullish(v) && StrictEq(OptProp(v, key), target)
  }

  /** No entry before position n is nullish or matches. */
  predicate ClearBefore(xs: seq<Val>, key: string, target: Val, n: int)
    requires 0 <= n <= |xs|
  {
    forall j :: 0 <= j < n ==> !Nullish(xs[j]) && !Matches(xs[j], key, target)
  }

  /** The outcome of `findIndex`/`find`: a TypeError on a nullish entry, no match, or a position. */
  datatype Search = Thrown | Missing | FoundAt(index: nat)

  /** `xs.findIndex(d => d.key === target)`, scanning left to right and stopping at the first match. */
  function Find(xs: seq<Val>, key: string, target: Val): (r: Search)
    ensures r.FoundAt? ==> r.index < |xs| && Matches(xs[r.index], key, target)
                           && ClearBefore(xs, key, target, r.index)
    ensures r.Missing? <==> ClearBefore(xs, key, target, |xs|)
    ensures r.Thrown? ==> exists j :: 0 <= j < |xs| && Nullish(xs[j]) && ClearBefore(xs, key, target, j)
  {
    if |xs| == 0 then Missing
    else if Nullish(xs[0]) then Thrown
    else if Matches(xs[0], key, target) then FoundAt(0)
    else
      var rest := Find(xs[1..], key, target);
      assert forall j :: 1 <= j <= |xs| ==>
        (ClearBefore(xs, key, target, j) <==> ClearBefore(xs[1..], key, target, j - 1));
      if rest.FoundAt? then FoundAt(rest.index + 1)
      else if rest.Missing? then Missing
      else
        assert exists j :: 1 <= j < |xs| && Nullish(xs[j]) && ClearBefore(xs, key, target, j) by {
          var j :| 0 <= j < |xs| - 1 && Nullish(xs[1..][j]) && ClearBefore(xs[1..], key, target, j);
          assert Nullish(xs[j + 1]) && ClearBefore(xs, key, target, j + 1);
        }
        Thrown
  }

  /** How many entries of `xs` pass `p`, counted from the last entry back. */
  function CountWhere(xs: seq<Val>, p: Val -> bool): (r: nat)
    ensures r <= |xs|
  {
    if xs == [] then 0
    else CountWhere(xs[..|xs| - 1], p) + (if p(xs[|xs| - 1]) then 1 else 0)
  }

  /** The count is the number of positions whose entry passes `p`. */
  lemma {:induction false} CountWherePositions(xs: seq<Val>, p: Val -> bool)
    ensures CountWhere(xs, p) == |set i | 0 <= i < |xs| && p(xs[i])|
  {
    if xs != [] {
      var n := |xs| - 1;
      var init := xs[..n];
      CountWherePositions(init, p);
      var before := set i | 0 <= i < n && p(init[i]);
      var all := set i | 0 <= i < |xs| && p(xs[i]);
      assert all == before + (if p(xs[n]) then {n} else {}) by {
        forall i | 0 <= i < n
          ensures init[i] == xs[i]
        {
        }
      }
      assert n !in before;
    }
  }

  /** Counting from the front: the first entry, then the rest. */
  lemma {:induction false} CountWhereFront(xs: seq<Val>, p: Val -> bool)
    requires xs != []
    ensures CountWhere(xs, p) == (if p(xs[0]) then 1 else 0) + CountWhere(xs[1..], p)
    decreases |xs|
  {
    if |xs| > 1 {
      var n := |xs| - 1;
      CountWhereFront(xs[..n], p);
      assert xs[..n][1..] == xs[1..][..n - 1];
    }
  }

  /** The test `d => d.key === target` (or `!==` when not `equal`) as a predicate on entries. */
  function Matching(key: string, target: Val, equal: bool): Val -> bool {
    v => Matches(v, key, target) == equal
  }

  /** The entries a callback accepts. */
  function Accepted(test: Val -> Option<bool>): Val -> bool {
    v => test(v) == Some(true)
  }

  /**
   * `r` lists the entries of `xs` that pass `p` in their original order: `r[k]` is `xs[idx[k]]`
   * for strictly increasing positions `idx`, and these are exactly the positions whose entry
   * passes. So every passing entry appears once per position it holds, and nothing else does.
   */
  ghost predicate SelectedAt(xs: seq<Val>, p: Val -> bool, r: seq<Val>, idx: seq<int>) {
    Picks(xs, p, r, idx) && Increasing(idx) && Covers(xs, p, idx)
  }

  /** Each `r[k]` is the passing entry at position `idx[k]` of `xs`. */
  ghost predicate Picks(xs: seq<Val>, p: Val -> bool, r: seq<Val>, idx: seq<int>) {
    |idx| == |r| &&
    forall k :: 0 <= k < |idx| ==> 0 <= idx[k] < |xs| && r[k] == xs[idx[k]] && p(xs[idx[k]])
  }

  ghost predicate Increasing(idx: seq<int>) {
    forall k, l :: 0 <= k < l < |idx| ==> idx[k] < idx[l]
  }

  /** Every position whose entry passes is among `idx`. */
  ghost predicate Covers(xs: seq<Val>, p: Val -> bool, idx: seq<int>) {
    forall i :: 0 <= i < |xs| && p(xs[i]) ==> i in idx
  }

  /** `r` is what `xs.filter(p)` returns when no callback throws. */
  ghost predicate Selected(xs: seq<Val>, p: Val -> bool, r: seq<Val>) {
    exists idx :: SelectedAt(xs, p, r, idx)
  }

  lemma SelectedNil(p: Val -> bool)
    ensures Selected([], p, [])
  {
    assert SelectedAt([], p, [], []);
  }

  /** Every position one further on. */
  function Shifted(idx: seq<int>): (r: seq<int>)
    ensures |r| == |idx| && forall k :: 0 <= k < |idx| ==> r[k] == idx[k] + 1
  {
    seq(|idx|, k requires 0 <= k < |idx| => idx[k] + 1)
  }

  /** Positions in `tail` picked one further on pick the same entries of `xs`. */
  lemma ShiftedPicks(xs: seq<Val>, p: Val -> bool, rest: seq<Val>, idx: seq<int>)
    requires xs != [] && Picks(xs[1..], p, rest, idx)
    ensures Picks(xs, p, rest, Shifted(idx))
  {
    var shifted := Shifted(idx);
    forall k | 0 <= k < |shifted|
      ensures 0 <= shifted[k] < |xs| && rest[k] == xs[shifted[k]] && p(xs[shifted[k]])
    {
      assert xs[1..][idx[k]] == xs[shifted[k]];
    }
  }

  lemma ShiftedCovers(xs: seq<Val>, p: Val -> bool, idx: seq<int>)
    requires xs != [] && Covers(xs[1..], p, idx)
    ensures forall i :: 1 <= i < |xs| && p(xs[i]) ==> i in Shifted(idx)
  {
    var shifted := Shifted(idx);
    forall i | 1 <= i < |xs| && p(xs[i])
      ensures i in shifted
    {
      assert xs[1..][i - 1] == xs[i];
      assert i - 1 in idx;
      var k :| 0 <= k < |idx| && idx[k] == i - 1;
      assert shifted[k] == i;
    }
  }

  /** Picking the first entry in front of later picks. */
  lemma PrependPicks(xs: seq<Val>, p: Val -> bool, rest: seq<Val>, shifted: seq<int>)
    requires xs != [] && p(xs[0]) && Picks(xs, p, rest, shifted)
    ensures Picks(xs, p, [xs[0]] + rest, [0] + shifted)
  {
    var all := [0] + shifted;
    var r := [xs[0]] + rest;
    forall k | 0 <= k < |all|
      ensures 0 <= all[k] < |xs| && r[k] == xs[all[k]] && p(xs[all[k]])
    {
      if k > 0 {
        assert all[k] == shifted[k - 1] && r[k] == rest[k - 1];
      }
    }
  }

  lemma PrependIncreasing(shifted: seq<int>)
    requires Increasing(shifted) && forall k :: 0 <= k < |shifted| ==> shifted[k] >= 1
    ensures Increasing([0] + shifted)
  {
    var all := [0] + shifted;
    forall k, l | 0 <= k < l < |all|
      ensures all[k] < all[l]
    {
      assert all[l] == shifted[l - 1];
      if k > 0 {
        assert all[k] == shifted[k - 1];
      }
    }
  }

  lemma PrependCovers(xs: seq<Val>, p: Val -> bool, shifted: seq<int>)
    requires xs != [] && forall i :: 1 <= i < |xs| && p(xs[i]) ==> i in shifted
    ensures Covers(xs, p, [0] + shifted)
  {
    var all := [0] + shifted;
    forall i | 0 <= i < |xs| && p(xs[i])
      ensures i in all
    {
      if i == 0 {
        assert all[0] == 0;
      } else {
        var k :| 0 <= k < |shifted| && shifted[k] == i;
        assert all[k + 1] == i;
      }
    }
  }

  /** Selecting from `xs` is deciding its first entry, then selecting from the rest. */
  lemma SelectedCons(xs: seq<Val>, p: Val -> bool, rest: seq<Val>)
    requires xs != [] && Selected(xs[1..], p, rest)
    ensures Selected(xs, p, if p(xs[0]) then [xs[0]] + rest else rest)
  {
    var idx :| SelectedAt(xs[1..], p, rest, idx);
    var shifted := Shifted(idx);
    ShiftedPicks(xs, p, rest, idx);
    ShiftedCovers(xs, p, idx);
    assert Increasing(shifted);
    if p(xs[0]) {
      PrependPicks(xs, p, rest, shifted);
      PrependIncreasing(shifted);
      PrependCovers(xs, p, shifted);
      assert SelectedAt(xs, p, [xs[0]] + rest, [0] + shifted);
    } else {
      assert Covers(xs, p, shifted);
      assert SelectedAt(xs, p, rest, shifted);
    }
  }

  /** The positions 0, 1, ..., n - 1. */
  function Positions(n: nat): (r: seq<int>)
    ensures |r| == n && forall k :: 0 <= k < n ==> r[k] == k
  {
    seq(n, k => k)
  }

  /** When every entry passes, the whole list is selected. */
  lemma SelectedAll(xs: seq<Val>, p: Val -> bool)
    requires forall i :: 0 <= i < |xs| ==> p(xs[i])
    ensures Selected(xs, p, xs)
  {
    var all := Positions(|xs|);
    assert Covers(xs, p, all) by {
      forall i | 0 <= i < |xs| && p(xs[i])
        ensures i in all
      {
        assert all[i] == i;
      }
    }
    assert SelectedAt(xs, p, xs, all);
  }

  /** Two tests that agree on every value select the same entries. */
  lemma SelectedSame(xs: seq<Val>, p: Val -> bool, q: Val -> bool, r: seq<Val>)
    requires Selected(xs, p, r)
    requires forall v :: p(v) == q(v)
    ensures Selected(xs, q, r)
  {
    var idx :| SelectedAt(xs, p, r, idx);
    assert SelectedAt(xs, q, r, idx);
  }

  /** The positions `outer[inner[k]]`: a selection of a selection. */
  function Composed(outer: seq<int>, inner: seq<int>): (r: seq<int>)
    requires forall k :: 0 <= k < |inner| ==> 0 <= inner[k] < |outer|
    ensures |r| == |inner| && forall k :: 0 <= k < |inner| ==> r[k] == outer[inner[k]]
  {
    seq(|inner|, k requires 0 <= k < |inner| => outer[inner[k]])
  }

  /** Filtering twice is filtering once by both tests. */
  lemma SelectedThen(xs: seq<Val>, p: Val -> bool, ys: seq<Val>, q: Val -> bool, zs: seq<Val>,
                     pq: Val -> bool)
    requires Selected(xs, p, ys) && Selected(ys, q, zs)
    requires forall v :: pq(v) == (p(v) && q(v))
    ensures Selected(xs, pq, zs)
  {
    var outer :| SelectedAt(xs, p, ys, outer);
    var inner :| SelectedAt(ys, q, zs, inner);
    var idx := Composed(outer, inner);
    ComposedPicks(xs, p, ys, q, zs, pq, outer, inner);
    ComposedIncreasing(outer, inner);
    ComposedCovers(xs, p, ys, q, pq, outer, inner);
    assert SelectedAt(xs, pq, zs, idx);
  }

  lemma ComposedPicks(xs: seq<Val>, p: Val -> bool, ys: seq<Val>, q: Val -> bool, zs: seq<Val>,
                      pq: Val -> bool, outer: seq<int>, inner: seq<int>)
    requires Picks(xs, p, ys, outer) && Picks(ys, q, zs, inner)
    requires forall v :: pq(v) == (p(v) && q(v))
    ensures Picks(xs, pq, zs, Composed(outer, inner))
  {
    var idx := Composed(outer, inner);
    forall k | 0 <= k < |idx|
      ensures 0 <= idx[k] < |xs| && zs[k] == xs[idx[k]] && pq(xs[idx[k]])
    {
      var m := inner[k];
      assert zs[k] == ys[m] && ys[m] == xs[outer[m]];
    }
  }

  lemma ComposedIncreasing(outer: seq<int>, inner: seq<int>)
    requires Increasing(outer) && Increasing(inner)
    requires forall k :: 0 <= k < |inner| ==> 0 <= inner[k] < |outer|
    ensures Increasing(Composed(outer, inner))
  {
    var idx := Composed(outer, inner);
    forall k, l | 0 <= k < l < |idx|
      ensures idx[k] < idx[l]
    {
      assert inner[k] < inner[l];
    }
  }

  lemma ComposedCovers(xs: seq<Val>, p: Val -> bool, ys: seq<Val>, q: Val -> bool,
                       pq: Val -> bool, outer: seq<int>, inner: seq<int>)
    requires Picks(xs, p, ys, outer) && Covers(xs, p, outer) && Covers(ys, q, inner)
    requires forall k :: 0 <= k < |inner| ==> 0 <= inner[k] < |outer|
    requires forall v :: pq(v) == (p(v) && q(v))
    ensures Covers(xs, pq, Composed(outer, inner))
  {
    var idx := Composed(outer, inner);
    forall i | 0 <= i < |xs| && pq(xs[i])
      ensures i in idx
    {
      assert i in outer;
      var m :| 0 <= m < |outer| && outer[m] == i;
      assert ys[m] == xs[i];
      assert m in inner;
      var k :| 0 <= k < |inner| && inner[k] == m;
      assert idx[k] == i;
    }
  }

  /** The positions after the first `start`, each one nearer the front. */
  function Unshifted(idx: seq<int>, start: nat): (r: seq<int>)
    requires start <= |idx|
    ensures |r| == |idx| - start && forall k :: 0 <= k < |r| ==> r[k] == idx[k + start] - 1
  {
    seq(|idx| - start, k requires 0 <= k < |idx| - start => idx[k + start] - 1)
  }

  /**
   * In a selection the first entry, when it passes, is picked first; every other pick lies
   * further on.
   */
  lemma FirstPick(xs: seq<Val>, p: Val -> bool, r: seq<Val>, idx: seq<int>, start: nat)
    requires xs != [] && SelectedAt(xs, p, r, idx)
    requires start == if p(xs[0]) then 1 else 0
    ensures start <= |idx|
    ensures p(xs[0]) ==> idx[0] == 0
    ensures forall k :: start <= k < |idx| ==> idx[k] >= 1
  {
    if p(xs[0]) {
      assert 0 in idx;
      var k :| 0 <= k < |idx| && idx[k] == 0;
      assert 0 <= idx[0] <= idx[k];
    }
    forall k | start <= k < |idx|
      ensures idx[k] >= 1
    {
      if p(xs[0]) {
        assert idx[0] < idx[k];
      } else {
        assert p(xs[idx[k]]);
      }
    }
  }

  lemma UnshiftedPicks(xs: seq<Val>, p: Val -> bool, r: seq<Val>, idx: seq<int>, start: nat)
    requires xs != [] && Picks(xs, p, r, idx) && start <= |idx|
    requires forall k :: start <= k < |idx| ==> idx[k] >= 1
    ensures Picks(xs[1..], p, r[start..], Unshifted(idx, start))
  {
    var shifted := Unshifted(idx, start);
    var rest := r[start..];
    forall k | 0 <= k < |shifted|
      ensures 0 <= shifted[k] < |xs| - 1 && rest[k] == xs[1..][shifted[k]] && p(xs[1..][shifted[k]])
    {
      assert rest[k] == r[k + start];
      assert xs[1..][shifted[k]] == xs[idx[k + start]];
    }
  }

  lemma UnshiftedIncreasing(idx: seq<int>, start: nat)
    requires Increasing(idx) && start <= |idx|
    ensures Increasing(Unshifted(idx, start))
  {
    var shifted := Unshifted(idx, start);
    forall k, l | 0 <= k < l < |shifted|
      ensures shifted[k] < shifted[l]
    {
      assert idx[k + start] < idx[l + start];
    }
  }

  lemma UnshiftedCovers(xs: seq<Val>, p: Val -> bool, idx: seq<int>, start: nat)
    requires xs != [] && Covers(xs, p, idx) && start <= |idx|
    requires forall k :: 0 <= k < start ==> idx[k] == 0
    ensures Covers(xs[1..], p, Unshifted(idx, start))
  {
    var shifted := Unshifted(idx, start);
    forall i | 0 <= i < |xs| - 1 && p(xs[1..][i])
      ensures i in shifted
    {
      assert xs[1..][i] == xs[i + 1];
      assert i + 1 in idx;
      var k :| 0 <= k < |idx| && idx[k] == i + 1;
      assert shifted[k - start] == i;
    }
  }

  /** Selection from a non-empty list starts by deciding its first entry. */
  lemma SelectedTail(xs: seq<Val>, p: Val -> bool, r: seq<Val>)
    requires xs != [] && Selected(xs, p, r)
    ensures p(xs[0]) ==> r != [] && r[0] == xs[0] && Selected(xs[1..], p, r[1..])
    ensures !p(xs[0]) ==> Selected(xs[1..], p, r)
  {
    var idx :| SelectedAt(xs, p, r, idx);
    var start := if p(xs[0]) then 1 else 0;
    FirstPick(xs, p, r, idx, start);
    UnshiftedPicks(xs, p, r, idx, start);
    UnshiftedIncreasing(idx, start);
    UnshiftedCovers(xs, p, idx, start);
    assert SelectedAt(xs[1..], p, r[start..], Unshifted(idx, start));
    assert p(xs[0]) ==> r[0] == xs[idx[0]];
  }

  lemma SelectedOfNil(p: Val -> bool, r: seq<Val>)
    requires Selected([], p, r)
    ensures r == []
  {
    var idx :| SelectedAt([], p, r, idx);
    if |idx| > 0 {
      PickedFrom([], p, r, idx);
      assert false;
    }
  }

  /** A list something was picked from is not empty. */
  lemma PickedFrom(xs: seq<Val>, p: Val -> bool, r: seq<Val>, idx: seq<int>)
    requires Picks(xs, p, r, idx) && |idx| > 0
    ensures |xs| > 0
  {
    assert 0 <= idx[0] < |xs|;
  }

  /** Two non-empty lists with the same first element and the same rest are equal. */
  lemma SameHeadAndTail(a: seq<Val>, b: seq<Val>)
    requires a != [] && b != [] && a[0] == b[0] && a[1..] == b[1..]
    ensures a == b
  {
    assert a == [a[0]] + a[1..] && b == [b[0]] + b[1..];
  }

  /** A list has one selection: the predicate pins the filter's result down. */
  lemma {:induction false} SelectedUnique(xs: seq<Val>, p: Val -> bool, r1: seq<Val>, r2: seq<Val>)
    requires Selected(xs, p, r1) && Selected(xs, p, r2)
    ensures r1 == r2
    decreases |xs|
  {
    if xs == [] {
      SelectedOfNil(p, r1);
      SelectedOfNil(p, r2);
    } else {
      SelectedTail(xs, p, r1);
      SelectedTail(xs, p, r2);
      if p(xs[0]) {
        SelectedUnique(xs[1..], p, r1[1..], r2[1..]);
        SameHeadAndTail(r1, r2);
      } else {
        SelectedUnique(xs[1..], p, r1, r2);
      }
    }
  }

  /**
   * `xs.filter(d => d.key === target)` when `equal`, `xs.filter(d => d.key !== target)`
   * otherwise; None when a nullish entry makes the callback throw.
   */
  function Filter(xs: seq<Val>, key: string, target: Val, equal: bool): (r: Option<seq<Val>>)
    ensures r.None? <==> exists j :: 0 <= j < |xs| && Nullish(xs[j])
    ensures r.Some? ==> |r.value| <= |xs|
    ensures r.Some? ==> forall v :: v in r.value <==> v in xs && Matches(v, key, target) == equal
    ensures r.Some? ==> |r.value| == CountWhere(xs, Matching(key, target, equal))
    ensures r.Some? ==> Selected(xs, Matching(key, target, equal), r.value)
  {
    if |xs| == 0 then SelectedNil(Matching(key, target, equal)); Some([])
    else if Nullish(xs[0]) then None
    else
      var rest := Filter(xs[1..], key, target, equal);
      CountWhereFront(xs, Matching(key, target, equal));
      assert forall v :: v in xs <==> v == xs[0] || v in xs[1..] by {
        assert xs == [xs[0]] + xs[1..];
      }
      assert (exists j :: 0 <= j < |xs| && Nullish(xs[j])) <==>
             (exists j :: 0 <= j < |xs| - 1 && Nullish(xs[1..][j])) by {
        if exists j :: 0 <= j < |xs| && Nullish(xs[j]) {
          var j :| 0 <= j < |xs| && Nullish(xs[j]);
          assert j != 0;
          assert Nullish(xs[1..][j - 1]);
        }
      }
      if rest.None? then None
      else
        SelectedCons(xs, Matching(key, target, equal), rest.value);
        if Matches(xs[0], key, target) == equal then Some([xs[0]] + rest.value)
        else Some(rest.value)
  }

  /**
   * `xs.map(d => d.key === target ? p : d)`: every entry whose key is `target` is replaced by
   * `p`; None when a nullish entry makes the callback throw.
   */
  function ReplaceMatching(xs: seq<Val>, key: string, target: Val, p: Val): (r: Option<seq<Val>>)
    ensures r.None? <==> exists j :: 0 <= j < |xs| && Nullish(xs[j])
    ensures r.Some? ==> |r.value| == |xs|
    ensures r.Some? ==> forall i :: 0 <= i < |xs| ==>
              r.value[i] == if Matches(xs[i], key, target) then p else xs[i]
  {
    if |xs| == 0 then Some([])
    else if Nullish(xs[0]) then None
    else
      var rest := ReplaceMatching(xs[1..], key, target, p);
      assert (exists j :: 0 <= j < |xs| && Nullish(xs[j])) <==>
             (exists j :: 0 <= j < |xs| - 1 && Nullish(xs[1..][j])) by {
        if exists j :: 0 <= j < |xs| && Nullish(xs[j]) {
          var j :| 0 <= j < |xs| && Nullish(xs[j]);
          assert j != 0;
          assert Nullish(xs[1..][j - 1]);
        }
      }
      if rest.None? then None
      else Some([if Matches(xs[0], key, target) then p else xs[0]] + rest.value)
  }

  /**
   * `xs.some(test)`: the callback runs left to right and stops at the first true; a callback
   * that throws (None) makes the whole call throw.
   */
  function SomeOf(xs: seq<Val>, test: Val -> Option<bool>): (r: Option<bool>)
    ensures r == Some(false) <==> forall j :: 0 <= j < |xs| ==> test(xs[j]) == Some(false)
    ensures r == Some(true) ==> exists j :: 0 <= j < |xs| && test(xs[j]) == Some(true)
    ensures r.None? ==> exists j :: 0 <= j < |xs| && test(xs[j]).None?
    ensures (forall j :: 0 <= j < |xs| ==> test(xs[j]).Some?) ==> r.Some?
  {
    if |xs| == 0 then Some(false)
    else
      var first := test(xs[0]);
      if first.None? then None
      else if first.value then Some(true)
      else
        var rest := SomeOf(xs[1..], test);
        assert forall j :: 1 <= j < |xs| ==> xs[1..][j - 1] == xs[j];
        assert rest == Some(true) ==> exists j :: 0 <= j < |xs| && test(xs[j]) == Some(true) by {
          if rest == Some(true) {
            var j :| 0 <= j < |xs| - 1 && test(xs[1..][j]) == Some(true);
            assert test(xs[j + 1]) == Some(true);
          }
        }
        assert rest.None? ==> exists j :: 0 <= j < |xs| && test(xs[j]).None? by {
          if rest.None? {
            var j :| 0 <= j < |xs| - 1 && test(xs[1..][j]).None?;
            assert test(xs[j + 1]).None?;
          }
        }
        rest
  }

  /** `if (fails) errors.push(e)`: what one check contributes to an error list. */
  function When<E>(fails: bool, e: E): (r: seq<E>)
    ensures e in r <==> fails
    ensures |r| <= 1
  {
    if fails then [e] else []
  }

  /** One validation check: whether it fails, and the message it pushes when it does. */
  datatype Check<E> = Check(fails: bool, error: E)

  /** The error list after running `checks` in order, each pushing its message when it fails. */
  function Pushes<E>(checks: seq<Check<E>>): (r: seq<E>)
    ensures |r| <= |checks|
  {
    if checks == [] then [] else When(checks[0].fails, checks[0].error) + Pushes(checks[1..])
  }

  /** A message is in the list exactly when some check carrying it fails. */
  lemma {:induction false} PushesHas<E>(checks: seq<Check<E>>, e: E)
    ensures e in Pushes(checks) <==> exists i :: 0 <= i < |checks| && checks[i].fails && checks[i].error == e
  {
    if checks != [] {
      PushesHas(checks[1..], e);
      if e in Pushes(checks[1..]) {
        var i :| 0 <= i < |checks| - 1 && checks[1..][i].fails && checks[1..][i].error == e;
        assert checks[i + 1] == checks[1..][i];
      }
      if exists i :: 0 <= i < |checks| && checks[i].fails && checks[i].error == e {
        var i :| 0 <= i < |checks| && checks[i].fails && checks[i].error == e;
        if i > 0 {
          assert checks[1..][i - 1] == checks[i];
        }
      }
    }
  }

  /** The list is empty exactly when no check fails. */
  lemma {:induction false} PushesEmpty<E>(checks: seq<Check<E>>)
    ensures Pushes(checks) == [] <==> forall i :: 0 <= i < |checks| ==> !checks[i].fails
  {
    if checks != [] {
      PushesEmpty(checks[1..]);
      assert forall i :: 1 <= i < |checks| ==> checks[1..][i - 1] == checks[i];
    }
  }

  /** When exactly one check fails, the list holds its message alone. */
  lemma {:induction false} PushesOnly<E>(checks: seq<Check<E>>, i: int)
    requires 0 <= i < |checks| && checks[i].fails
    requires forall j :: 0 <= j < |checks| && j != i ==> !checks[j].fails
    ensures Pushes(checks) == [checks[i].error]
  {
    assert forall j :: 1 <= j < |checks| ==> checks[1..][j - 1] == checks[j];
    if i == 0 {
      PushesEmpty(checks[1..]);
    } else {
      PushesOnly(checks[1..], i - 1);
    }
  }

  /** Making one check of a passing list fail leaves that check's message alone in the list. */
  lemma PushesOneChanged<E>(checks: seq<Check<E>>, i: int, changed: Check<E>)
    requires 0 <= i < |checks| && Pushes(checks) == [] && changed.fails
    ensures Pushes(checks[i := changed]) == [changed.error]
  {
    PushesEmpty(checks);
    PushesOnly(checks[i := changed], i);
  }

  /**
   * `xs.filter(test)`: the callback runs on every element, so the call throws (None) exactly
   * when it throws on some element; otherwise the elements it accepts, in order.
   */
  function Keep(xs: seq<Val>, test: Val -> Option<bool>): (r: Option<seq<Val>>)
    ensures r.None? <==> exists j :: 0 <= j < |xs| && test(xs[j]).None?
    ensures r.Some? ==> |r.value| <= |xs|
    ensures r.Some? ==> forall v :: v in r.value <==> v in xs && test(v) == Some(true)
    ensures r.Some? ==> |r.value| == CountWhere(xs, Accepted(test))
    ensures r.Some? ==> Selected(xs, Accepted(test), r.value)
  {
    if |xs| == 0 then SelectedNil(Accepted(test)); Some([])
    else
      var rest := Keep(xs[1..], test);
      CountWhereFront(xs, Accepted(test));
      assert forall v :: v in xs <==> v == xs[0] || v in xs[1..] by {
        assert xs == [xs[0]] + xs[1..];
      }
      assert (exists j :: 0 <= j < |xs| && test(xs[j]).None?) <==>
             test(xs[0]).None? || (exists j :: 0 <= j < |xs| - 1 && test(xs[1..][j]).None?) by {
        if exists j :: 0 <= j < |xs| && test(xs[j]).None? {
          var j :| 0 <= j < |xs| && test(xs[j]).None?;
          if j != 0 {
            assert test(xs[1..][j - 1]).None?;
          }
        }
      }
      if test(xs[0]).None? || rest.None? then None
      else
        SelectedCons(xs, Accepted(test), rest.value);
        if test(xs[0]).value then Some([xs[0]] + rest.value)
        else Some(rest.value)
  }
}
