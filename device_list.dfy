/**
 * The device list view's hook (WebServer/src/hooks/device/useDeviceList.js): the statistics
 * over the devices held in the global context, the status/protocol/search filters, the sort by
 * a column (in place on the filtered array), the selection of devices by id, and the textual
 * description of the active filters.
 */
module DeviceList {
  import opened Wrappers
  import opened Text
  import opened Js

  // ---------------------------------------------------------------------------------------
  // Statistics

  /** The `stats` object: counts over the device list and the rounded connection rate. */
  datatype ListStats = ListStats(
    total: nat,
    connected: nat,
    disconnected: int,
    connectionRate: int,
    tcp: nat,
    rtu: nat)

  /**
   * `Math.round((connected / total) * 100)`, or 0 when there are no devices, computed on exact
   * rationals: the nearest integer to 100 * connected / total, halves rounding up.
   */
  function Rate(connected: nat, total: nat): (r: int)
    ensures total == 0 ==> r == 0
    ensures total > 0 ==> -(total as int) <= 2 * (100 * connected - total * r) < total
    ensures r >= 0
    ensures connected <= total ==> r <= 100
  {
    if total > 0 then
      var d := 2 * total;
      var r := (200 * connected + total) / d;
      RoundedQuotient(200 * connected + total, d, r);
      assert d * r == 2 * (total * r);
      assert connected <= total ==> r <= 100 by {
        if connected <= total {
          assert d * r <= 200 * connected + total < d * 101;
          ScaledLess(d, r, 101);
        }
      }
      r
    else 0
  }

  /** The quotient of a non-negative number leaves a remainder in [0, d). */
  lemma RoundedQuotient(q: int, d: int, r: int)
    requires q >= 0 && d > 0 && r == q / d
    ensures 0 <= q - d * r < d && r >= 0
  {
  }

  /** Multiplying by a positive number keeps a strict order. */
  lemma ScaledLess(d: int, a: int, b: int)
    requires d > 0 && d * a < d * b
    ensures a < b
  {
    assert d * (b - a) == d * b - d * a;
  }

  /** `xs?.filter(d => d.key === target).length || 0`. */
  function CountOf(devices: Option<seq<Val>>, key: string, target: Val): (r: Option<nat>)
    ensures r.None? <==> devices.Some? && Filter(devices.value, key, target, true).None?
    ensures devices.None? ==> r == Some(0)
    ensures r.Some? && devices.Some? ==> r.value == CountWhere(devices.value, Matching(key, target, true))
  {
    if devices.None? then Some(0)
    else
      var kept :- Filter(devices.value, key, target, true);
      Some(|kept|)
  }

  /**
   * The `stats` memo. `devices` is None when the context holds no list (undefined or null);
   * the result is None when a null or undefined entry makes a filter callback throw.
   */
  function Stats(devices: Option<seq<Val>>): (r: Option<ListStats>)
    ensures r.Some? ==> r.value.total == |devices.GetOr([])|
    ensures r.Some? ==>
      && r.value.connected == CountWhere(devices.GetOr([]), Matching("status", Str("Connected"), true))
      && r.value.tcp == CountWhere(devices.GetOr([]), Matching("protocol", Str("TCP"), true))
      && r.value.rtu == CountWhere(devices.GetOr([]), Matching("protocol", Str("RTU"), true))
  {
    var total := if devices.Some? then |devices.value| else 0;
    var connected := CountOf(devices, "status", Str("Connected"));
    var tcp := CountOf(devices, "protocol", Str("TCP"));
    var rtu := CountOf(devices, "protocol", Str("RTU"));
    if connected.None? || tcp.None? || rtu.None? then None
    else
      var n := connected.value;
      Some(ListStats(total, n, total - n, Rate(n, total), tcp.value, rtu.value))
  }

  /** Two filters on different values of one key never keep the same entry twice. */
  lemma {:induction false} DisjointFilters(xs: seq<Val>, key: string, a: Val, b: Val)
    requires a != b
    requires Filter(xs, key, a, true).Some?
    ensures |Filter(xs, key, a, true).value| + |Filter(xs, key, b, true).value| <= |xs|
  {
    if |xs| > 0 {
      DisjointFilters(xs[1..], key, a, b);
    }
  }

  /**
   * What the statistics promise: they exist exactly when no entry is null or undefined; the
   * connected and disconnected counts split the total; the rate is the rounded percentage of
   * connected devices, between 0 and 100; the connected, TCP and RTU counts are the numbers of
   * devices whose status is 'Connected' and whose protocol is 'TCP' and 'RTU'.
   */
  lemma StatsMeaning(devices: Option<seq<Val>>)
    ensures Stats(devices).None? <==>
      devices.Some? && exists j :: 0 <= j < |devices.value| && Nullish(devices.value[j])
    ensures Stats(devices).Some? ==>
      var s := Stats(devices).value;
      s.total == (if devices.Some? then |devices.value| else 0) &&
      s.connected + s.disconnected == s.total && 0 <= s.disconnected &&
      0 <= s.connectionRate <= 100 &&
      (s.total > 0 ==> -(s.total as int) <= 2 * (100 * s.connected - s.total * s.connectionRate) < s.total) &&
      s.tcp + s.rtu <= s.total &&
      s.connected == CountWhere(devices.GetOr([]), Matching("status", Str("Connected"), true)) &&
      s.tcp == CountWhere(devices.GetOr([]), Matching("protocol", Str("TCP"), true)) &&
      s.rtu == CountWhere(devices.GetOr([]), Matching("protocol", Str("RTU"), true))
  {
    if devices.Some? && Stats(devices).Some? {
      DisjointFilters(devices.value, "protocol", Str("TCP"), Str("RTU"));
    }
  }

  // ---------------------------------------------------------------------------------------
  // Filters

  /** `filterConfig`: 'all' or a value for status and protocol, and a free search text. */
  datatype FilterConfig = FilterConfig(status: string, protocol: string, search: string)

  const NoFilters := FilterConfig("all", "all", "")

  /** The stored status a status filter looks for. */
  function StatusWanted(status: string): string {
    if status == "connected" then "Connected" else "Disconnected"
  }

  /** `v?.toLowerCase().includes(q)` on a text field: a non-string value has no toLowerCase. */
  function TextHit(v: Val, q: string): (r: Option<bool>)
    ensures r.None? <==> !Nullish(v) && !v.Str?
    ensures Nullish(v) ==> r == Some(false)
    ensures v.Str? ==> r == Some(Contains(Lower(v.s), q))
  {
    if Nullish(v) then Some(false)
    else if v.Str? then Some(Contains(Lower(v.s), q))
    else None
  }

  /** `v?.includes(q)` on the IP address: strings search text, arrays look for an element. */
  function AddressHit(v: Val, q: string): (r: Option<bool>)
    ensures r.None? <==> !Nullish(v) && !v.Str? && !v.Arr?
    ensures Nullish(v) ==> r == Some(false)
    ensures v.Str? ==> r == Some(Contains(v.s, q))
    ensures v.Arr? ==> r == Some(Str(q) in v.items)
  {
    if Nullish(v) then Some(false)
    else if v.Str? then Some(Contains(v.s, q))
    else if v.Arr? then Some(Str(q) in v.items)
    else None
  }

  /** What each field the search looks at gives, in the order it is tried. */
  function FieldHits(d: Val, q: string): seq<Option<bool>> {
    [TextHit(OptProp(d, "deviceName"), q), TextHit(OptProp(d, "deviceType"), q),
     TextHit(OptProp(d, "description"), q), AddressHit(OptProp(d, "ipAddress"), q)]
  }

  /**
   * The search callback: name, type, description (lower-cased) and IP address, tried in order
   * and stopping at the first hit. Reading a field of a null or undefined entry throws. It
   * hits exactly when some field hits and every field tried before it misses; it misses
   * exactly when every field misses; otherwise a field threw before any hit.
   */
  function SearchHit(d: Val, q: string): (r: Option<bool>)
    ensures r == Some(true) <==>
      !Nullish(d) && exists i :: 0 <= i < 4 && FieldHits(d, q)[i] == Some(true)
                                 && forall j :: 0 <= j < i ==> FieldHits(d, q)[j] == Some(false)
    ensures r == Some(false) <==> !Nullish(d) && forall j :: 0 <= j < 4 ==> FieldHits(d, q)[j] == Some(false)
    ensures r == Some(true) ==>
      !Nullish(d) &&
      (TextHit(OptProp(d, "deviceName"), q) == Some(true) ||
       TextHit(OptProp(d, "deviceType"), q) == Some(true) ||
       TextHit(OptProp(d, "description"), q) == Some(true) ||
       AddressHit(OptProp(d, "ipAddress"), q) == Some(true))
    ensures Nullish(d) ==> r.None?
  {
    if Nullish(d) then None
    else
      // each field is read only when every earlier one missed
      var h := FieldHits(d, q);
      if h[0] != Some(false) then h[0]
      else if h[1] != Some(false) then h[1]
      else if h[2] != Some(false) then h[2]
      else h[3]
  }

  /** The search callback with its lower-cased query bound. */
  function SearchTest(q: string): Val -> Option<bool> {
    d => SearchHit(d, q)
  }

  /** An entry passes every active filter. */
  predicate Passes(d: Val, f: FilterConfig) {
    (f.status != "all" ==> Matches(d, "status", Str(StatusWanted(f.status)))) &&
    (f.protocol != "all" ==> Matches(d, "protocol", Str(f.protocol))) &&
    (f.search != "" ==> SearchHit(d, Lower(f.search)) == Some(true))
  }

  /** The three filters as tests on one entry; an inactive filter passes everything. */
  function StatusTest(f: FilterConfig): Val -> bool {
    d => f.status != "all" ==> Matches(d, "status", Str(StatusWanted(f.status)))
  }

  function ProtocolTest(f: FilterConfig): Val -> bool {
    d => f.protocol != "all" ==> Matches(d, "protocol", Str(f.protocol))
  }

  function SearchPasses(f: FilterConfig): Val -> bool {
    d => f.search != "" ==> SearchHit(d, Lower(f.search)) == Some(true)
  }

  function PassesTest(f: FilterConfig): Val -> bool {
    d => Passes(d, f)
  }

  /** The status step: `filter(d => d.status === wanted)` when the filter is set. */
  function ByStatus(all: seq<Val>, f: FilterConfig): (r: Option<seq<Val>>)
    ensures r.Some? ==> Selected(all, StatusTest(f), r.value)
    ensures r.Some? ==> |r.value| <= |all|
  {
    if f.status != "all" then
      var r := Filter(all, "status", Str(StatusWanted(f.status)), true);
      if r.Some? then
        SelectedSame(all, Matching("status", Str(StatusWanted(f.status)), true), StatusTest(f), r.value);
        r
      else r
    else
      SelectedAll(all, StatusTest(f));
      Some(all)
  }

  /** The protocol step: `filter(d => d.protocol === protocol)` when the filter is set. */
  function ByProtocol(all: seq<Val>, f: FilterConfig): (r: Option<seq<Val>>)
    ensures r.Some? ==> Selected(all, ProtocolTest(f), r.value)
    ensures r.Some? ==> |r.value| <= |all|
  {
    if f.protocol != "all" then
      var r := Filter(all, "protocol", Str(f.protocol), true);
      if r.Some? then
        SelectedSame(all, Matching("protocol", Str(f.protocol), true), ProtocolTest(f), r.value);
        r
      else r
    else
      SelectedAll(all, ProtocolTest(f));
      Some(all)
  }

  /** The search step: the search callback when a search text is set. */
  function BySearch(all: seq<Val>, f: FilterConfig): (r: Option<seq<Val>>)
    ensures r.Some? ==> Selected(all, SearchPasses(f), r.value)
    ensures r.Some? ==> |r.value| <= |all|
  {
    if f.search != "" then
      var r := Keep(all, SearchTest(Lower(f.search)));
      if r.Some? then
        SelectedSame(all, Accepted(SearchTest(Lower(f.search))), SearchPasses(f), r.value);
        r
      else r
    else
      SelectedAll(all, SearchPasses(f));
      Some(all)
  }

  /**
   * The filtering half of `filteredAndSortedDevices`: status, then protocol, then search. The
   * result is the devices that pass every active filter, in the context's order.
   */
  function Filtered(devices: Option<seq<Val>>, f: FilterConfig): (r: Option<seq<Val>>)
    ensures r.Some? ==> |r.value| <= |devices.GetOr([])|
    ensures r.Some? ==> Selected(devices.GetOr([]), PassesTest(f), r.value)
  {
    var all := devices.GetOr([]);
    var byStatus :- ByStatus(all, f);
    var byProtocol :- ByProtocol(byStatus, f);
    var bySearch :- BySearch(byProtocol, f);
    var both := d => StatusTest(f)(d) && ProtocolTest(f)(d);
    SelectedThen(all, StatusTest(f), byStatus, ProtocolTest(f), byProtocol, both);
    SelectedThen(all, both, byProtocol, SearchPasses(f), bySearch, PassesTest(f));
    Some(bySearch)
  }

  /** The filtered list holds exactly the devices that pass every active filter. */
  lemma FilteredMembers(devices: Option<seq<Val>>, f: FilterConfig)
    requires Filtered(devices, f).Some?
    ensures forall v :: v in Filtered(devices, f).value <==> v in devices.GetOr([]) && Passes(v, f)
  {
  }

  /** With no filter active every device is listed, in the context's order. */
  lemma NoFiltersKeepAll(devices: Option<seq<Val>>)
    ensures Filtered(devices, NoFilters) == Some(devices.GetOr([]))
  {
  }

  // ---------------------------------------------------------------------------------------
  // Sorting

  datatype Direction = Asc | Desc

  /** `sortConfig`: the column and the direction. */
  datatype SortConfig = SortConfig(key: string, direction: Direction)

  /** JavaScript's `<` on two strings: lexicographic on characters. */
  predicate StrLess(x: string, y: string)
    decreases |x|
  {
    if |y| == 0 then false
    else if |x| == 0 then true
    else if x[0] != y[0] then x[0] < y[0]
    else StrLess(x[1..], y[1..])
  }

  lemma {:induction false} StrLessAsymmetric(x: string, y: string)
    ensures !(StrLess(x, y) && StrLess(y, x))
    decreases |x|
  {
    if |x| > 0 && |y| > 0 && x[0] == y[0] {
      StrLessAsymmetric(x[1..], y[1..]);
    }
  }

  lemma {:induction false} StrLessIrreflexive(x: string)
    ensures !StrLess(x, x)
    decreases |x|
  {
    if |x| > 0 {
      StrLessIrreflexive(x[1..]);
    }
  }

  /**
   * ToPrimitive with the number hint, as `<` applies it: a plain object becomes the string
   * "[object Object]"; every other value is kept.
   */
  function Primitive(v: Val): Val {
    if v.Obj? then Str("[object Object]") else v
  }

  /**
   * `a < b`: both sides are made primitive first; two strings compare as text, anything else
   * numerically (an object reads as NaN, and NaN compares false).
   */
  predicate LessThan(c: Coercion, a: Val, b: Val) {
    var pa := Primitive(a);
    var pb := Primitive(b);
    if pa.Str? && pb.Str? then StrLess(pa.s, pb.s)
    else
      var x := ToNumber(c, a);
      var y := ToNumber(c, b);
      x.Some? && y.Some? && x.value < y.value
  }

  /** `<` never holds both ways, nor of a value and itself. */
  lemma LessThanStrict(c: Coercion, a: Val, b: Val)
    ensures !(LessThan(c, a, b) && LessThan(c, b, a))
    ensures !LessThan(c, a, a)
  {
    var pa := Primitive(a);
    var pb := Primitive(b);
    if pa.Str? && pb.Str? {
      StrLessAsymmetric(pa.s, pb.s);
    }
    if pa.Str? {
      StrLessIrreflexive(pa.s);
    }
  }

  predicate IsConnected(d: Val) {
    StrictEq(OptProp(d, "status"), Str("Connected"))
  }

  /** The value a row is sorted by: its column, or 1/0 for connected/not on the status column. */
  function SortValue(key: string, d: Val): Val {
    if key == "status" then Num(if IsConnected(d) then 1.0 else 0.0)
    else OptProp(d, key)
  }

  /** The comparator handed to `sort`: negative when `a` goes first, positive when `b` does. */
  function Compare(c: Coercion, s: SortConfig, a: Val, b: Val): (r: int)
    ensures r == 0 || r == 1 || r == -1
    ensures var x := SortValue(s.key, a);
            var y := SortValue(s.key, b);
            && (r < 0 <==> if s.direction == Asc then LessThan(c, x, y) else LessThan(c, y, x))
            && (r > 0 <==> if s.direction == Asc then LessThan(c, y, x) else LessThan(c, x, y))
  {
    var x := SortValue(s.key, a);
    var y := SortValue(s.key, b);
    LessThanStrict(c, x, y);
    if LessThan(c, x, y) then (if s.direction == Asc then -1 else 1)
    else if LessThan(c, y, x) then (if s.direction == Asc then 1 else -1)
    else 0
  }

  /** The comparator is antisymmetric: swapping its arguments flips its sign. */
  lemma CompareFlips(c: Coercion, s: SortConfig, a: Val, b: Val)
    ensures Compare(c, s, a, b) == -Compare(c, s, b, a)
  {
    LessThanStrict(c, SortValue(s.key, a), SortValue(s.key, b));
  }

  /** The comparator as a value, as `sort` receives it. */
  function Comparator(c: Coercion, s: SortConfig): (Val, Val) -> int {
    (x, y) => Compare(c, s, x, y)
  }

  /** A comparator that flips its sign when its arguments are swapped. */
  ghost predicate Antisymmetric(cmp: (Val, Val) -> int) {
    forall x, y :: cmp(x, y) == -cmp(y, x)
  }

  lemma ComparatorAntisymmetric(c: Coercion, s: SortConfig)
    ensures Antisymmetric(Comparator(c, s))
  {
    forall x, y {
      CompareFlips(c, s, x, y);
    }
  }

  /** Every neighbouring pair is in the comparator's order. */
  predicate OrderedBy(cmp: (Val, Val) -> int, xs: seq<Val>) {
    forall i :: 0 < i < |xs| ==> cmp(xs[i - 1], xs[i]) <= 0
  }

  predicate Ordered(c: Coercion, s: SortConfig, xs: seq<Val>) {
    OrderedBy(Comparator(c, s), xs)
  }

  /** `filtered.sort(comparator)`, in place. */
  method SortInPlace(c: Coercion, s: SortConfig, a: array<Val>)
    modifies a
    ensures multiset(a[..]) == multiset(old(a[..]))
    ensures Ordered(c, s, a[..])
  {
    ComparatorAntisymmetric(c, s);
    InsertionSort(Comparator(c, s), a);
  }

  /** An insertion sort by neighbouring swaps, for any antisymmetric comparator. */
  method InsertionSort(cmp: (Val, Val) -> int, a: array<Val>)
    requires Antisymmetric(cmp)
    modifies a
    ensures multiset(a[..]) == multiset(old(a[..]))
    ensures OrderedBy(cmp, a[..])
  {
    var i := 0;
    while i < a.Length
      invariant 0 <= i <= a.Length
      invariant multiset(a[..]) == multiset(old(a[..]))
      invariant forall k :: 0 < k < i ==> cmp(a[k - 1], a[k]) <= 0
    {
      Sink(cmp, a, i);
      i := i + 1;
    }
  }

  /** One insertion step: moves a[i] down past every neighbour the comparator puts after it. */
  method Sink(cmp: (Val, Val) -> int, a: array<Val>, i: nat)
    requires Antisymmetric(cmp)
    requires i < a.Length
    requires forall k :: 0 < k < i ==> cmp(a[k - 1], a[k]) <= 0
    modifies a
    ensures multiset(a[..]) == multiset(old(a[..]))
    ensures forall k :: 0 < k <= i ==> cmp(a[k - 1], a[k]) <= 0
  {
    var j := i;
    while j > 0 && cmp(a[j - 1], a[j]) > 0
      invariant 0 <= j <= i
      invariant multiset(a[..]) == multiset(old(a[..]))
      invariant forall k :: 0 < k <= i && k != j ==> cmp(a[k - 1], a[k]) <= 0
      invariant 0 < j < i ==> cmp(a[j - 1], a[j + 1]) <= 0
    {
      SwapDown(cmp, a, i, j);
      j := j - 1;
    }
  }

  /** Swaps the out-of-order pair at j - 1 and j, moving the gap in the order down by one. */
  method SwapDown(cmp: (Val, Val) -> int, a: array<Val>, i: nat, j: nat)
    requires Antisymmetric(cmp)
    requires 0 < j <= i < a.Length
    requires cmp(a[j - 1], a[j]) > 0
    requires forall k :: 0 < k <= i && k != j ==> cmp(a[k - 1], a[k]) <= 0
    requires j < i ==> cmp(a[j - 1], a[j + 1]) <= 0
    modifies a
    ensures multiset(a[..]) == multiset(old(a[..]))
    ensures forall k :: 0 < k <= i && k != j - 1 ==> cmp(a[k - 1], a[k]) <= 0
    ensures 0 < j - 1 < i ==> cmp(a[j - 2], a[j]) <= 0
  {
    ghost var before := a[..];
    a[j - 1], a[j] := a[j], a[j - 1];
    SinkStep(cmp, before, a[..], i, j);
  }

  /** Swapping an out-of-order neighbouring pair moves the gap in the order one place down. */
  lemma SinkStep(cmp: (Val, Val) -> int, before: seq<Val>, after: seq<Val>, i: nat, j: nat)
    requires Antisymmetric(cmp)
    requires 0 < j <= i < |before|
    requires after == before[j - 1 := before[j]][j := before[j - 1]]
    requires cmp(before[j - 1], before[j]) > 0
    requires forall k :: 0 < k <= i && k != j ==> cmp(before[k - 1], before[k]) <= 0
    requires j < i ==> cmp(before[j - 1], before[j + 1]) <= 0
    ensures multiset(after) == multiset(before)
    ensures forall k :: 0 < k <= i && k != j - 1 ==> cmp(after[k - 1], after[k]) <= 0
    ensures 0 < j - 1 < i ==> cmp(after[j - 2], after[j]) <= 0
  {
    assert cmp(before[j], before[j - 1]) < 0;
  }

  /** One neighbouring pair sorted by status: a connected device is followed by another. */
  lemma StatusStep(c: Coercion, dir: Direction, x: Val, y: Val)
    requires Compare(c, SortConfig("status", dir), x, y) <= 0
    ensures dir == Asc && IsConnected(x) ==> IsConnected(y)
    ensures dir == Desc && IsConnected(y) ==> IsConnected(x)
  {
  }

  /**
   * Sorting by the status column groups the devices: ascending puts every disconnected
   * device before every connected one, descending the other way round.
   */
  lemma {:induction false} StatusSortGroups(c: Coercion, dir: Direction, xs: seq<Val>)
    requires Ordered(c, SortConfig("status", dir), xs)
    ensures forall i, j :: 0 <= i < j < |xs| && dir == Asc && IsConnected(xs[i]) ==> IsConnected(xs[j])
    ensures forall i, j :: 0 <= i < j < |xs| && dir == Desc && IsConnected(xs[j]) ==> IsConnected(xs[i])
  {
    forall i, j | 0 <= i < j < |xs|
      ensures dir == Asc && IsConnected(xs[i]) ==> IsConnected(xs[j])
      ensures dir == Desc && IsConnected(xs[j]) ==> IsConnected(xs[i])
    {
      var k := i;
      while k < j
        invariant i <= k <= j
        invariant dir == Asc && IsConnected(xs[i]) ==> IsConnected(xs[k])
      {
        StatusStep(c, dir, xs[k], xs[k + 1]);
        k := k + 1;
      }
      k := j;
      while k > i
        invariant i <= k <= j
        invariant dir == Desc && IsConnected(xs[j]) ==> IsConnected(xs[k])
      {
        StatusStep(c, dir, xs[k - 1], xs[k]);
        k := k - 1;
      }
    }
  }

  /**
   * The entries `sort` hands to the comparator: every entry but `undefined`, in order. The
   * engine moves `undefined` entries to the end without comparing them.
   */
  function Defined(xs: seq<Val>): (r: seq<Val>)
    ensures Undefined !in r
    ensures |r| <= |xs|
    ensures multiset(r) + multiset(Undefineds(|xs| - |r|)) == multiset(xs)
  {
    if xs == [] then []
    else
      var rest := Defined(xs[1..]);
      DefinedStep(xs, rest);
      if xs[0] == Undefined then rest else [xs[0]] + rest
  }

  /** One step of Defined: a dropped `undefined` moves to the trailing run, any other value stays. */
  lemma DefinedStep(xs: seq<Val>, rest: seq<Val>)
    requires xs != [] && |rest| <= |xs| - 1
    requires multiset(rest) + multiset(Undefineds(|xs| - 1 - |rest|)) == multiset(xs[1..])
    ensures xs[0] == Undefined ==>
      multiset(rest) + multiset(Undefineds(|xs| - |rest|)) == multiset(xs)
    ensures xs[0] != Undefined ==>
      multiset([xs[0]] + rest) + multiset(Undefineds(|xs| - 1 - |rest|)) == multiset(xs)
  {
    var gap := Undefineds(|xs| - 1 - |rest|);
    assert xs == [xs[0]] + xs[1..];
    assert multiset(xs) == multiset{xs[0]} + multiset(xs[1..]);
    if xs[0] == Undefined {
      assert Undefineds(|xs| - |rest|) == [Undefined] + gap;
    } else {
      assert multiset([xs[0]] + rest) == multiset{xs[0]} + multiset(rest);
    }
  }

  /** `n` undefined entries. */
  function Undefineds(n: nat): (r: seq<Val>)
    ensures |r| == n && forall i :: 0 <= i < n ==> r[i] == Undefined
  {
    seq(n, _ => Undefined)
  }

  /**
   * The comparator reads `a[key]` (or `a.status`), which throws on `null`; a correct sort of two
   * or more compared entries compares each of them at least once.
   */
  predicate ComparatorThrows(xs: seq<Val>) {
    Null in xs && |Defined(xs)| >= 2
  }

  /** Dropping `undefined` keeps every other value's membership. */
  lemma DefinedKeeps(xs: seq<Val>, v: Val)
    requires v != Undefined
    ensures v in Defined(xs) <==> v in xs
  {
    var defined := Defined(xs);
    assert multiset(xs)[v] == multiset(defined)[v] + multiset(Undefineds(|xs| - |defined|))[v];
    assert v !in Undefineds(|xs| - |defined|);
  }

  /**
   * `xs.sort(comparator)` on a list whose comparator does not throw: the compared entries in the
   * comparator's order, then the `undefined` entries.
   */
  method SortDefinedFirst(c: Coercion, s: SortConfig, xs: seq<Val>) returns (r: seq<Val>)
    ensures multiset(r) == multiset(xs)
    ensures |Defined(xs)| <= |r|
    ensures Ordered(c, s, r[..|Defined(xs)|]) && Undefined !in r[..|Defined(xs)|]
    ensures forall i :: |Defined(xs)| <= i < |r| ==> r[i] == Undefined
  {
    var defined := Defined(xs);
    var a := new Val[|defined|](i requires 0 <= i < |defined| => defined[i]);
    assert a[..] == defined;
    SortInPlace(c, s, a);
    var sorted := a[..];
    assert Undefined !in sorted by {
      assert multiset(sorted)[Undefined] == multiset(defined)[Undefined] == 0;
    }
    r := sorted + Undefineds(|xs| - |defined|);
    assert r[..|defined|] == sorted;
  }

  /**
   * The `filteredAndSortedDevices` memo: the filtered list sorted with its `undefined` entries
   * last; None when a filter callback or the comparator throws.
   */
  method FilteredAndSorted(c: Coercion, devices: Option<seq<Val>>, f: FilterConfig, s: SortConfig)
    returns (r: Option<seq<Val>>)
    ensures r.None? <==> Filtered(devices, f).None? || ComparatorThrows(Filtered(devices, f).value)
    ensures r.Some? ==> multiset(r.value) == multiset(Filtered(devices, f).value)
    ensures r.Some? ==>
      var n := |Defined(Filtered(devices, f).value)|;
      && n <= |r.value|
      && Ordered(c, s, r.value[..n])
      && Undefined !in r.value[..n]
      && forall i :: n <= i < |r.value| ==> r.value[i] == Undefined
  {
    var filtered := Filtered(devices, f);
    if filtered.None? {
      return None;
    }
    var xs := filtered.value;
    if Null in xs && |Defined(xs)| >= 2 {
      return None;
    }
    var sorted := SortDefinedFirst(c, s, xs);
    r := Some(sorted);
  }

  /**
   * Only the unfiltered list can make the comparator throw: every active filter reads a field
   * of each entry, so a `null` entry has already made the filter throw.
   */
  lemma OnlyUnfilteredListThrows(devices: Option<seq<Val>>, f: FilterConfig)
    requires f != NoFilters
    requires Filtered(devices, f).Some?
    ensures !ComparatorThrows(Filtered(devices, f).value)
  {
    FilteredMembers(devices, f);
  }

  /** The next sort after a click on a column: the same column toggles asc to desc. */
  function NextSort(prev: SortConfig, key: string): (r: SortConfig)
    ensures r.key == key
    ensures r.direction == Desc <==> prev.key == key && prev.direction == Asc
  {
    SortConfig(key, if prev.key == key && prev.direction == Asc then Desc else Asc)
  }

  // ---------------------------------------------------------------------------------------
  // Filter changes and their description

  /** `{...prev, [type]: value}`: only the named filter changes; other names add no filter. */
  function ChangedFilter(prev: FilterConfig, kind: string, value: string): (r: FilterConfig)
    ensures kind == "status" ==> r == prev.(status := value)
    ensures kind == "protocol" ==> r == prev.(protocol := value)
    ensures kind == "search" ==> r == prev.(search := value)
    ensures kind !in {"status", "protocol", "search"} ==> r == prev
  {
    match kind
    case "status" => prev.(status := value)
    case "protocol" => prev.(protocol := value)
    case "search" => prev.(search := value)
    case _ => prev
  }

  /** The pieces of `getFilterDescription`, one per active filter. */
  function DescriptionParts(f: FilterConfig): seq<string> {
    (if f.status != "all" then ["Estado: " + f.status] else [])
    + (if f.protocol != "all" then ["Protocolo: " + f.protocol] else [])
    + (if f.search != "" then ["Búsqueda: \"" + f.search + "\""] else [])
  }

  /** `[x]` when `present`, nothing otherwise. */
  function Optional(present: bool, x: string): seq<string> {
    if present then [x] else []
  }

  /** The text of up to three optional pieces with ", " between neighbouring present ones. */
  function Spaced(s: bool, S: string, p: bool, P: string, b: bool, B: string): string {
    (if s then S else "") + (if s && (p || b) then ", " else "") + (if p then P else "")
    + (if p && b then ", " else "") + (if b then B else "")
  }

  /** Joining two optional pieces puts ", " between them when both are present. */
  lemma JoinOptionalPair(p: bool, P: string, b: bool, B: string)
    ensures JoinWith(Optional(p, P) + Optional(b, B), ", ")
            == (if p then P else "") + (if p && b then ", " else "") + (if b then B else "")
  {
    var parts := Optional(p, P) + Optional(b, B);
    if p && b {
      assert parts == [P, B];
      JoinTwo(P, B, ", ");
    } else if p {
      assert parts == [P];
    } else if b {
      assert parts == [B];
    }
  }

  /** A present first piece followed by at least one more: ", " follows it. */
  lemma JoinOptionalFront(S: string, p: bool, P: string, b: bool, B: string)
    requires p || b
    ensures JoinWith(Optional(true, S) + Optional(p, P) + Optional(b, B), ", ") == Spaced(true, S, p, P, b, B)
  {
    var rest := Optional(p, P) + Optional(b, B);
    JoinOptionalPair(p, P, b, B);
    assert Optional(true, S) + Optional(p, P) + Optional(b, B) == [S] + rest;
    JoinFront(S, rest, ", ");
  }

  /** Joining up to three optional pieces puts ", " exactly between neighbouring present ones. */
  lemma JoinOptional(s: bool, S: string, p: bool, P: string, b: bool, B: string)
    ensures JoinWith(Optional(s, S) + Optional(p, P) + Optional(b, B), ", ") == Spaced(s, S, p, P, b, B)
  {
    if s && (p || b) {
      JoinOptionalFront(S, p, P, b, B);
    } else if s {
      assert Optional(s, S) + Optional(p, P) + Optional(b, B) == [S];
    } else {
      JoinOptionalPair(p, P, b, B);
      assert Optional(s, S) + Optional(p, P) + Optional(b, B) == Optional(p, P) + Optional(b, B);
    }
  }

  /** The joined description, written out for each combination of active filters. */
  lemma DescriptionText(f: FilterConfig)
    ensures var s, p, b := f.status != "all", f.protocol != "all", f.search != "";
            var S, P, B := "Estado: " + f.status, "Protocolo: " + f.protocol, "Búsqueda: \"" + f.search + "\"";
            JoinWith(DescriptionParts(f), ", ")
            == (if s then S else "") + (if s && (p || b) then ", " else "") + (if p then P else "")
               + (if p && b then ", " else "") + (if b then B else "")
  {
    var s, p, b := f.status != "all", f.protocol != "all", f.search != "";
    var S, P, B := "Estado: " + f.status, "Protocolo: " + f.protocol, "Búsqueda: \"" + f.search + "\"";
    assert DescriptionParts(f) == Optional(s, S) + Optional(p, P) + Optional(b, B);
    JoinOptional(s, S, p, P, b, B);
  }

  /**
   * `getFilterDescription()`: the active filters joined by ", ", or "Sin filtros". It reads
   * "Sin filtros" exactly when no filter is active, and otherwise opens with the first
   * active filter in the order status, protocol, search; the full text holds every active
   * phrase in that order, one ", " between neighbours, and no phrase of an inactive filter.
   */
  function FilterDescription(f: FilterConfig): (r: string)
    ensures r == "Sin filtros" <==> f == NoFilters
    ensures f.status != "all" ==> "Estado: " + f.status <= r
    ensures f.status == "all" && f.protocol != "all" ==> "Protocolo: " + f.protocol <= r
    ensures f.status == "all" && f.protocol == "all" && f.search != "" ==> "Búsqueda: \"" + f.search + "\"" <= r
    ensures var s, p, b := f.status != "all", f.protocol != "all", f.search != "";
            f != NoFilters ==>
              r == (if s then "Estado: " + f.status else "")
                   + (if s && (p || b) then ", " else "")
                   + (if p then "Protocolo: " + f.protocol else "")
                   + (if p && b then ", " else "")
                   + (if b then "Búsqueda: \"" + f.search + "\"" else "")
  {
    var parts := DescriptionParts(f);
    if |parts| > 0 then
      JoinWithStartsWithFirst(parts, ", ");
      DescriptionText(f);
      var d := JoinWith(parts, ", ");
      assert d[0] == parts[0][0];
      assert parts[0][0] in {'E', 'P', 'B'};
      assert "Sin filtros"[0] == 'S';
      d
    else "Sin filtros"
  }

  // ---------------------------------------------------------------------------------------
  // Selection

  /** `toggleDeviceSelection`: the id leaves the set if it was in it, joins it otherwise. */
  function Toggled(selected: set<Val>, id: Val): (r: set<Val>)
    ensures id in r <==> id !in selected
    ensures forall x :: x != id ==> (x in r <==> x in selected)
  {
    if id in selected then selected - {id} else selected + {id}
  }

  /** Toggling the same device twice restores the selection. */
  lemma ToggleTwice(selected: set<Val>, id: Val)
    ensures Toggled(Toggled(selected, id), id) == selected
  {
  }

  /** `new Set(visible.map(d => d.id))`; reading `id` of a null or undefined entry throws. */
  function IdsOf(visible: seq<Val>): (r: Option<set<Val>>)
    ensures r.None? <==> exists j :: 0 <= j < |visible| && Nullish(visible[j])
    ensures r.Some? ==> forall i :: 0 <= i < |visible| ==> OptProp(visible[i], "id") in r.value
    ensures r.Some? ==> |r.value| <= |visible|
  {
    if |visible| == 0 then Some({})
    else if Nullish(visible[0]) then None
    else
      var rest := IdsOf(visible[1..]);
      assert (exists j :: 0 <= j < |visible| && Nullish(visible[j])) <==>
             (exists j :: 0 <= j < |visible| - 1 && Nullish(visible[1..][j])) by {
        if exists j :: 0 <= j < |visible| && Nullish(visible[j]) {
          var j :| 0 <= j < |visible| && Nullish(visible[j]);
          assert Nullish(visible[1..][j - 1]);
        }
      }
      if rest.None? then None
      else
        assert forall i :: 1 <= i < |visible| ==> visible[i] == visible[1..][i - 1];
        Some({OptProp(visible[0], "id")} + rest.value)
  }

  /** Every id of the set belongs to some visible device. */
  lemma {:induction false} IdsOfOnlyVisible(visible: seq<Val>)
    requires IdsOf(visible).Some?
    ensures forall x :: x in IdsOf(visible).value ==>
      exists i :: 0 <= i < |visible| && OptProp(visible[i], "id") == x
  {
    if |visible| > 0 {
      IdsOfOnlyVisible(visible[1..]);
      forall x | x in IdsOf(visible).value
        ensures exists i :: 0 <= i < |visible| && OptProp(visible[i], "id") == x
      {
        if x != OptProp(visible[0], "id") {
          var i :| 0 <= i < |visible| - 1 && OptProp(visible[1..][i], "id") == x;
          assert OptProp(visible[i + 1], "id") == x;
        }
      }
    }
  }

  /** `selectionState`. */
  datatype Selection = Selection(
    selectedCount: nat,
    totalCount: nat,
    isAllSelected: bool,
    isPartiallySelected: bool,
    hasSelection: bool)

  function SelectionOf(selected: set<Val>, visible: seq<Val>): (r: Selection)
    ensures r.selectedCount == |selected| && r.totalCount == |visible|
    ensures r.isAllSelected <==> |selected| == |visible| > 0
    ensures r.isPartiallySelected <==> 0 < |selected| < |visible|
    ensures r.hasSelection <==> selected != {}
    ensures !(r.isAllSelected && r.isPartiallySelected)
  {
    var n := |selected|;
    var total := |visible|;
    Selection(n, total, n == total && total > 0, n > 0 && n < total, n > 0)
  }

  /** The list view's own state: the selected ids, the sort and the filters. */
  class DeviceListView {
    var selected: set<Val>
    var sort: SortConfig
    var filter: FilterConfig

    /** The initial state: nothing selected, sorted by name ascending, no filter. */
    constructor()
      ensures selected == {} && sort == SortConfig("deviceName", Asc) && filter == NoFilters
    {
      selected := {};
      sort := SortConfig("deviceName", Asc);
      filter := NoFilters;
    }

    method ToggleDeviceSelection(id: Val)
      modifies this
      ensures selected == Toggled(old(selected), id)
      ensures sort == old(sort) && filter == old(filter)
    {
      if id in selected {
        selected := selected - {id};
      } else {
        selected := selected + {id};
      }
    }

    /** `isDeviceSelected`. */
    function IsDeviceSelected(id: Val): (r: bool)
      reads this
      ensures r <==> id in selected
    {
      id in selected
    }

    /**
     * `toggleSelectAll` over the visible (filtered and sorted) devices: clears the selection
     * when its size equals the number shown, selects every shown id otherwise. `ok` is false
     * when reading an id throws, and the selection is then kept.
     */
    method ToggleSelectAll(visible: seq<Val>) returns (ok: bool)
      modifies this
      ensures |old(selected)| == |visible| ==> ok && selected == {}
      ensures |old(selected)| != |visible| ==>
        (ok <==> IdsOf(visible).Some?) &&
        selected == (if ok then IdsOf(visible).value else old(selected))
      ensures sort == old(sort) && filter == old(filter)
    {
      if |selected| == |visible| {
        selected := {};
        return true;
      }
      var ids := IdsOf(visible);
      if ids.None? {
        return false;
      }
      selected := ids.value;
      ok := true;
    }

    method HandleSort(key: string)
      modifies this
      ensures sort == NextSort(old(sort), key)
      ensures selected == old(selected) && filter == old(filter)
    {
      var direction := if sort.key == key && sort.direction == Asc then Desc else Asc;
      sort := SortConfig(key, direction);
    }

    method HandleFilterChange(kind: string, value: string)
      modifies this
      ensures filter == ChangedFilter(old(filter), kind, value)
      ensures selected == old(selected) && sort == old(sort)
    {
      if kind == "status" {
        filter := filter.(status := value);
      } else if kind == "protocol" {
        filter := filter.(protocol := value);
      } else if kind == "search" {
        filter := filter.(search := value);
      }
    }

    method ClearFilters()
      modifies this
      ensures filter == NoFilters
      ensures selected == old(selected) && sort == old(sort)
    {
      filter := NoFilters;
    }
  }

  /**
   * Selecting all the shown devices whose ids are distinct marks them all selected, so the
   * next toggle clears the selection again.
   */
  lemma {:induction false} SelectAllThenClear(visible: seq<Val>)
    requires IdsOf(visible).Some?
    requires forall i, j :: 0 <= i < j < |visible| ==> OptProp(visible[i], "id") != OptProp(visible[j], "id")
    ensures |IdsOf(visible).value| == |visible|
    ensures SelectionOf(IdsOf(visible).value, visible).isAllSelected <==> |visible| > 0
  {
    if |visible| > 0 {
      assert forall i, j :: 0 <= i < j < |visible| - 1 ==>
        OptProp(visible[1..][i], "id") != OptProp(visible[1..][j], "id") by {
        forall i, j | 0 <= i < j < |visible| - 1
          ensures OptProp(visible[1..][i], "id") != OptProp(visible[1..][j], "id")
        {
          assert visible[1..][i] == visible[i + 1] && visible[1..][j] == visible[j + 1];
        }
      }
      SelectAllThenClear(visible[1..]);
      IdsOfOnlyVisible(visible[1..]);
      var first := OptProp(visible[0], "id");
      forall i | 0 <= i < |visible| - 1
        ensures OptProp(visible[1..][i], "id") != first
      {
        assert visible[1..][i] == visible[i + 1];
      }
    }
  }
}
