// The admin dashboard's chart data (src/components/admin/dashboard-client.tsx):
// detections per hour of the day, and the tooltip's wording.

module Dashboard {
  import opened Common

  // ---------------------------------------------------------------------
  // Hour names

  /** `i.toString().padStart(2, '0')` for an hour of the day. */
  function HourName(i: nat): (r: string)
    requires i < 24
    ensures |r| == 2 && IsDigit(r[0]) && IsDigit(r[1])
    ensures 10 * DigitValue(r[0]) + DigitValue(r[1]) == i
  {
    [DigitChar(i / 10), DigitChar(i % 10)]
  }

  /** The hour a two-digit name stands for, if it names one. */
  function HourIndex(k: string): (r: Option<nat>)
    ensures r.Some? ==> r.value < 24 && HourName(r.value) == k
  {
    if |k| == 2 && IsDigit(k[0]) && IsDigit(k[1]) && 10 * DigitValue(k[0]) + DigitValue(k[1]) < 24
    then
      var i := 10 * DigitValue(k[0]) + DigitValue(k[1]);
      assert HourName(i) == k by {
        DigitCharValue(k[0]);
        DigitCharValue(k[1]);
      }
      Some(i)
    else None
  }

  lemma {:induction false} DigitCharValue(c: char)
    requires IsDigit(c)
    ensures DigitChar(DigitValue(c)) == c
  {
  }

  /** Every hour's name is read back as that hour. */
  lemma {:induction false} HourIndexOfName(i: nat)
    requires i < 24
    ensures HourIndex(HourName(i)) == Some(i)
  {
  }

  /** The names ascend with the hours, so sorting the 24 entries by name
      (the final `sort` with `localeCompare`, which orders two-digit
      strings by their digits) keeps the order in which they were
      created. */
  lemma {:induction false} HourNamesAscend(i: nat, j: nat)
    requires i < j < 24
    ensures LexLess(HourName(i), HourName(j))
  {
    var a := HourName(i);
    var b := HourName(j);
    if a[0] == b[0] {
      assert a[1..][0] == a[1] && b[1..][0] == b[1];
      assert LexLess(a[1..], b[1..]);
    }
  }

  // ---------------------------------------------------------------------
  // Bucketing

  /** An element of `stats.detectionsByHour`: its `hour` when that is a
      string, and its `count`; `NotAnItem` is a null entry. */
  datatype HourItem = HourItem(hour: Option<string>, count: int) | NotAnItem

  datatype HourlyBar = HourlyBar(name: string, count: int)

  /** `item.hour.substring(0, 2)`. */
  function HourKey(hour: string): string
  {
    if |hour| <= 2 then hour else hour[..2]
  }

  /** The count of the last item whose key is `k`. */
  function LastCount(items: seq<HourItem>, k: string): Option<int>
  {
    if items == [] then None
    else
      var last := items[|items| - 1];
      if last.HourItem? && last.hour.Some? && HourKey(last.hour.value) == k then Some(last.count)
      else LastCount(items[..|items| - 1], k)
  }

  /** The bar height for hour `i`: the last matching item's count, or 0. */
  function Bucket(items: seq<HourItem>, i: nat): int
    requires i < 24
  {
    match LastCount(items, HourName(i))
    case Some(c) => c
    case None => 0
  }

  /** Does `item` set the bucket named `k`? */
  predicate Sets(item: HourItem, k: string)
  {
    item.HourItem? && item.hour.Some? && HourKey(item.hour.value) == k
  }

  /** A later item for an hour overrides every earlier one, and leaves
      every other hour alone. */
  lemma {:induction false} LaterItemWins(items: seq<HourItem>, item: HourItem, i: nat)
    requires i < 24
    ensures Bucket(items + [item], i) == if Sets(item, HourName(i)) then item.count else Bucket(items, i)
  {
    assert (items + [item])[..|items|] == items;
  }

  /** An item whose hour does not start with an hour's name, or a null
      entry, changes no bar. */
  lemma {:induction false} StrayItemIgnored(items: seq<HourItem>, item: HourItem, i: nat)
    requires i < 24
    requires item.HourItem? && item.hour.Some? ==> HourIndex(HourKey(item.hour.value)).None?
    ensures Bucket(items + [item], i) == Bucket(items, i)
  {
    LaterItemWins(items, item, i);
    if Sets(item, HourName(i)) {
      HourIndexOfName(i);
    }
  }

  /** The names of the hours below `n`. */
  ghost function HourNamesBelow(n: nat): set<string>
    requires n <= 24
  {
    set j | 0 <= j < n :: HourName(j)
  }

  /** The 24 buckets, named `"00"` to `"23"`, each at 0. */
  method EmptyBuckets() returns (hourlyMap: map<string, int>)
    ensures hourlyMap.Keys == HourNamesBelow(24)
    ensures forall j :: 0 <= j < 24 ==> hourlyMap[HourName(j)] == 0
  {
    hourlyMap := map[];
    var i := 0;
    while i < 24
      invariant 0 <= i <= 24
      invariant hourlyMap.Keys == HourNamesBelow(i)
      invariant forall j :: 0 <= j < i ==> hourlyMap[HourName(j)] == 0
    {
      assert HourNamesBelow(i + 1) == HourNamesBelow(i) + {HourName(i)};
      hourlyMap := hourlyMap[HourName(i) := 0];
      i := i + 1;
    }
  }

  /** `data.forEach(...)`: each item with a string hour sets the bucket its
      first two characters name, if there is one. */
  method FillBuckets(items: seq<HourItem>, empty: map<string, int>) returns (hourlyMap: map<string, int>)
    requires empty.Keys == HourNamesBelow(24)
    requires forall j :: 0 <= j < 24 ==> empty[HourName(j)] == 0
    ensures hourlyMap.Keys == HourNamesBelow(24)
    ensures forall j :: 0 <= j < 24 ==> hourlyMap[HourName(j)] == Bucket(items, j)
  {
    hourlyMap := empty;
    var n := 0;
    while n < |items|
      invariant 0 <= n <= |items|
      invariant hourlyMap.Keys == HourNamesBelow(24)
      invariant forall j :: 0 <= j < 24 ==> hourlyMap[HourName(j)] == Bucket(items[..n], j)
    {
      var item := items[n];
      assert items[..n + 1] == items[..n] + [item];
      if item.HourItem? && item.hour.Some? {
        var hourKey := HourKey(item.hour.value);
        if hourKey in hourlyMap {
          hourlyMap := hourlyMap[hourKey := item.count];
        }
      }
      forall j | 0 <= j < 24
        ensures hourlyMap[HourName(j)] == Bucket(items[..n + 1], j)
      {
        LaterItemWins(items[..n], item, j);
      }
      n := n + 1;
    }
    assert items[..|items|] == items;
  }

  /** `processHourlyData(data)`: fill 24 buckets with 0, let each item set
      its bucket, and list the buckets by name. `None` stands for undefined
      or non-array data. */
  method ProcessHourlyData(data: Option<seq<HourItem>>) returns (chart: seq<HourlyBar>)
    ensures |chart| == 24
    ensures forall i :: 0 <= i < 24 ==> chart[i].name == HourName(i)
    ensures forall i :: 0 <= i < 24 ==> chart[i].count == if data.None? then 0 else Bucket(data.value, i)
  {
    var hourlyMap := EmptyBuckets();
    var items := if data.None? then [] else data.value;
    hourlyMap := FillBuckets(items, hourlyMap);
    chart := [];
    var i := 0;
    while i < 24
      invariant 0 <= i <= 24 && |chart| == i
      invariant forall j :: 0 <= j < i ==> chart[j] == HourlyBar(HourName(j), Bucket(items, j))
    {
      chart := chart + [HourlyBar(HourName(i), hourlyMap[HourName(i)])];
      i := i + 1;
    }
  }

  // ---------------------------------------------------------------------
  // Tooltip

  /** `count === 1 ? 'detection' : 'detections'`. */
  function DetectionWord(count: int): (r: string)
    ensures r == "detection" <==> count == 1
  {
    if count == 1 then "detection" else "detections"
  }

  /** The tooltip's two lines, shown only while active over a bar. */
  function Tooltip(active: bool, payload: seq<int>, hourLabel: string): Option<(string, string)>
  {
    if active && |payload| > 0 then
      Some((IntToString(payload[0]) + " " + DetectionWord(payload[0]), "Hour: " + hourLabel + ":00"))
    else None
  }

  /** The first line is the count followed by the singular word exactly
      for one detection. */
  lemma {:induction false} TooltipWording(payload: seq<int>, hourLabel: string)
    requires |payload| > 0
    ensures var t := Tooltip(true, payload, hourLabel);
      t.Some? && t.value.0 == IntToString(payload[0]) + " " + (if payload[0] == 1 then "detection" else "detections")
  {
  }
}
