/** The tabular report of `pool.info`: `writeInfo`, which renders one
    resource dimension of a pool as four lines, and `infoResult.Write`,
    which renders every pool as a block of nine lines. A line is modelled
    without its trailing newline; the tab that separates a label from its
    value is kept, and the column alignment done by the tab writer is not
    modelled. */
module PoolFormat {
  import opened Wrappers
  import opened Decimal
  import opened PoolTypes

  /** The string values of `types.SharesLevel`, which `%s` prints: lower
      case, and `custom` only for the custom level. */
  function LevelName(l: SharesLevel): (r: string)
    ensures |r| > 0 && forall k :: 0 <= k < |r| ==> 'a' <= r[k] <= 'z'
    ensures r == "custom" <==> l == Custom
  {
    match l
    case Low => "low"
    case Normal => "normal"
    case High => "high"
    case Custom => "custom"
  }

  /** `%v` of a bool. */
  function BoolText(b: bool): (r: string)
    ensures r == "true" <==> b
    ensures r == "false" <==> !b
  {
    if b then "true" else "false"
  }

  /** `s` is the decimal form of `v` directly followed by the unit suffix `units`. */
  predicate QuantityText(s: string, v: int, units: string)
  {
    |units| <= |s| && s[|s| - |units|..] == units && ParseInt(s[..|s| - |units|]) == Some(v)
  }

  lemma QuantityOfDecimal(v: int, units: string)
    ensures QuantityText(IntToDecimal(v) + units, v, units)
  {
    var s := IntToDecimal(v) + units;
    assert s[..|s| - |units|] == IntToDecimal(v);
    assert s[|s| - |units|..] == units;
    IntToDecimalParses(v);
  }

  /** `s` ends with `tail`, and what precedes `tail` is a quantity `v` in `units`. */
  predicate QuantityThen(s: string, v: int, units: string, tail: string)
  {
    |tail| <= |s| && s[|s| - |tail|..] == tail && QuantityText(s[..|s| - |tail|], v, units)
  }

  lemma QuantityThenOfDecimal(v: int, units: string, tail: string)
    ensures QuantityThen(IntToDecimal(v) + units + tail, v, units, tail)
  {
    var s := IntToDecimal(v) + units + tail;
    assert s[..|s| - |tail|] == IntToDecimal(v) + units;
    assert s[|s| - |tail|..] == tail;
    QuantityOfDecimal(v, units);
  }

  /** The value of the Usage line: the overall usage in `units`, then the
      percentage text in parentheses. The percentage, a float formatted
      with `%0.1f`, is given as text. */
  function UsageText(ru: ResourceUsage, units: string, percent: string): string
  {
    IntToDecimal(ru.overallUsage) + units + " (" + percent + "%)"
  }

  /** The Usage value is the overall usage, unclamped, in `units`, followed
      by the percentage in parentheses. */
  lemma UsageTextDecodes(ru: ResourceUsage, units: string, percent: string)
    ensures QuantityThen(UsageText(ru, units, percent), ru.overallUsage, units, " (" + percent + "%)")
  {
    QuantityThenOfDecimal(ru.overallUsage, units, " (" + percent + "%)");
    assert UsageText(ru, units, percent) == IntToDecimal(ru.overallUsage) + units + (" (" + percent + "%)");
  }

  /** The value of the Shares line: the level name, followed by the share
      count in parentheses exactly when the level is `custom`. For any other
      level the text is the level name alone, so the count is not read. */
  function SharesText(s: SharesInfo): (r: string)
    ensures LevelName(s.level) <= r
    ensures |r| > |LevelName(s.level)| <==> s.level == Custom
    ensures s.level != Custom ==> r == LevelName(s.level)
  {
    if s.level == Custom then LevelName(Custom) + " (" + IntToDecimal(s.shares) + ")"
    else LevelName(s.level)
  }

  /** For the `custom` level, the parenthesised suffix is the stored share count. */
  lemma SharesTextCount(s: SharesInfo)
    requires s.level == Custom
    ensures var r := SharesText(s);
      |r| >= 9 && r[..8] == "custom (" && r[|r| - 1] == ')' && ParseInt(r[8..|r| - 1]) == Some(s.shares)
  {
    var r := SharesText(s);
    assert r[..8] == "custom (";
    assert r[8..|r| - 1] == IntToDecimal(s.shares);
    IntToDecimalParses(s.shares);
  }

  /** The value of the Limit line: `unlimited` exactly when the limit is -1,
      and otherwise not. */
  function LimitText(limit: Int64, units: string): (r: string)
    ensures r == "unlimited" <==> limit == -1
  {
    if limit != -1 then
      var r := IntToDecimal(limit) + units;
      assert r[0] == IntToDecimal(limit)[0];
      r
    else
      "unlimited"
  }

  /** Any limit other than -1, negative ones included, is printed as its own
      value in `units`: nothing is clamped. */
  lemma LimitTextDecodes(limit: Int64, units: string)
    requires limit != -1
    ensures QuantityText(LimitText(limit, units), limit, units)
  {
    QuantityOfDecimal(limit, units);
  }

  /** The value of the Reservation line: the reservation in `units`, then
      whether it is expandable. The Go code dereferences
      `ExpandableReservation` unconditionally, so it must be present. */
  function ReservationText(a: ResourceAllocationInfo, units: string): string
    requires a.expandableReservation.Some?
  {
    IntToDecimal(a.reservation) + units + " (expandable=" + BoolText(a.expandableReservation.value) + ")"
  }

  /** The Reservation value is the reservation in `units`, followed by
      `(expandable=true)` or `(expandable=false)` as the flag says. */
  lemma ReservationTextDecodes(a: ResourceAllocationInfo, units: string)
    requires a.expandableReservation.Some?
    ensures QuantityThen(ReservationText(a, units), a.reservation, units,
                         " (expandable=" + BoolText(a.expandableReservation.value) + ")")
  {
    var tail := " (expandable=" + BoolText(a.expandableReservation.value) + ")";
    QuantityThenOfDecimal(a.reservation, units, tail);
    assert ReservationText(a, units) == IntToDecimal(a.reservation) + units + tail;
  }

  /** The label of a line of one dimension's group. */
  function Key(dim: string, field: string): string
  {
    "  " + dim + " " + field + ":"
  }

  /** The order of the four lines `writeInfo` prints for a dimension. */
  const Fields: seq<string> := ["Usage", "Shares", "Reservation", "Limit"]

  /** `writeInfo`: the four lines of one dimension, labelled with `dim`,
      in the order of `Fields`. */
  function InfoLines(dim: string, units: string, ru: ResourceUsage, b: ResourceAllocationInfo, percent: string): (lines: seq<string>)
    requires b.expandableReservation.Some?
    ensures |lines| == |Fields|
    ensures forall k :: 0 <= k < |Fields| ==> Key(dim, Fields[k]) + "\t" <= lines[k]
  {
    [ Key(dim, "Usage") + "\t" + UsageText(ru, units, percent),
      Key(dim, "Shares") + "\t" + SharesText(b.shares),
      Key(dim, "Reservation") + "\t" + ReservationText(b, units),
      Key(dim, "Limit") + "\t" + LimitText(b.limit, units) ]
  }

  /** Both allocations of the pool carry `ExpandableReservation`. */
  predicate Printable(p: ResourcePool)
  {
    p.cpuAllocation.expandableReservation.Some? && p.memoryAllocation.expandableReservation.Some?
  }

  /** The nine labels of a pool's block, in order. */
  const BlockLabels: seq<string> := [
    "Name:",
    "  CPU Usage:", "  CPU Shares:", "  CPU Reservation:", "  CPU Limit:",
    "  Mem Usage:", "  Mem Shares:", "  Mem Reservation:", "  Mem Limit:"]

  /** The nine values of a pool's block, in the order of `BlockLabels`: CPU
      quantities in MHz, memory quantities in MB. */
  function BlockValues(p: ResourcePool, percent: ResourceUsage -> string): seq<string>
    requires Printable(p)
  {
    [ p.name,
      UsageText(p.cpuUsage, "MHz", percent(p.cpuUsage)),
      SharesText(p.cpuAllocation.shares),
      ReservationText(p.cpuAllocation, "MHz"),
      LimitText(p.cpuAllocation.limit, "MHz"),
      UsageText(p.memoryUsage, "MB", percent(p.memoryUsage)),
      SharesText(p.memoryAllocation.shares),
      ReservationText(p.memoryAllocation, "MB"),
      LimitText(p.memoryAllocation.limit, "MB") ]
  }

  /** One iteration of `infoResult.Write`: the `Name:` line, then
      `writeInfo` for CPU in MHz and for memory in MB. `percent` gives the
      usage percentage text of a usage record. */
  function PoolBlock(p: ResourcePool, percent: ResourceUsage -> string): (lines: seq<string>)
    requires Printable(p)
    ensures |lines| == 9
  {
    ["Name:\t" + p.name]
    + InfoLines("CPU", "MHz", p.cpuUsage, p.cpuAllocation, percent(p.cpuUsage))
    + InfoLines("Mem", "MB", p.memoryUsage, p.memoryAllocation, percent(p.memoryUsage))
  }

  /** The labels `writeInfo` produces for CPU are those of `BlockLabels`. */
  lemma CpuKeys()
    ensures Key("CPU", "Usage") == BlockLabels[1] && Key("CPU", "Shares") == BlockLabels[2]
    ensures Key("CPU", "Reservation") == BlockLabels[3] && Key("CPU", "Limit") == BlockLabels[4]
  {
  }

  /** The labels `writeInfo` produces for memory are those of `BlockLabels`. */
  lemma MemKeys()
    ensures Key("Mem", "Usage") == BlockLabels[5] && Key("Mem", "Shares") == BlockLabels[6]
    ensures Key("Mem", "Reservation") == BlockLabels[7] && Key("Mem", "Limit") == BlockLabels[8]
  {
  }

  /** Line `k` of a pool's block is label `k` of `BlockLabels`, a tab, and
      value `k` of `BlockValues`: the name, then usage, shares, reservation
      and limit for CPU in MHz, then the same for memory in MB. */
  lemma PoolBlockLines(p: ResourcePool, percent: ResourceUsage -> string)
    requires Printable(p)
    ensures forall k :: 0 <= k < |BlockLabels| ==>
      PoolBlock(p, percent)[k] == BlockLabels[k] + "\t" + BlockValues(p, percent)[k]
  {
    var lines := PoolBlock(p, percent);
    var values := BlockValues(p, percent);
    var cpu := InfoLines("CPU", "MHz", p.cpuUsage, p.cpuAllocation, percent(p.cpuUsage));
    var mem := InfoLines("Mem", "MB", p.memoryUsage, p.memoryAllocation, percent(p.memoryUsage));
    assert lines == ["Name:\t" + p.name] + cpu + mem;
    CpuKeys();
    MemKeys();
    assert lines[0] == BlockLabels[0] + "\t" + values[0];
    assert lines[1] == cpu[0] && lines[2] == cpu[1] && lines[3] == cpu[2] && lines[4] == cpu[3];
    assert lines[5] == mem[0] && lines[6] == mem[1] && lines[7] == mem[2] && lines[8] == mem[3];
  }

  /** The blocks `f` gives the elements of `xs`, one after another. */
  function FlatMap<A, T>(xs: seq<A>, f: A --> seq<T>): seq<T>
    requires forall i :: 0 <= i < |xs| ==> f.requires(xs[i])
  {
    if xs == [] then [] else FlatMap(xs[..|xs| - 1], f) + f(xs[|xs| - 1])
  }

  lemma FlatMapSnoc<A, T>(xs: seq<A>, n: nat, f: A --> seq<T>)
    requires n < |xs|
    requires forall i :: 0 <= i < |xs| ==> f.requires(xs[i])
    ensures FlatMap(xs[..n + 1], f) == FlatMap(xs[..n], f) + f(xs[n])
  {
    assert xs[..n + 1][..n] == xs[..n];
  }

  /** When every block has nine lines, the concatenation has nine lines per
      element. */
  lemma {:induction false} FlatMapLength<A, T>(xs: seq<A>, f: A --> seq<T>)
    requires forall j :: 0 <= j < |xs| ==> f.requires(xs[j]) && |f(xs[j])| == 9
    ensures |FlatMap(xs, f)| == 9 * |xs|
  {
    if xs != [] {
      FlatMapLength(xs[..|xs| - 1], f);
    }
  }

  /** When every block has nine lines, the block of element `i` sits at
      lines `9 * i` to `9 * i + 8`. */
  lemma {:induction false} FlatMapAt<A, T>(xs: seq<A>, f: A --> seq<T>, i: nat)
    requires forall j :: 0 <= j < |xs| ==> f.requires(xs[j]) && |f(xs[j])| == 9
    requires i < |xs|
    ensures |FlatMap(xs, f)| == 9 * |xs|
    ensures FlatMap(xs, f)[9 * i..9 * i + 9] == f(xs[i])
  {
    var n := |xs| - 1;
    var front := xs[..n];
    if i < n {
      FlatMapAt(front, f, i);
    } else if n > 0 {
      FlatMapAt(front, f, 0);
    }
    assert |FlatMap(front, f)| == 9 * n;
    assert FlatMap(xs, f) == FlatMap(front, f) + f(xs[n]);
    if i < n {
      assert front[i] == xs[i];
    }
  }

  /** `PoolBlock` with the percentage texts fixed. */
  function BlockOf(percent: ResourceUsage -> string): ResourcePool --> seq<string>
  {
    p requires Printable(p) => PoolBlock(p, percent)
  }

  /** The report of `pools`: their blocks, one after another, nine lines
      per pool. */
  function Report(pools: seq<ResourcePool>, percent: ResourceUsage -> string): (lines: seq<string>)
    requires forall i :: 0 <= i < |pools| ==> Printable(pools[i])
    ensures |lines| == 9 * |pools|
  {
    FlatMapLength(pools, BlockOf(percent));
    FlatMap(pools, BlockOf(percent))
  }

  /** The report has nine lines per pool, and lines `9 * i` to `9 * i + 8`
      are the block of pool `i`: pools are reported in order, each once. */
  lemma ReportBlock(pools: seq<ResourcePool>, percent: ResourceUsage -> string, i: nat)
    requires forall j :: 0 <= j < |pools| ==> Printable(pools[j])
    requires i < |pools|
    ensures |Report(pools, percent)| == 9 * |pools|
    ensures Report(pools, percent)[9 * i..9 * i + 9] == PoolBlock(pools[i], percent)
  {
    FlatMapAt(pools, BlockOf(percent), i);
  }

  /** `infoResult.Write`: the lines emitted for `pools`, in order. */
  method Write(pools: seq<ResourcePool>, percent: ResourceUsage -> string) returns (lines: seq<string>)
    requires forall i :: 0 <= i < |pools| ==> Printable(pools[i])
    ensures lines == Report(pools, percent)
  {
    lines := [];
    for n := 0 to |pools|
      invariant lines == FlatMap(pools[..n], BlockOf(percent))
    {
      FlatMapSnoc(pools, n, BlockOf(percent));
      lines := lines + PoolBlock(pools[n], percent);
    }
    assert pools[..|pools|] == pools;
  }
}
