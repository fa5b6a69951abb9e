/** The port allocator (`findAvailablePort`): the first port at or above the
    configured starting port that no stored row uses. */
module Ports {
  import opened Wrappers
  import opened Values
  import opened Schema

  /** `parseInt(process.env.STARTING_PORT) || 8910`: an unparsable value (NaN,
      here `None`) and zero both fall back to 8910. */
  function StartingPort(parsed: Option<int>): (p: int)
    ensures p != 0
    ensures parsed == Some(p) || p == 8910
  {
    match parsed
    case None => 8910
    case Some(n) => if n == 0 then 8910 else n
  }

  /** The numeric ports of the stored rows; `usedPorts.includes(port)` compares
      with a number, so a port cell holding text never matches. */
  function UsedPorts(rows: seq<Instance>): (used: set<int>)
    ensures forall p :: p in used <==> exists o :: o in rows && o.port == SqlInt(p)
  {
    set o | o in rows && o.port.SqlInt? :: o.port.i
  }

  function PortsFrom(used: set<int>, p: int): set<int> {
    set q | q in used && q >= p
  }

  /** The upward scan from `p`. */
  function FirstFreePort(used: set<int>, p: int): (r: int)
    ensures r >= p && r !in used
    ensures forall q :: p <= q < r ==> q in used
    decreases |PortsFrom(used, p)|
  {
    if p !in used then p
    else
      assert PortsFrom(used, p + 1) == PortsFrom(used, p) - {p};
      FirstFreePort(used, p + 1)
  }

  /** `findAvailablePort` over the rows stored when it reads the table. */
  function FindAvailablePort(rows: seq<Instance>, start: int): (p: int)
    ensures p >= start
    ensures forall o :: o in rows ==> o.port != SqlInt(p)
    ensures forall q :: start <= q < p ==> exists o :: o in rows && o.port == SqlInt(q)
  {
    FirstFreePort(UsedPorts(rows), start)
  }

  /** The least free port is unique: any port satisfying the scan's contract is it. */
  lemma FirstFreePortIsLeast(used: set<int>, p: int, r: int)
    requires r >= p && r !in used && forall q :: p <= q < r ==> q in used
    ensures FirstFreePort(used, p) == r
  {
  }

  /** The port a create or clone gets: the least port no stored row holds, at
      or above `STARTING_PORT` when that parses to a non-zero number and at or
      above 8910 otherwise. */
  lemma AllocatedPort(rows: seq<Instance>, parsed: Option<int>)
    ensures var p := FindAvailablePort(rows, StartingPort(parsed));
      var start := if parsed.Some? && parsed.value != 0 then parsed.value else 8910;
      && p >= start
      && p !in UsedPorts(rows)
      && (forall q :: start <= q < p ==> q in UsedPorts(rows))
      && FirstFreePort(UsedPorts(rows), start) == p
  {
    var start := StartingPort(parsed);
    var p := FindAvailablePort(rows, start);
    FirstFreePortIsLeast(UsedPorts(rows), start, p);
  }

  lemma ExampleGap()
    ensures FirstFreePort({8910, 8911, 8913}, 8910) == 8912
  {
    FirstFreePortIsLeast({8910, 8911, 8913}, 8910, 8912);
  }

  lemma ExampleEmpty()
    ensures FindAvailablePort([], StartingPort(None)) == 8910
  {
  }
}
