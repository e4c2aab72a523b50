/** What the flows and segments of a scenario are built from. */
module ScenarioTables {
  import opened SegmentShares
  import opened SegmentAlgorithm
  import opened FlowRouting

  const DEFAULT_THROUGHPUT_LINK: real := 1000.0

  /** The configured characteristics of a network element. */
  datatype ElementChars = ElementChars(latency: real, jitter: real, packetLoss: real, throughputUl: real, throughputDl: real)

  /** Element name to its characteristics; an element that is missing reads as all zero. */
  type CharTable = map<string, ElementChars>

  function Defaulted(throughput: real): real {
    if throughput == 0.0 then DEFAULT_THROUGHPUT_LINK else throughput
  }

  function CharsOf(chars: CharTable, elem: string): ElementChars {
    var nc := if elem in chars then chars[elem] else ElementChars(0.0, 0.0, 0.0, 0.0, 0.0);
    nc.(throughputUl := Defaulted(nc.throughputUl), throughputDl := Defaulted(nc.throughputDl))
  }

  function HopThroughput(chars: CharTable, h: Hop): real {
    var nc := CharsOf(chars, h.elem);
    if h.dir == Uplink then nc.throughputUl else nc.throughputDl
  }

  function HopNetChar(chars: CharTable, h: Hop): NetChar {
    var nc := CharsOf(chars, h.elem);
    NetChar(nc.latency, nc.jitter, nc.packetLoss, HopThroughput(chars, h), "")
  }

  function HopSettings(tuning: Tuning, chars: CharTable, h: Hop): Settings {
    SettingsFor(tuning, HopThroughput(chars, h))
  }

  /** The row names the flows, in order. */
  ghost predicate Lists(row: seq<string>, fs: seq<Flow>) {
    |row| == |fs| && forall k :: 0 <= k < |row| ==> row[k] == fs[k].name
  }

  lemma ListsAppend(row: seq<string>, fs: seq<Flow>, f: Flow)
    requires Lists(row, fs)
    ensures Lists(row + [f.name], fs + [f])
  {
  }

  /** The path runs through the segments of these crossings. */
  ghost predicate Through(path: seq<Segment>, hops: seq<Hop>) {
    |path| == |hops| && forall i :: 0 <= i < |path| ==> path[i].hop == hops[i]
  }

  /** The path runs through the segments of these crossings, all of a set. */
  ghost predicate Runs(path: seq<Segment>, segments: set<Segment>, hops: seq<Hop>) {
    Through(path, hops) && forall i :: 0 <= i < |path| ==> path[i] in segments
  }

  lemma RunsMore(path: seq<Segment>, segments: set<Segment>, more: set<Segment>, hops: seq<Hop>, i: nat, s: Segment)
    requires i < |hops| && Runs(path, segments, hops[..i]) && segments <= more && s in more && s.hop == hops[i]
    ensures Runs(path + [s], more, hops[..i + 1])
  {
  }

  /** What a segment is created with. */
  datatype Blueprint = Blueprint(settings: Settings, netChar: NetChar)

  /** The blueprint of a crossing under a tuning and a table of characteristics. */
  function BlueprintOf(tuning: Tuning, chars: CharTable, h: Hop): Blueprint {
    Blueprint(HopSettings(tuning, chars, h), HopNetChar(chars, h))
  }

  function BlueprintsOf(tuning: Tuning, chars: CharTable): Hop -> Blueprint {
    h => BlueprintOf(tuning, chars, h)
  }

  /** A segment is as its crossing asks for. */
  ghost predicate Built(s: Segment, plan: Hop -> Blueprint) {
    s.settings == plan(s.hop).settings && s.netChar == plan(s.hop).netChar
  }
}
