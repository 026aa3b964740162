/**
 * The observer hook (bpf/elephantshrew_tc.bpf.c): accounting, sampling, event construction and the
 * flow aggregate, one packet at a time.  The answers of the kernel helpers are parameters.
 */
module Observer {
  import opened Shared
  import opened Parser
  import opened ParserLaws
  import opened TupleShape
  import opened Events
  import Frames
  import Padding
  import RoundTrip

  type Packet = s: seq<byte> | |s| < 0x1_0000_0000 witness []

  /** The parts of __sk_buff the hooks look at. */
  datatype Skb = Skb(data: Packet, ifindex: word32, vlanPresent: bool, vlanTci: word32) {
    function Stripped(): Option<word16> {
      if vlanPresent then Some(vlanTci % 0x1_0000) else None
    }
  }

  datatype Config = Config(
    sampleEvery: word32, snapshotBytes: word32, classify: byte, flowEnabled: byte, selectL4Proto: byte)

  /** What the helpers answer during one call. */
  datatype Helpers = Helpers(load: bool, copy: bool, reserve: bool, now: word64, cpu: word32, flow: FlowHelpers)

  /** Entries the LRU map drops before and during the call, and whether an insertion succeeds. */
  datatype FlowHelpers = FlowHelpers(evictedBefore: set<FlowKey>, inserted: bool, evictedAfter: set<FlowKey>)

  datatype FlowKey = FlowKey(tuple: Tuple, ifindex: word32, direction: byte)

  datatype FlowValue = FlowValue(firstNs: word64, lastNs: word64, packets: word64, bytes: word64) {
    function Account(now: word64, len: nat): FlowValue {
      FlowValue(if packets == 0 then now else firstNs, now, Plus(packets, 1), Plus(bytes, len))
    }
  }

  const ZERO_FLOW := FlowValue(0, 0, 0, 0)

  // es_counter_id
  const PACKETS: nat := 0
  const BYTES: nat := 1
  const SELECTED: nat := 2
  const EVENTS: nat := 3
  const RING_LOST: nat := 4
  const PARSE_PARTIAL: nat := 5
  const PARSE_MALFORMED: nat := 6
  const SNAPSHOT_FAILED: nat := 7
  const FLOW_UPDATE_FAILED: nat := 8
  const COUNTERS: nat := 13

  type Counters = s: seq<word64> | |s| == COUNTERS witness [0, 0, 0, 0, 0, 0, 0, 0, 0, 0, 0, 0, 0]

  lemma PlusPlus(x: word64, m: nat, n: nat)
    ensures Plus(Plus(x, m), n) == Plus(x, m + n)
    ensures Plus(x, 0) == x
  {
  }

  /** The capture and parse both hooks perform. */
  function Decode(skb: Skb, load: bool): Outcome {
    if |skb.data| > 0 && load then ParseWhole(skb.data, skb.Stripped()) else Outcome(Truncated, ZERO_TUPLE)
  }

  /** What `es_observe` knows of the packet: Skipped unless some feature needs the parser. */
  function Observed(cfg: Config, skb: Skb, load: bool): Outcome {
    if cfg.classify != 0 || cfg.flowEnabled != 0 || cfg.selectL4Proto != 0 then Decode(skb, load)
    else Outcome(Skipped, ZERO_TUPLE)
  }

  predicate Selects(cfg: Config, o: Outcome) {
    cfg.selectL4Proto != 0 ==> o.status == Ok && o.tuple.l4Proto == cfg.selectL4Proto
  }

  /** Is the packet that takes SELECTED to `selected` one of every `n`? */
  predicate Samples(n: word32, selected: word64) {
    n != 0 && selected % n == 0
  }

  function FlowKeyOf(skb: Skb, direction: byte, t: Tuple): FlowKey {
    FlowKey(t, skb.ifindex, direction)
  }

  /** The table once the entry has been looked for and, failing that, inserted. */
  function Admit<V>(table: map<FlowKey, V>, key: FlowKey, zero: V, h: FlowHelpers): map<FlowKey, V> {
    var m := table - h.evictedBefore;
    if key in m then m else (if h.inserted then m[key := zero] else m) - h.evictedAfter
  }

  function FlowsAfter(flows: map<FlowKey, FlowValue>, key: FlowKey, now: word64, len: nat, h: FlowHelpers)
    : map<FlowKey, FlowValue>
  {
    var m := Admit(flows, key, ZERO_FLOW, h);
    if key in m then m[key := m[key].Account(now, len)] else m
  }

  predicate CountsFlow(cfg: Config, o: Outcome) {
    cfg.flowEnabled != 0 && o.status == Ok && o.tuple.flags.portsValid
  }

  /** What accounting and parsing add to counter `i`. */
  function AccountDelta(cfg: Config, flows: map<FlowKey, FlowValue>, skb: Skb, direction: byte, h: Helpers, i: nat)
    : nat
  {
    var o := Observed(cfg, skb, h.load);
    if i == PACKETS then 1
    else if i == BYTES then |skb.data|
    else if i == PARSE_PARTIAL then Bit(o.status in {Truncated, Unsupported, Fragment})
    else if i == PARSE_MALFORMED then Bit(o.status == Malformed)
    else if i == FLOW_UPDATE_FAILED then
      var key := FlowKeyOf(skb, direction, o.tuple);
      Bit(CountsFlow(cfg, o) && key !in Admit(flows, key, ZERO_FLOW, h.flow))
    else 0
  }

  /** What a selected packet that takes SELECTED to `selected` adds to counter `i`. */
  function SampleDelta(cfg: Config, selected: word64, skb: Skb, h: Helpers, i: nat): nat {
    var sampled := Samples(cfg.sampleEvery, selected);
    if i == SELECTED then 1
    else if i == EVENTS then Bit(sampled && h.reserve)
    else if i == RING_LOST then Bit(sampled && !h.reserve)
    else if i == SNAPSHOT_FAILED then Bit(sampled && h.reserve && !h.copy && Want(cfg, skb) > 0)
    else 0
  }

  /** What one call adds to counter `i`, when the slot held `c` before it. */
  function Delta(
    cfg: Config, c: Counters, flows: map<FlowKey, FlowValue>, skb: Skb, direction: byte, h: Helpers, i: nat): nat
  {
    AccountDelta(cfg, flows, skb, direction, h, i) +
    if Selects(cfg, Observed(cfg, skb, h.load)) then SampleDelta(cfg, Plus(c[SELECTED], 1), skb, h, i) else 0
  }

  function CountersAfter(
    cfg: Config, c: Counters, flows: map<FlowKey, FlowValue>, skb: Skb, direction: byte, h: Helpers): (r: Counters)
    ensures forall i :: 0 <= i < COUNTERS ==> r[i] == Plus(c[i], Delta(cfg, c, flows, skb, direction, h, i))
  {
    seq(COUNTERS, i requires 0 <= i < COUNTERS => Plus(c[i], Delta(cfg, c, flows, skb, direction, h, i)))
  }

  /** The length of the snapshot asked for. */
  function Want(cfg: Config, skb: Skb): nat {
    Min(Min(cfg.snapshotBytes, SNAPSHOT_MAX), |skb.data|)
  }

  /** The event of a sampled packet whose ring reservation succeeded. */
  function EventOf(cfg: Config, skb: Skb, direction: byte, h: Helpers, sequence: word64): Event {
    var o := Observed(cfg, skb, h.load);
    var want := Want(cfg, skb);
    var copied := if h.copy then want else 0;
    Event(h.now, sequence, skb.ifindex, |skb.data|, h.cpu, ABI_VERSION, EVENT_SIZE, copied, LINKTYPE_ETHERNET,
          direction, HOOK_TC, o.status.Code(),
          EventFlags(0 < copied < |skb.data|, want > 0 && !h.copy, skb.vlanPresent, 0),
          o.tuple, skb.data[..copied] + Zeros(SNAPSHOT_MAX - copied))
  }

  /** The events one call adds to the ring. */
  function Published(cfg: Config, c: Counters, skb: Skb, direction: byte, h: Helpers): seq<Event> {
    if Selects(cfg, Observed(cfg, skb, h.load)) && Samples(cfg.sampleEvery, Plus(c[SELECTED], 1)) && h.reserve
    then [EventOf(cfg, skb, direction, h, Plus(c[PACKETS], 1))] else []
  }

  lemma DecodeStatus(skb: Skb, load: bool)
    ensures Decode(skb, load).status != Skipped
  {
    ParseWellFormed(skb.data[..Min(|skb.data|, PARSE_BYTES)], |skb.data|, skb.Stripped());
  }

  /** A counter slot with the flow table and the ring of its CPU. */
  datatype HookState = HookState(counters: Counters, flows: map<FlowKey, FlowValue>, ring: seq<Event>)

  /** Accounting, then sampling if the packet is selected, add up to CountersAfter. */
  lemma HalvesCompose(cfg: Config, c: Counters, mid: Counters, fin: Counters, flows: map<FlowKey, FlowValue>,
                      skb: Skb, direction: byte, h: Helpers)
    requires forall i :: 0 <= i < COUNTERS ==> mid[i] == Plus(c[i], AccountDelta(cfg, flows, skb, direction, h, i))
    requires if !Selects(cfg, Observed(cfg, skb, h.load)) then fin == mid
             else forall i :: 0 <= i < COUNTERS ==>
                    fin[i] == Plus(mid[i], SampleDelta(cfg, Plus(mid[SELECTED], 1), skb, h, i))
    ensures fin == CountersAfter(cfg, c, flows, skb, direction, h) && mid[SELECTED] == c[SELECTED]
  {
    assert mid[SELECTED] == Plus(c[SELECTED], 0);
    forall i | 0 <= i < COUNTERS
      ensures fin[i] == CountersAfter(cfg, c, flows, skb, direction, h)[i]
    {
      var m, n := AccountDelta(cfg, flows, skb, direction, h, i), SampleDelta(cfg, Plus(c[SELECTED], 1), skb, h, i);
      PlusPlus(c[i], m, n);
      var selected := Selects(cfg, Observed(cfg, skb, h.load));
      assert Delta(cfg, c, flows, skb, direction, h, i) == m + if selected then n else 0;
    }
  }

  /** One call of the hook whose counter lookup succeeds. */
  function Step(cfg: Config, s: HookState, skb: Skb, direction: byte, h: Helpers): HookState {
    var o := Observed(cfg, skb, h.load);
    HookState(
      CountersAfter(cfg, s.counters, s.flows, skb, direction, h),
      if CountsFlow(cfg, o)
      then FlowsAfter(s.flows, FlowKeyOf(skb, direction, o.tuple), h.now, |skb.data|, h.flow) else s.flows,
      s.ring + Published(cfg, s.counters, skb, direction, h))
  }

  /** One arrival at the flow table, told without the steps of the lookup. */
  ghost predicate Arrived(
    before: map<FlowKey, FlowValue>, after: map<FlowKey, FlowValue>,
    key: FlowKey, now: word64, len: nat, h: FlowHelpers)
  {
    var found := key in before && key !in h.evictedBefore;
    && (key in after <==> found || (h.inserted && key !in h.evictedAfter))
    && (key in after ==>
          var v := if found then before[key] else FlowValue(0, 0, 0, 0);
          after[key] == FlowValue(if v.packets == 0 then now else v.firstNs, now,
                                  (v.packets + 1) % 0x1_0000_0000_0000_0000, (v.bytes + len) % 0x1_0000_0000_0000_0000))
    && forall k :: k != key ==>
         && (k in after <==> k in before && k !in h.evictedBefore && (found || k !in h.evictedAfter))
         && (k in after ==> after[k] == before[k])
  }

  lemma FlowsArrive(
    flows: map<FlowKey, FlowValue>, key: FlowKey, now: word64, len: nat, h: FlowHelpers)
    ensures Arrived(flows, FlowsAfter(flows, key, now, len, h), key, now, len, h)
    ensures key in FlowsAfter(flows, key, now, len, h) <==> key in Admit(flows, key, ZERO_FLOW, h)
  {
  }

  /**
   * What an event says of its packet: the frame's own values wherever the frame is one that can be
   * described, and the reason for every other answer.
   */
  ghost predicate Tells(e: Event, cfg: Config, skb: Skb, direction: byte, h: Helpers) {
    var vlan := if skb.vlanPresent then Some((skb.vlanTci % 65536) as word16) else None;
    && e.timestamp == h.now && e.ifindex == skb.ifindex && e.cpu == h.cpu && e.direction == direction
    && e.originalLen == |skb.data| && e.abiVersion == 2 && e.recordSize == 216 && e.linkType == 1 && e.hook == 1
    && e.flags.vlanStripped == skb.vlanPresent && ShowsStart(e, cfg, skb, h)
    && if cfg.classify == 0 && cfg.flowEnabled == 0 && cfg.selectL4Proto == 0 then
         e.parseStatus == 5 && e.tuple == ZERO_TUPLE
       else if |skb.data| == 0 || !h.load then
         e.parseStatus == 1 && e.tuple == ZERO_TUPLE
       else
         && (Padding.EndsShort(skb.data, vlan) ==> e.parseStatus == 3)
         && forall d: Frames.Frame :: d.Valid() && d.Bytes() == skb.data ==> TellsFrame(e, d.Read(vlan))
  }

  /** The snapshot: as much of the packet as was asked for, at most 128 bytes, or nothing after a failed copy. */
  ghost predicate ShowsStart(e: Event, cfg: Config, skb: Skb, h: Helpers) {
    var n: nat, len := e.capturedLen, |skb.data|;
    && n <= cfg.snapshotBytes && n <= 128 && n <= len
    && (if h.copy then n == cfg.snapshotBytes || n == 128 || n == len else n == 0)
    && e.prefix == skb.data[..n] + Zeros(128 - n)
    && (e.flags.copyFailed <==> !h.copy && cfg.snapshotBytes > 0 && len > 0)
    && (e.flags.prefixTruncated <==> 0 < n < len) && e.flags.unknown == 0
  }

  ghost predicate TellsFrame(e: Event, r: Frames.Reply) {
    if r.used > 128 then e.parseStatus == 1
    else
      && e.tuple == r.tuple
      && match r.status
         case Ok => e.parseStatus == 0
         case Unsupported => e.parseStatus == 2
         case Malformed => e.parseStatus == 3
         case Fragment => e.parseStatus == 4
         case _ => false
  }

  /** Counting one more, in 64 bits. */
  ghost predicate IsNext(after: int, before: int) {
    after == (before + 1) % 0x1_0000_0000_0000_0000
  }

  /**
   * What one call adds to the ring: at most one event, which tells the packet, carries the number of
   * packets so far and decodes to itself; and without protocol selection one exactly if a multiple
   * of `sample_every` is reached and the ring has room.
   */
  ghost predicate Appends(
    cfg: Config, c: Counters, before: seq<Event>, after: seq<Event>, skb: Skb, direction: byte, h: Helpers)
  {
    && before <= after && |after| <= |before| + 1
    && (|after| > |before| ==>
          var e := after[|before|];
          && Tells(e, cfg, skb, direction, h) && IsNext(e.sequence, c[0])
          && DecodeEvent(Some(WriteEvent(e))) == if skb.ifindex != 0 then Some(e) else None)
    && (cfg.selectL4Proto == 0 ==>
          forall n: nat :: IsNext(n, c[2]) ==>
            (|after| > |before| <==> cfg.sampleEvery != 0 && n % cfg.sampleEvery == 0 && h.reserve))
  }

  class Hook {
    const cfg: Config
    var flows: map<FlowKey, FlowValue>
    var ring: seq<Event>

    constructor (cfg: Config)
      ensures this.cfg == cfg && flows == map[] && ring == []
    {
      this.cfg := cfg;
      flows := map[];
      ring := [];
    }

    /** Atomic addition to one counter, which answers with the value before it. */
    method FetchAndAdd(s: array<word64>, i: nat, n: nat) returns (previous: word64)
      requires s.Length == COUNTERS && i < COUNTERS
      modifies s
      ensures previous == old(s[i]) && s[..] == old(s[..])[i := Plus(old(s[i]), n)]
    {
      previous := s[i];
      s[i] := Plus(s[i], n);
    }

    /** es_count_flow */
    method CountFlow(skb: Skb, direction: byte, tuple: Tuple, s: array<word64>, now: word64, h: FlowHelpers)
      requires s.Length == COUNTERS
      modifies this`flows, s
      ensures
        var key := FlowKeyOf(skb, direction, tuple);
        if !tuple.flags.portsValid then flows == old(flows) && s[..] == old(s[..])
        else
          && flows == FlowsAfter(old(flows), key, now, |skb.data|, h)
          && s[..] == if key in Admit(old(flows), key, ZERO_FLOW, h) then old(s[..])
                      else old(s[..])[FLOW_UPDATE_FAILED := Plus(old(s[FLOW_UPDATE_FAILED]), 1)]
      ensures tuple.flags.portsValid ==>
                var key := FlowKey(tuple, skb.ifindex, direction);
                && Arrived(old(flows), flows, key, now, |skb.data|, h)
                && (if key in flows then s[8] == old(s[8]) else IsNext(s[8], old(s[8])))
                && forall i :: 0 <= i < 13 && i != 8 ==> s[i] == old(s[i])
    {
      if !tuple.flags.portsValid { return; }
      FlowsArrive(flows, FlowKey(tuple, skb.ifindex, direction), now, |skb.data|, h);
      var key := FlowKey(tuple, skb.ifindex, direction);
      flows := flows - h.evictedBefore;
      if key !in flows {
        if h.inserted { flows := flows[key := ZERO_FLOW]; }
        flows := flows - h.evictedAfter;
      }
      if key !in flows {
        var _ := FetchAndAdd(s, FLOW_UPDATE_FAILED, 1);
        return;
      }
      var f := flows[key];
      if f.packets == 0 { f := f.(firstNs := now); }
      f := f.(lastNs := now);
      f := f.(packets := Plus(f.packets, 1));
      f := f.(bytes := Plus(f.bytes, |skb.data|));
      flows := flows[key := f];
    }

    /** es_observe; the slot is null when the counter lookup fails.  The packet always passes. */
    method Observe(skb: Skb, direction: byte, s: array?<word64>, h: Helpers) returns (verdict: int)
      requires direction < DIRECTIONS
      requires s != null ==> s.Length == COUNTERS
      modifies this`flows, this`ring, s
      ensures verdict == TC_NEXT
      ensures s == null ==> flows == old(flows) && ring == old(ring)
      ensures s != null ==>
                HookState(s[..], flows, ring) ==
                Step(cfg, HookState(old(s[..]), old(flows), old(ring)), skb, direction, h)
      ensures s != null ==> Appends(cfg, old(s[..]), old(ring), ring, skb, direction, h)
    {
      verdict := TC_NEXT;
      if s == null { return; }
      ghost var c := s[..];
      StepAppends(cfg, HookState(c, flows, ring), skb, direction, h);
      hide Appends;
      var sequence, status, tuple := Account(skb, direction, s, h);
      ghost var mid := s[..];
      assert forall i :: 0 <= i < COUNTERS ==>
                           mid[i] == Plus(c[i], AccountDelta(cfg, old(flows), skb, direction, h, i));
      if cfg.selectL4Proto != 0 && (status != Ok || tuple.l4Proto != cfg.selectL4Proto) {
        HalvesCompose(cfg, c, mid, mid, old(flows), skb, direction, h);
        return;
      }
      Sample(skb, direction, s, h, sequence, status, tuple);
      assert forall i :: 0 <= i < COUNTERS ==>
                           s[..][i] == Plus(mid[i], SampleDelta(cfg, Plus(mid[SELECTED], 1), skb, h, i));
      HalvesCompose(cfg, c, mid, s[..], old(flows), skb, direction, h);
    }

    /** The first half of es_observe: packet counters, parsing and the flow table. */
    method Account(skb: Skb, direction: byte, s: array<word64>, h: Helpers)
      returns (sequence: word64, status: Status, tuple: Tuple)
      requires s.Length == COUNTERS
      modifies this`flows, s
      ensures sequence == Plus(old(s[PACKETS]), 1) && Outcome(status, tuple) == Observed(cfg, skb, h.load)
      ensures forall i :: 0 <= i < COUNTERS ==>
                s[i] == Plus(old(s[i]), AccountDelta(cfg, old(flows), skb, direction, h, i))
      ensures flows == if CountsFlow(cfg, Outcome(status, tuple))
                       then FlowsAfter(old(flows), FlowKeyOf(skb, direction, tuple), h.now, |skb.data|, h.flow)
                       else old(flows)
    {
      status, tuple := Skipped, ZERO_TUPLE;
      sequence := FetchAndAdd(s, PACKETS, 1);
      sequence := Plus(sequence, 1);
      var _ := FetchAndAdd(s, BYTES, |skb.data|);
      if cfg.classify != 0 || cfg.flowEnabled != 0 || cfg.selectL4Proto != 0 {
        status, tuple := Classify(skb, h.load);
        if status == Malformed {
          var _ := FetchAndAdd(s, PARSE_MALFORMED, 1);
        } else if status != Ok {
          var _ := FetchAndAdd(s, PARSE_PARTIAL, 1);
        }
      }
      DecodeStatus(skb, h.load);
      if cfg.flowEnabled != 0 && status == Ok {
        CountFlow(skb, direction, tuple, s, h.now, h.flow);
      }
    }

    /** The second half: the sampling rule and the event. */
    method Sample(
      skb: Skb, direction: byte, s: array<word64>, h: Helpers, sequence: word64, status: Status, tuple: Tuple)
      requires s.Length == COUNTERS && Outcome(status, tuple) == Observed(cfg, skb, h.load)
      requires Selects(cfg, Outcome(status, tuple))
      modifies this`ring, s
      ensures forall i :: 0 <= i < COUNTERS ==>
                s[i] == Plus(old(s[i]), SampleDelta(cfg, Plus(old(s[SELECTED]), 1), skb, h, i))
      ensures ring == old(ring) + if Samples(cfg.sampleEvery, Plus(old(s[SELECTED]), 1)) && h.reserve
                                  then [EventOf(cfg, skb, direction, h, sequence)] else []
    {
      var selected := FetchAndAdd(s, SELECTED, 1);
      selected := Plus(selected, 1);
      if cfg.sampleEvery == 0 || selected % cfg.sampleEvery != 0 { return; }
      if !h.reserve {
        var _ := FetchAndAdd(s, RING_LOST, 1);
        return;
      }
      var e, failed := Build(skb, direction, h, sequence, status, tuple);
      if failed {
        var _ := FetchAndAdd(s, SNAPSHOT_FAILED, 1);
      }
      ring := ring + [e];
      var _ := FetchAndAdd(s, EVENTS, 1);
    }

    /** The capture and the parse; Truncated when there is nothing to load or loading fails. */
    method Classify(skb: Skb, load: bool) returns (status: Status, tuple: Tuple)
      ensures Outcome(status, tuple) == Decode(skb, load)
    {
      status, tuple := Truncated, ZERO_TUPLE;
      var cap := |skb.data|;
      if cap > PARSE_BYTES { cap := PARSE_BYTES; }
      if cap != 0 && load {
        var bytes := skb.data[..cap];
        status, tuple := EsParse(bytes, cap as u32, |skb.data| as u32, skb.Stripped());
        assert bytes[..cap] == bytes;
      }
    }

    /** The event buffer, filled field by field. */
    method Build(skb: Skb, direction: byte, h: Helpers, sequence: word64, status: Status, tuple: Tuple)
      returns (e: Event, failed: bool)
      requires Outcome(status, tuple) == Observed(cfg, skb, h.load)
      ensures e == EventOf(cfg, skb, direction, h, sequence)
      ensures failed == (!h.copy && Want(cfg, skb) > 0)
    {
      e := Event(h.now, sequence, skb.ifindex, |skb.data|, h.cpu, ABI_VERSION, EVENT_SIZE, 0, LINKTYPE_ETHERNET,
                 direction, HOOK_TC, status.Code(), EventFlags(false, false, false, 0), tuple, Zeros(SNAPSHOT_MAX));
      if skb.vlanPresent { e := e.(flags := e.flags.(vlanStripped := true)); }
      e, failed := TakeSnapshot(skb, h, e);
    }

    /** The copy of the start of the packet; a failed copy publishes nothing. */
    method TakeSnapshot(skb: Skb, h: Helpers, e: Event) returns (e': Event, failed: bool)
      requires e.capturedLen == 0 && e.prefix == Zeros(SNAPSHOT_MAX)
      requires !e.flags.prefixTruncated && !e.flags.copyFailed
      ensures failed == (!h.copy && Want(cfg, skb) > 0)
      ensures
        var copied := if h.copy then Want(cfg, skb) else 0;
        e' == e.(capturedLen := copied,
                 prefix := skb.data[..copied] + Zeros(SNAPSHOT_MAX - copied),
                 flags := e.flags.(prefixTruncated := 0 < copied < |skb.data|, copyFailed := failed))
    {
      e', failed := e, false;
      var want: nat := cfg.snapshotBytes;
      if want > SNAPSHOT_MAX { want := SNAPSHOT_MAX; }
      if want > |skb.data| { want := |skb.data|; }
      assert want == Want(cfg, skb) && skb.data[..0] + Zeros(SNAPSHOT_MAX) == Zeros(SNAPSHOT_MAX);
      if want != 0 {
        if h.copy {
          assert e.prefix[want..] == Zeros(SNAPSHOT_MAX - want);
          e' := e'.(prefix := skb.data[..want] + e'.prefix[want..]);
          e' := e'.(capturedLen := want);
          if want < |skb.data| { e' := e'.(flags := e'.flags.(prefixTruncated := true)); }
        } else {
          e' := e'.(prefix := Zeros(SNAPSHOT_MAX));
          e' := e'.(flags := e'.flags.(copyFailed := true));
          failed := true;
        }
      }
    }
  }

  // --- Producer and consumer agree --------------------------------------------------------------

  lemma ObservedWellFormed(cfg: Config, skb: Skb, load: bool)
    ensures
      var o := Observed(cfg, skb, load);
      Shaped(o.tuple) && (o.status != Skipped ==> WellFormed(o)) && (o.status == Skipped ==> o.tuple == ZERO_TUPLE)
  {
    ParseWellFormed(skb.data[..Min(|skb.data|, PARSE_BYTES)], |skb.data|, skb.Stripped());
  }

  /**
   * Whatever the packet, the configuration and the helpers did, a published event laid out in its
   * 216 bytes is accepted by DecodeEvent and decodes to itself, exactly if its interface index is
   * not zero.
   */
  lemma PublishedEventIsAccepted(cfg: Config, skb: Skb, direction: byte, h: Helpers, sequence: word64)
    requires direction < DIRECTIONS
    ensures
      var e := EventOf(cfg, skb, direction, h, sequence);
      DecodeEvent(Some(WriteEvent(e))) == if skb.ifindex != 0 then Some(e) else None
  {
    var e := EventOf(cfg, skb, direction, h, sequence);
    ObservedWellFormed(cfg, skb, h.load);
    ReadWrittenEvent(e);
    ValidatedIsAcceptable(e);
  }

  /** Every event a call adds tells its packet, and decodes to itself. */
  lemma PublishedTells(cfg: Config, skb: Skb, direction: byte, h: Helpers, sequence: word64)
    requires direction < DIRECTIONS
    ensures
      var e := EventOf(cfg, skb, direction, h, sequence);
      && Tells(e, cfg, skb, direction, h) && e.sequence == sequence
      && DecodeEvent(Some(WriteEvent(e))) == if skb.ifindex != 0 then Some(e) else None
  {
    hide Tells, DecodeEvent, Observed;
    PublishedEventIsAccepted(cfg, skb, direction, h, sequence);
    EventTells(cfg, skb, direction, h, sequence);
  }

  lemma StepAppends(cfg: Config, s: HookState, skb: Skb, direction: byte, h: Helpers)
    requires direction < DIRECTIONS
    ensures Appends(cfg, s.counters, s.ring, Step(cfg, s, skb, direction, h).ring, skb, direction, h)
  {
    hide Tells, DecodeEvent, EventOf, Observed;
    PublishedTells(cfg, skb, direction, h, Plus(s.counters[PACKETS], 1));
  }

  lemma EventShowsStart(cfg: Config, skb: Skb, direction: byte, h: Helpers, sequence: word64)
    ensures ShowsStart(EventOf(cfg, skb, direction, h, sequence), cfg, skb, h)
  {
    hide Observed;
  }

  lemma EventTells(cfg: Config, skb: Skb, direction: byte, h: Helpers, sequence: word64)
    ensures Tells(EventOf(cfg, skb, direction, h, sequence), cfg, skb, direction, h)
  {
    hide TellsFrame, ShowsStart, Padding.EndsShort, ParseWhole;
    EventShowsStart(cfg, skb, direction, h, sequence);
    var e := EventOf(cfg, skb, direction, h, sequence);
    if |skb.data| > 0 && h.load {
      Padding.PaddingInvariance(skb.data, skb.Stripped());
      forall d: Frames.Frame | d.Valid() && d.Bytes() == skb.data
        ensures cfg.classify != 0 || cfg.flowEnabled != 0 || cfg.selectL4Proto != 0 ==>
                  TellsFrame(e, d.Read(skb.Stripped()))
      {
        DescribedTells(e, d, skb.Stripped());
      }
    }
  }

  lemma DescribedTells(e: Event, d: Frames.Frame, stripped: Option<word16>)
    requires d.Valid()
    ensures
      var o := ParseWhole(d.Bytes(), stripped);
      e.parseStatus == o.status.Code() && e.tuple == o.tuple ==> TellsFrame(e, d.Read(stripped))
  {
    hide Parse, Frames.Frame.Bytes, Frames.Frame.Read;
    var f := d.Bytes();
    RoundTrip.WholeFrame(d, stripped);
    ParseWellFormed(f[..Min(|f|, PARSE_BYTES)], |f|, stripped);
  }

  /**
   * What a consumer may conclude from the bytes it decodes: the snapshot is the start of the packet
   * and zeros behind it, shorter than asked for only when it is empty because copying failed, and
   * marked as truncated exactly if it is a proper part of the packet.
   */
  lemma SnapshotIsPrefix(cfg: Config, skb: Skb, direction: byte, h: Helpers, sequence: word64, e: Event)
    requires direction < DIRECTIONS
    requires DecodeEvent(Some(WriteEvent(EventOf(cfg, skb, direction, h, sequence)))) == Some(e)
    ensures
      && e.capturedLen <= e.originalLen == |skb.data| && e.prefix[..e.capturedLen] == skb.data[..e.capturedLen]
      && e.prefix[e.capturedLen..] == Zeros(SNAPSHOT_MAX - e.capturedLen)
      && (e.capturedLen < Want(cfg, skb) <==> e.flags.copyFailed) && (e.flags.copyFailed ==> e.capturedLen == 0)
      && (e.flags.prefixTruncated <==> 0 < e.capturedLen < |skb.data|)
  {
    hide DecodeEvent, Observed;
    PublishedEventIsAccepted(cfg, skb, direction, h, sequence);
  }
}
